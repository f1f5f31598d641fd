/**
 The generic admin list query: composing it from a request, and what the composed query means once its
 placeholders are bound by position (admin_api/db/query_builder.py). Casts, ILIKE and value order are
 left to the database and appear as the functions of an `Engine`.
 */
module QueryBuilder {
  import opened Std

  datatype Value = Text(text: string) | Number(number: real) | Flag(flag: bool)

  /** A row maps each non-null column to its value. */
  type Row = map<string, Value>

  /** What the database decides: ILIKE, casting a bound value to a column type, and value order. */
  datatype Engine = Engine(
    ilike: (Value, Value) -> bool, cast: (string, Value) -> Value, compare: (Value, Value) -> int)

  datatype ColumnSpec = ColumnSpec(name: string, type_: string, writable: bool, required: bool)

  datatype Sort = Sort(column: string, ascending: bool)

  datatype ResourceSpec = ResourceSpec(
    name: string, primaryKey: string, columns: seq<ColumnSpec>,
    searchable: seq<string>, filterable: seq<string>, sortable: seq<string>, defaultSort: Option<Sort>)

  /** A JSON scalar (possibly null) or a list of them. */
  datatype FilterValue = One(value: Option<Value>) | Many(values: seq<Option<Value>>)

  datatype Filter = Filter(column: string, wanted: FilterValue)

  datatype Range = Range(column: string, from: Option<Value>, to: Option<Value>)

  datatype Request = Request(
    page: int, pageSize: int, sort: Option<Sort>, search: string, filters: seq<Filter>, ranges: seq<Range>)

  datatype QueryError = NotFilterable(column: string) | NotSortable(column: string)

  // ---- the composed query ----

  /** Comparisons; each holds one placeholder. */
  datatype Atom =
    | ILike(column: string)
    | Equals(column: string, cast: string)
    | EqualsAny(column: string, elementCast: string)
    | AtLeast(column: string, cast: string)
    | AtMost(column: string, cast: string)

  datatype Clause = Only(atom: Atom) | AnyOf(atoms: seq<Atom>)

  datatype Param = Scalar(value: Option<Value>) | Array(values: seq<Option<Value>>) | Count(count: int)

  /** WHERE clauses joined by AND, then ORDER BY ... NULLS LAST, then LIMIT and OFFSET placeholders. */
  datatype Query = Query(clauses: seq<Clause>, order: Sort)

  datatype Where = Where(clauses: seq<Clause>, params: seq<Param>)

  // ---- three-valued meaning, placeholders bound by position ----

  datatype Tri = True | False | Unknown

  function And(a: Tri, b: Tri): Tri {
    if a == False || b == False then False else if a == True && b == True then True else Unknown
  }

  function Or(a: Tri, b: Tri): Tri {
    if a == True || b == True then True else if a == False && b == False then False else Unknown
  }

  function Known(b: bool): Tri { if b then True else False }

  function Cell(row: Row, column: string): Option<Value> {
    if column in row then Some(row[column]) else None
  }

  function Compared(cell: Option<Value>, bound: Option<Value>, test: (Value, Value) -> bool): Tri {
    if cell.None? || bound.None? then Unknown else Known(test(cell.value, bound.value))
  }

  function CastTo(e: Engine, type_: string, v: Option<Value>): Option<Value> {
    if v.None? then None else Some(e.cast(type_, v.value))
  }

  /** `cell = ANY(array)` over the first n elements. */
  function EqualsSome(e: Engine, cell: Option<Value>, type_: string, values: seq<Option<Value>>, n: nat): Tri
    requires n <= |values|
  {
    if n == 0 then False
    else Or(EqualsSome(e, cell, type_, values, n - 1),
            Compared(cell, CastTo(e, type_, values[n - 1]), (c, v) => e.compare(c, v) == 0))
  }

  /** A placeholder bound to the wrong kind of value is an error, here Unknown. */
  function EvalAtom(e: Engine, atom: Atom, param: Param, row: Row): Tri {
    match atom
    case ILike(c) => if param.Scalar? then Compared(Cell(row, c), param.value, e.ilike) else Unknown
    case Equals(c, t) =>
      if param.Scalar? then Compared(Cell(row, c), CastTo(e, t, param.value), (a, b) => e.compare(a, b) == 0)
      else Unknown
    case EqualsAny(c, t) =>
      if param.Array? then EqualsSome(e, Cell(row, c), t, param.values, |param.values|) else Unknown
    case AtLeast(c, t) =>
      if param.Scalar? then Compared(Cell(row, c), CastTo(e, t, param.value), (a, b) => e.compare(a, b) >= 0)
      else Unknown
    case AtMost(c, t) =>
      if param.Scalar? then Compared(Cell(row, c), CastTo(e, t, param.value), (a, b) => e.compare(a, b) <= 0)
      else Unknown
  }

  function Slots(clause: Clause): nat {
    if clause.Only? then 1 else |clause.atoms|
  }

  /** Placeholders in the first n clauses, which is where the next clause's begin. */
  function SlotsTo(clauses: seq<Clause>, n: nat): nat
    requires n <= |clauses|
  {
    if n == 0 then 0 else SlotsTo(clauses, n - 1) + Slots(clauses[n - 1])
  }

  function EvalOr(e: Engine, atoms: seq<Atom>, params: seq<Param>, start: nat, row: Row, n: nat): Tri
    requires n <= |atoms| && start + n <= |params|
  {
    if n == 0 then False
    else Or(EvalOr(e, atoms, params, start, row, n - 1), EvalAtom(e, atoms[n - 1], params[start + n - 1], row))
  }

  function EvalClause(e: Engine, clause: Clause, params: seq<Param>, start: nat, row: Row): Tri
    requires start + Slots(clause) <= |params|
  {
    match clause
    case Only(atom) => EvalAtom(e, atom, params[start], row)
    case AnyOf(atoms) => EvalOr(e, atoms, params, start, row, |atoms|)
  }

  function EvalAnd(e: Engine, clauses: seq<Clause>, params: seq<Param>, row: Row, n: nat): Tri
    requires n <= |clauses| && SlotsTo(clauses, n) <= |params|
  {
    if n == 0 then True
    else And(EvalAnd(e, clauses, params, row, n - 1),
             EvalClause(e, clauses[n - 1], params, SlotsTo(clauses, n - 1), row))
  }

  // ---- composing ----

  const CASTS: map<string, string> := map[
    "text" := "", "integer" := "::integer", "numeric" := "::numeric", "boolean" := "::boolean",
    "timestamp" := "::timestamptz", "date" := "::date", "uuid" := "::uuid", "jsonb" := "::jsonb",
    "text_array" := "::text[]"]

  function ColumnTypeUpTo(columns: seq<ColumnSpec>, column: string, n: nat): Option<string>
    requires n <= |columns|
  {
    if n == 0 then None
    else
      var earlier := ColumnTypeUpTo(columns, column, n - 1);
      if earlier.Some? then earlier
      else if columns[n - 1].name == column then Some(columns[n - 1].type_)
      else None
  }

  /** The declared type's cast; undeclared columns and types get none. */
  function CastFor(resource: ResourceSpec, column: string): string {
    var type_ := ColumnTypeUpTo(resource.columns, column, |resource.columns|).GetOr("text");
    if type_ in CASTS then CASTS[type_] else ""
  }

  /** A column declared with a type of the list is cast to it, a timestamp with its zone; text and all else is not. */
  lemma {:induction false} CastsAre(resource: ResourceSpec, column: string, k: nat)
    requires k <= |resource.columns| && forall j :: 0 <= j < k ==> resource.columns[j].name != column
    requires k < |resource.columns| ==> resource.columns[k].name == column
    ensures CastFor(resource, column)
      == if k == |resource.columns| then ""
         else if resource.columns[k].type_ == "timestamp" then "::timestamptz"
         else if resource.columns[k].type_ == "text_array" then "::text[]"
         else if resource.columns[k].type_ in {"integer", "numeric", "boolean", "date", "uuid", "jsonb"}
         then "::" + resource.columns[k].type_
         else ""
  {
    TypeIs(resource.columns, column, k, |resource.columns|);
  }

  lemma {:induction false} TypeIs(columns: seq<ColumnSpec>, column: string, k: nat, n: nat)
    requires k <= |columns| && n <= |columns| && forall j :: 0 <= j < k ==> columns[j].name != column
    requires k < |columns| ==> columns[k].name == column
    ensures ColumnTypeUpTo(columns, column, n) == if k < n then Some(columns[k].type_) else None
  {
    if n > 0 {
      TypeIs(columns, column, k, n - 1);
    }
  }

  function Added(w: Where, clause: Clause, params: seq<Param>): Where {
    Where(w.clauses + [clause], w.params + params)
  }

  function SearchTerm(search: string): Param {
    Scalar(Some(Text("%" + search + "%")))
  }

  function WithSearch(resource: ResourceSpec, search: string): Where {
    if search == "" || resource.searchable == [] then Where([], [])
    else
      var n := |resource.searchable|;
      Added(Where([], []),
            AnyOf(seq(n, k requires 0 <= k < n => ILike(resource.searchable[k]))),
            seq(n, _ => SearchTerm(search)))
  }

  function WithFilter(resource: ResourceSpec, w: Where, f: Filter): Where {
    var cast := CastFor(resource, f.column);
    match f.wanted
    case One(v) => Added(w, Only(Equals(f.column, cast)), [Scalar(v)])
    case Many(vs) => Added(w, Only(EqualsAny(f.column, cast)), [Array(vs)])
  }

  function WithRange(resource: ResourceSpec, w: Where, r: Range): Where {
    var cast := CastFor(resource, r.column);
    var lower := if r.from.Some? then Added(w, Only(AtLeast(r.column, cast)), [Scalar(r.from)]) else w;
    if r.to.Some? then Added(lower, Only(AtMost(r.column, cast)), [Scalar(r.to)]) else lower
  }

  function WithFilters(resource: ResourceSpec, w: Where, filters: seq<Filter>, n: nat): Where
    requires n <= |filters|
  {
    if n == 0 then w else WithFilter(resource, WithFilters(resource, w, filters, n - 1), filters[n - 1])
  }

  function WithRanges(resource: ResourceSpec, w: Where, ranges: seq<Range>, n: nat): Where
    requires n <= |ranges|
  {
    if n == 0 then w else WithRange(resource, WithRanges(resource, w, ranges, n - 1), ranges[n - 1])
  }

  function WhereOf(resource: ResourceSpec, q: Request): Where {
    WithRanges(resource,
      WithFilters(resource, WithSearch(resource, q.search), q.filters, |q.filters|), q.ranges, |q.ranges|)
  }

  /** The sort asked for, else the resource's default, else newest key first. */
  function SortOf(resource: ResourceSpec, q: Request): Sort {
    if q.sort.Some? then q.sort.value
    else resource.defaultSort.GetOr(Sort(resource.primaryKey, false))
  }

  predicate Allowed(resource: ResourceSpec, q: Request) {
    && (forall k :: 0 <= k < |q.filters| ==> q.filters[k].column in resource.filterable)
    && (forall k :: 0 <= k < |q.ranges| ==> q.ranges[k].column in resource.filterable)
    && (q.sort.Some? ==> q.sort.value.column in resource.sortable)
  }

  /** The builder as written: clauses and parameters grow together, the first bad column raises. */
  method BuildListQuery(resource: ResourceSpec, q: Request)
    returns (built: Result<(Query, seq<Param>), QueryError>)
    ensures built.Ok? <==> Allowed(resource, q)
    ensures built.Ok? ==>
      && built.value.0 == Query(WhereOf(resource, q).clauses, SortOf(resource, q))
      && (q.sort.Some? ==> built.value.0.order == q.sort.value)
      && (q.sort.None? && resource.defaultSort.Some? ==> built.value.0.order == resource.defaultSort.value)
      && (q.sort.None? && resource.defaultSort.None? ==>
            built.value.0.order.column == resource.primaryKey && !built.value.0.order.ascending)
      && built.value.1 == WhereOf(resource, q).params + [Count(q.pageSize), Count(q.page * q.pageSize)]
    ensures built.Err? ==> match built.error
      case NotFilterable(c) => c !in resource.filterable
      case NotSortable(c) => c !in resource.sortable
  {
    var clauses: seq<Clause> := [];
    var params: seq<Param> := [];
    if q.search != "" && resource.searchable != [] {
      var ors: seq<Atom> := [];
      var n := |resource.searchable|;
      for k := 0 to n
        invariant ors == seq(k, i requires 0 <= i < k => ILike(resource.searchable[i]))
        invariant params == seq(k, _ => SearchTerm(q.search))
      {
        ors := ors + [ILike(resource.searchable[k])];
        params := params + [SearchTerm(q.search)];
      }
      clauses := clauses + [AnyOf(ors)];
    }
    assert Where(clauses, params) == WithSearch(resource, q.search);

    ghost var searched := Where(clauses, params);
    for k := 0 to |q.filters|
      invariant Where(clauses, params) == WithFilters(resource, searched, q.filters, k)
      invariant forall j :: 0 <= j < k ==> q.filters[j].column in resource.filterable
    {
      var f := q.filters[k];
      if f.column !in resource.filterable {
        return Err(NotFilterable(f.column));
      }
      var cast := CastFor(resource, f.column);
      match f.wanted {
        case Many(vs) =>
          clauses := clauses + [Only(EqualsAny(f.column, cast))];
          params := params + [Array(vs)];
        case One(v) =>
          clauses := clauses + [Only(Equals(f.column, cast))];
          params := params + [Scalar(v)];
      }
    }

    ghost var filtered := Where(clauses, params);
    for k := 0 to |q.ranges|
      invariant Where(clauses, params) == WithRanges(resource, filtered, q.ranges, k)
      invariant forall j :: 0 <= j < k ==> q.ranges[j].column in resource.filterable
    {
      var r := q.ranges[k];
      if r.column !in resource.filterable {
        return Err(NotFilterable(r.column));
      }
      var cast := CastFor(resource, r.column);
      if r.from.Some? {
        clauses := clauses + [Only(AtLeast(r.column, cast))];
        params := params + [Scalar(r.from)];
      }
      if r.to.Some? {
        clauses := clauses + [Only(AtMost(r.column, cast))];
        params := params + [Scalar(r.to)];
      }
    }

    if q.sort.Some? && q.sort.value.column !in resource.sortable {
      return Err(NotSortable(q.sort.value.column));
    }
    var order := SortOf(resource, q);
    params := params + [Count(q.pageSize), Count(q.page * q.pageSize)];
    built := Ok((Query(clauses, order), params));
  }
}
