/**
 Running the built queries: the page a list request gets, the total beside it, and what a built
 insert or update changes (admin_api/db/query_builder.py, admin_api/services/resource_service.py).
 */
module QueryResults {
  import opened Std
  import opened QueryBuilder
  import opened QueryMeaning

  // ---- selecting, ordering, slicing ----

  /** Rows among the first n for which the predicate holds, in table order. */
  ghost function Chosen(table: seq<Row>, wanted: Row -> bool, n: nat): seq<Row>
    requires n <= |table|
  {
    if n == 0 then []
    else Chosen(table, wanted, n - 1) + if wanted(table[n - 1]) then [table[n - 1]] else []
  }

  /** Whether `a` may come before `b`: null cells last either way. */
  predicate MayPrecede(e: Engine, order: Sort, a: Row, b: Row) {
    order.column !in b
    || (order.column in a
        && if order.ascending then e.compare(a[order.column], b[order.column]) <= 0
           else e.compare(a[order.column], b[order.column]) >= 0)
  }

  /** One of the orderings ORDER BY admits: the same rows, none before one that must precede it. */
  ghost predicate Orders(e: Engine, order: Sort, rows: seq<Row>, ordered: seq<Row>) {
    && multiset(ordered) == multiset(rows)
    && forall i, j :: 0 <= i < j < |ordered| ==> MayPrecede(e, order, ordered[i], ordered[j])
  }

  function Slice(rows: seq<Row>, limit: nat, offset: nat): seq<Row> {
    rows[Min(offset, |rows|)..Min(offset + limit, |rows|)]
  }

  ghost function SelectedBy(e: Engine, w: Where): Row -> bool
    requires Balanced(w)
  {
    (row: Row) => Selects(e, w, row)
  }

  ghost function WantedBy(e: Engine, resource: ResourceSpec, q: Request): Row -> bool {
    (row: Row) => Wanted(e, resource, q, row)
  }

  /** Running a query: a negative limit or offset is an error; ties leave the database a choice. */
  ghost predicate Answers(e: Engine, query: Query, params: seq<Param>, table: seq<Row>, result: seq<Row>) {
    var n := SlotsTo(query.clauses, |query.clauses|);
    && |params| == n + 2 && params[n].Count? && params[n + 1].Count?
    && params[n].count >= 0 && params[n + 1].count >= 0
    && exists ordered ::
         && Orders(e, query.order, Chosen(table, SelectedBy(e, Where(query.clauses, params[..n])), |table|), ordered)
         && result == Slice(ordered, params[n].count, params[n + 1].count)
  }

  /** The rows as the request wants them sorted: as it asks, else as the resource does, else newest key first. */
  ghost predicate InRequestedOrder(e: Engine, resource: ResourceSpec, q: Request, rows: seq<Row>, ordered: seq<Row>) {
    if q.sort.Some? then Orders(e, q.sort.value, rows, ordered)
    else if resource.defaultSort.Some? then Orders(e, resource.defaultSort.value, rows, ordered)
    else Orders(e, Sort(resource.primaryKey, false), rows, ordered)
  }

  /** The page asked for, of exactly the wanted rows, in the order asked for. */
  ghost predicate IsRequestedPage(e: Engine, resource: ResourceSpec, q: Request, table: seq<Row>, result: seq<Row>) {
    && q.pageSize >= 0 && q.page * q.pageSize >= 0
    && exists ordered ::
         && InRequestedOrder(e, resource, q, Chosen(table, WantedBy(e, resource, q), |table|), ordered)
         && result == Slice(ordered, q.pageSize, q.page * q.pageSize)
  }

  function BuiltParams(resource: ResourceSpec, q: Request): seq<Param> {
    WhereOf(resource, q).params + [Count(q.pageSize), Count(q.page * q.pageSize)]
  }

  /** A result of the query the builder composes for the request. */
  ghost predicate BuiltAnswers(e: Engine, resource: ResourceSpec, q: Request, table: seq<Row>, result: seq<Row>) {
    Answers(e, Query(WhereOf(resource, q).clauses, SortOf(resource, q)), BuiltParams(resource, q), table, result)
  }

  lemma {:induction false} ChosenAlike(table: seq<Row>, p: Row -> bool, q: Row -> bool, n: nat)
    requires n <= |table| && forall row :: p(row) <==> q(row)
    ensures Chosen(table, p, n) == Chosen(table, q, n)
  {
    if n > 0 {
      ChosenAlike(table, p, q, n - 1);
    }
  }

  /**
   Over any table, the built query with its parameters bound by position returns exactly the requested
   pages: every result it can give is one, and every requested page is a result it can give.
   */
  lemma {:induction false} ListQueryMeansRequest(
    e: Engine, resource: ResourceSpec, q: Request, table: seq<Row>, result: seq<Row>)
    ensures BuiltAnswers(e, resource, q, table, result) <==> IsRequestedPage(e, resource, q, table, result)
  {
    SelectedAreWanted(e, resource, q, table);
    OrderIsRequested(e, resource, q);
  }

  lemma {:induction false} OrderIsRequested(e: Engine, resource: ResourceSpec, q: Request)
    ensures forall rows, ordered ::
      Orders(e, SortOf(resource, q), rows, ordered) <==> InRequestedOrder(e, resource, q, rows, ordered)
  {
  }

  /**
   What a request with a sort gets is sorted: no row without that column comes before one with it, and of two with it
   the earlier is not the larger, or not the smaller when descending is asked for.
   */
  lemma {:induction false} ListIsSorted(
    e: Engine, resource: ResourceSpec, q: Request, table: seq<Row>, result: seq<Row>, i: nat, j: nat)
    requires q.sort.Some? && BuiltAnswers(e, resource, q, table, result) && i < j < |result|
    ensures var column := q.sort.value.column;
      column in result[j] ==>
        && column in result[i]
        && (q.sort.value.ascending ==> e.compare(result[i][column], result[j][column]) <= 0)
        && (!q.sort.value.ascending ==> e.compare(result[i][column], result[j][column]) >= 0)
  {
    ListQueryMeansRequest(e, resource, q, table, result);
    var ordered :| InRequestedOrder(e, resource, q, Chosen(table, WantedBy(e, resource, q), |table|), ordered)
                   && result == Slice(ordered, q.pageSize, q.page * q.pageSize);
    SliceKeepsOrder(e, q.sort.value, ordered, q.pageSize, q.page * q.pageSize, i, j);
  }

  lemma {:induction false} SliceKeepsOrder(
    e: Engine, order: Sort, ordered: seq<Row>, limit: nat, offset: nat, i: nat, j: nat)
    requires forall a, b :: 0 <= a < b < |ordered| ==> MayPrecede(e, order, ordered[a], ordered[b])
    requires i < j < |Slice(ordered, limit, offset)|
    ensures var page := Slice(ordered, limit, offset); MayPrecede(e, order, page[i], page[j])
  {
    var start := Min(offset, |ordered|);
    assert Slice(ordered, limit, offset)[i] == ordered[start + i];
    assert Slice(ordered, limit, offset)[j] == ordered[start + j];
  }

  /** The rows the built query counts and sorts are the wanted ones. */
  lemma {:induction false} SelectedAreWanted(e: Engine, resource: ResourceSpec, q: Request, table: seq<Row>)
    ensures var w, params := WhereOf(resource, q), BuiltParams(resource, q);
      && Balanced(w) && |params| == |w.params| + 2 && params[..|w.params|] == w.params
      && Chosen(table, SelectedBy(e, Where(w.clauses, params[..|w.params|])), |table|)
         == Chosen(table, WantedBy(e, resource, q), |table|)
  {
    var w := WhereOf(resource, q);
    var params := BuiltParams(resource, q);
    forall row ensures Balanced(w) && (Selects(e, w, row) <==> Wanted(e, resource, q, row)) {
      WhereMeansRequest(e, resource, q, row);
    }
    WhereMeansRequest(e, resource, q, map[]);
    assert params[..|w.params|] == w.params;
    ChosenAlike(table, SelectedBy(e, w), WantedBy(e, resource, q), |table|);
    assert Chosen(table, SelectedBy(e, Where(w.clauses, params[..|w.params|])), |table|)
        == Chosen(table, WantedBy(e, resource, q), |table|);
  }

  // ---- paging ----

  /** Pages 0 to k - 1 one after the other. */
  function Pages(ordered: seq<Row>, size: nat, k: nat): seq<Row> {
    if k == 0 then [] else Pages(ordered, size, k - 1) + Slice(ordered, size, (k - 1) * size)
  }

  /** Nothing is lost or repeated: the first k pages are the first k * size rows, in the end all of them. */
  lemma {:induction false} PagesConcatenate(ordered: seq<Row>, size: nat, k: nat)
    ensures Pages(ordered, size, k) == ordered[..Min(k * size, |ordered|)]
    ensures k * size >= |ordered| ==> Pages(ordered, size, k) == ordered
  {
    if k > 0 {
      PagesConcatenate(ordered, size, k - 1);
      assert k * size == (k - 1) * size + size;
      var lo, hi := Min((k - 1) * size, |ordered|), Min(k * size, |ordered|);
      assert ordered[..lo] + ordered[lo..hi] == ordered[..hi];
    }
  }

  /** Beside the rows: every one carries the count of all matching rows, and an answer without rows reports zero. */
  ghost predicate BuiltAnswersWithTotal(
    e: Engine, resource: ResourceSpec, q: Request, table: seq<Row>, result: seq<Row>, total: nat)
  {
    var w := WhereOf(resource, q);
    && BuiltAnswers(e, resource, q, table, result)
    && Balanced(w)
    && total == if result == [] then 0 else |Chosen(table, SelectedBy(e, w), |table|)|
  }

  /**
   The total a list request reports is the number of wanted rows exactly when there are none or the page asked
   for is not past the last of them.
   */
  lemma {:induction false} TotalIsRightIff(
    e: Engine, resource: ResourceSpec, q: Request, table: seq<Row>, result: seq<Row>, total: nat)
    requires BuiltAnswersWithTotal(e, resource, q, table, result, total)
    ensures var wanted := |Chosen(table, WantedBy(e, resource, q), |table|)|;
      total == wanted <==> wanted == 0 || (q.pageSize > 0 && q.page * q.pageSize < wanted)
  {
    var wanted := Chosen(table, WantedBy(e, resource, q), |table|);
    SelectedAreWanted(e, resource, q, table);
    ListQueryMeansRequest(e, resource, q, table, result);
    var ordered :| Orders(e, SortOf(resource, q), wanted, ordered)
                   && result == Slice(ordered, q.pageSize, q.page * q.pageSize);
    assert |ordered| == |multiset(ordered)| == |multiset(wanted)| == |wanted|;
    assert result == [] <==> wanted == [] || q.pageSize == 0 || q.page * q.pageSize >= |wanted|;
  }

  // ---- writes ----

  datatype WriteError = Unwritable(unknown: set<string>) | Missing(missing: seq<string>)

  /** A JSON body: its keys are distinct. */
  type Body = seq<(string, Option<Value>)>

  ghost predicate DistinctKeys(body: Body) {
    forall i, j :: 0 <= i < j < |body| ==> body[i].0 != body[j].0
  }

  predicate Writable(resource: ResourceSpec, column: string) {
    exists k :: 0 <= k < |resource.columns| && resource.columns[k].name == column && resource.columns[k].writable
  }

  predicate Has(body: Body, column: string) {
    exists k :: 0 <= k < |body| && body[k].0 == column
  }

  /** The fields of the first n that are unknown or read-only. */
  function UnwritableTo(resource: ResourceSpec, body: Body, n: nat): (columns: set<string>)
    requires n <= |body|
    ensures forall c :: c in columns <==> exists k :: 0 <= k < n && body[k].0 == c && !Writable(resource, c)
  {
    if n == 0 then {}
    else UnwritableTo(resource, body, n - 1) + if Writable(resource, body[n - 1].0) then {} else {body[n - 1].0}
  }

  /** The required columns among the first n that the body lacks, in declared order. */
  function MissingTo(resource: ResourceSpec, body: Body, n: nat): seq<string>
    requires n <= |resource.columns|
  {
    if n == 0 then []
    else
      var column := resource.columns[n - 1];
      MissingTo(resource, body, n - 1) + if column.required && !Has(body, column.name) then [column.name] else []
  }

  lemma {:induction false} MissingNothingIff(resource: ResourceSpec, body: Body, n: nat)
    requires n <= |resource.columns|
    ensures MissingTo(resource, body, n) == [] <==>
      forall k :: 0 <= k < n && resource.columns[k].required ==> Has(body, resource.columns[k].name)
  {
    if n > 0 {
      MissingNothingIff(resource, body, n - 1);
    }
  }

  /**
   Unknown and read-only fields are refused, all of them named; failing that, a create is refused that lacks
   required fields, all of them named in declared order; nothing else is.
   */
  method ValidateWrite(resource: ResourceSpec, body: Body, isCreate: bool) returns (error: Option<WriteError>)
    ensures error.None? <==>
      && (forall k :: 0 <= k < |body| ==> Writable(resource, body[k].0))
      && (isCreate ==> forall k :: 0 <= k < |resource.columns| && resource.columns[k].required ==>
            Has(body, resource.columns[k].name))
    ensures error.Some? && error.value.Unwritable? ==>
      && error.value.unknown != {}
      && forall c :: c in error.value.unknown <==> Has(body, c) && !Writable(resource, c)
    ensures error.Some? && error.value.Missing? ==>
      && isCreate && (forall k :: 0 <= k < |body| ==> Writable(resource, body[k].0))
      && error.value.missing == MissingTo(resource, body, |resource.columns|) != []
  {
    var unknown: set<string> := {};
    for k := 0 to |body|
      invariant unknown == UnwritableTo(resource, body, k)
    {
      if !Writable(resource, body[k].0) {
        unknown := unknown + {body[k].0};
      }
    }
    if unknown != {} {
      return Some(Unwritable(unknown));
    }
    assert forall k :: 0 <= k < |body| && !Writable(resource, body[k].0) ==> body[k].0 in unknown;
    if isCreate {
      var missing: seq<string> := [];
      for k := 0 to |resource.columns|
        invariant missing == MissingTo(resource, body, k)
      {
        var column := resource.columns[k];
        if column.required && !Has(body, column.name) {
          missing := missing + [column.name];
        }
      }
      MissingNothingIff(resource, body, |resource.columns|);
      if missing != [] {
        return Some(Missing(missing));
      }
    }
    error := None;
  }

  /** The column list of a built insert or update; its k-th placeholder is the k-th column's. */
  function ColumnList(body: Body): seq<string> {
    seq(|body|, k requires 0 <= k < |body| => body[k].0)
  }

  function ValueList(body: Body): seq<Option<Value>> {
    seq(|body|, k requires 0 <= k < |body| => body[k].1)
  }

  function SetCell(row: Row, column: string, v: Option<Value>): Row {
    if v.Some? then row[column := v.value] else row - {column}
  }

  /** `SET c0 = %s, c1 = %s, ...` for the first n columns, bound by position. */
  function SetCells(row: Row, columns: seq<string>, params: seq<Option<Value>>, n: nat): Row
    requires n <= |columns| && n <= |params|
  {
    if n == 0 then row else SetCell(SetCells(row, columns, params, n - 1), columns[n - 1], params[n - 1])
  }

  /** `UPDATE ... SET ... WHERE pk = %s`: the id is the last parameter. */
  function RunUpdate(table: seq<Row>, primaryKey: string, columns: seq<string>, params: seq<Option<Value>>): seq<Row>
    requires |params| == |columns| + 1
  {
    seq(|table|, i requires 0 <= i < |table| =>
      if params[|columns|].Some? && Cell(table[i], primaryKey) == params[|columns|]
      then SetCells(table[i], columns, params, |columns|) else table[i])
  }

  /** `INSERT INTO ... (cols) VALUES (...)`: columns not listed keep the table's defaults. */
  function RunInsert(table: seq<Row>, defaults: Row, columns: seq<string>, params: seq<Option<Value>>): seq<Row>
    requires |params| == |columns|
  {
    table + [SetCells(defaults, columns, params, |columns|)]
  }

  lemma {:induction false} SetCellsExactly(row: Row, body: Body, params: seq<Option<Value>>, n: nat, column: string)
    requires DistinctKeys(body) && n <= |body| <= |params| && params[..|body|] == ValueList(body)
    ensures var after := SetCells(row, ColumnList(body), params, n);
      && (forall k :: 0 <= k < n && body[k].0 == column ==> Cell(after, column) == body[k].1)
      && ((forall k :: 0 <= k < n ==> body[k].0 != column) ==> Cell(after, column) == Cell(row, column))
  {
    if n > 0 {
      SetCellsExactly(row, body, params, n - 1, column);
      assert params[n - 1] == params[..|body|][n - 1];
    }
  }

  /**
   A built update changes exactly the given columns, each to its own given value, on exactly the rows with
   that primary key; everything else, and the number of rows, stays.
   */
  lemma {:induction false} UpdateChangesExactly(table: seq<Row>, primaryKey: string, body: Body,
      id: Option<Value>, i: nat, column: string)
    requires DistinctKeys(body) && i < |table|
    ensures var after := RunUpdate(table, primaryKey, ColumnList(body), ValueList(body) + [id]);
      && |after| == |table|
      && var addressed := id.Some? && Cell(table[i], primaryKey) == id;
         && (forall k :: 0 <= k < |body| && addressed && body[k].0 == column ==> Cell(after[i], column) == body[k].1)
         && (!addressed || !Has(body, column) ==> Cell(after[i], column) == Cell(table[i], column))
  {
    var params := ValueList(body) + [id];
    assert params[..|body|] == ValueList(body);
    SetCellsExactly(table[i], body, params, |body|, column);
  }

  /** A built insert adds one row holding exactly the given values over the defaults, and touches no other. */
  lemma {:induction false} InsertAddsExactly(table: seq<Row>, defaults: Row, body: Body, column: string)
    requires DistinctKeys(body)
    ensures var after := RunInsert(table, defaults, ColumnList(body), ValueList(body));
      && |after| == |table| + 1 && after[..|table|] == table
      && (forall k :: 0 <= k < |body| && body[k].0 == column ==> Cell(after[|table|], column) == body[k].1)
      && (!Has(body, column) ==> Cell(after[|table|], column) == Cell(defaults, column))
  {
    assert ValueList(body)[..|body|] == ValueList(body);
    SetCellsExactly(defaults, body, ValueList(body), |body|, column);
  }
}
