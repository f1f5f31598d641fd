/**
 The list query means what the request says: two-valued conditions on rows, without placeholders.
 */
module QueryMeaning {
  import opened Std
  import opened QueryBuilder

  // ---- what a request asks of a row ----

  /** Some searchable column contains the term. */
  ghost predicate Found(e: Engine, resource: ResourceSpec, search: string, row: Row) {
    exists k :: 0 <= k < |resource.searchable| && resource.searchable[k] in row
                && e.ilike(row[resource.searchable[k]], Text("%" + search + "%"))
  }

  /** The cell is present and equals the value read as the column's type. */
  predicate CellEquals(e: Engine, resource: ResourceSpec, column: string, row: Row, v: Option<Value>) {
    v.Some? && column in row && e.compare(row[column], e.cast(CastFor(resource, column), v.value)) == 0
  }

  /** A scalar filter wants that value, a list filter any of its values; null matches nothing. */
  ghost predicate Satisfies(e: Engine, resource: ResourceSpec, row: Row, f: Filter) {
    match f.wanted
    case One(v) => CellEquals(e, resource, f.column, row, v)
    case Many(vs) => exists k :: 0 <= k < |vs| && CellEquals(e, resource, f.column, row, vs[k])
  }

  predicate Within(e: Engine, resource: ResourceSpec, row: Row, r: Range) {
    && (r.from.Some? ==>
          r.column in row && e.compare(row[r.column], e.cast(CastFor(resource, r.column), r.from.value)) >= 0)
    && (r.to.Some? ==>
          r.column in row && e.compare(row[r.column], e.cast(CastFor(resource, r.column), r.to.value)) <= 0)
  }

  ghost predicate Wanted(e: Engine, resource: ResourceSpec, q: Request, row: Row) {
    && (q.search != "" && resource.searchable != [] ==> Found(e, resource, q.search, row))
    && (forall k :: 0 <= k < |q.filters| ==> Satisfies(e, resource, row, q.filters[k]))
    && (forall k :: 0 <= k < |q.ranges| ==> Within(e, resource, row, q.ranges[k]))
  }

  // ---- binding by position ----

  /** One parameter per placeholder. */
  ghost predicate Balanced(w: Where) {
    |w.params| == SlotsTo(w.clauses, |w.clauses|)
  }

  ghost predicate Selects(e: Engine, w: Where, row: Row)
    requires Balanced(w)
  {
    EvalAnd(e, w.clauses, w.params, row, |w.clauses|) == True
  }

  lemma {:induction false} SlotsPrefix(clauses: seq<Clause>, clause: Clause, n: nat)
    requires n <= |clauses|
    ensures SlotsTo(clauses + [clause], n) == SlotsTo(clauses, n)
    ensures SlotsTo(clauses, n) <= SlotsTo(clauses, |clauses|)
    decreases |clauses| + n
  {
    if n > 0 {
      SlotsPrefix(clauses, clause, n - 1);
    }
    SlotsMonotone(clauses, n, |clauses|);
  }

  lemma {:induction false} SlotsMonotone(clauses: seq<Clause>, m: nat, n: nat)
    requires m <= n <= |clauses|
    ensures SlotsTo(clauses, m) <= SlotsTo(clauses, n)
  {
    if m < n {
      SlotsMonotone(clauses, m, n - 1);
    }
  }

  lemma {:induction false} EvalOrBinding(
    e: Engine, atoms: seq<Atom>, a: seq<Param>, i: nat, b: seq<Param>, j: nat, row: Row, n: nat)
    requires n <= |atoms| && i + n <= |a| && j + n <= |b|
    requires forall k :: i <= k < i + n ==> a[k] == b[k - i + j]
    ensures EvalOr(e, atoms, a, i, row, n) == EvalOr(e, atoms, b, j, row, n)
  {
    if n > 0 {
      EvalOrBinding(e, atoms, a, i, b, j, row, n - 1);
    }
  }

  /** A clause sees its own parameters, wherever in the list they start. */
  lemma {:induction false} ClauseBinding(e: Engine, clause: Clause, a: seq<Param>, i: nat, b: seq<Param>, j: nat,
      row: Row)
    requires i + Slots(clause) <= |a| && j + Slots(clause) <= |b|
    requires forall k :: i <= k < i + Slots(clause) ==> a[k] == b[k - i + j]
    ensures EvalClause(e, clause, a, i, row) == EvalClause(e, clause, b, j, row)
  {
    if clause.AnyOf? {
      EvalOrBinding(e, clause.atoms, a, i, b, j, row, |clause.atoms|);
    }
  }

  /** Clauses and parameters appended later do not disturb earlier ones. */
  lemma {:induction false} EarlierClausesKeep(
    e: Engine, w: Where, clause: Clause, params: seq<Param>, row: Row, n: nat)
    requires Balanced(w) && n <= |w.clauses|
    requires SlotsTo(w.clauses, n) <= |w.params| && SlotsTo(w.clauses + [clause], n) <= |w.params + params|
    ensures EvalAnd(e, w.clauses + [clause], w.params + params, row, n) == EvalAnd(e, w.clauses, w.params, row, n)
  {
    if n > 0 {
      SlotsPrefix(w.clauses, clause, n - 1);
      EarlierClausesKeep(e, w, clause, params, row, n - 1);
      SlotsMonotone(w.clauses, n, |w.clauses|);
      ClauseBinding(e, w.clauses[n - 1], w.params + params, SlotsTo(w.clauses, n - 1),
                    w.params, SlotsTo(w.clauses, n - 1), row);
    }
  }

  /** Appending a clause with its parameters adds exactly that condition. */
  lemma {:induction false} AddedMeans(e: Engine, w: Where, clause: Clause, params: seq<Param>, row: Row)
    requires Balanced(w) && |params| == Slots(clause)
    ensures Balanced(Added(w, clause, params))
    ensures Selects(e, Added(w, clause, params), row) <==>
      Selects(e, w, row) && EvalClause(e, clause, params, 0, row) == True
  {
    var n := |w.clauses|;
    SlotsPrefix(w.clauses, clause, n);
    EarlierClausesKeep(e, w, clause, params, row, n);
    ClauseBinding(e, clause, w.params + params, |w.params|, params, 0, row);
    assert (w.clauses + [clause])[n] == clause;
  }

  // ---- each kind of clause ----

  lemma {:induction false} EqualsSomeMeans(
    e: Engine, cell: Option<Value>, cast: string, values: seq<Option<Value>>, n: nat)
    requires n <= |values|
    ensures EqualsSome(e, cell, cast, values, n) == True <==>
      exists k :: 0 <= k < n && cell.Some? && values[k].Some?
                  && e.compare(cell.value, e.cast(cast, values[k].value)) == 0
  {
    if n > 0 {
      EqualsSomeMeans(e, cell, cast, values, n - 1);
    }
  }

  lemma {:induction false} SearchOrMeans(e: Engine, columns: seq<string>, search: string, row: Row, n: nat)
    requires n <= |columns|
    ensures var atoms := seq(|columns|, k requires 0 <= k < |columns| => ILike(columns[k]));
      var params := seq(|columns|, _ => SearchTerm(search));
      EvalOr(e, atoms, params, 0, row, n) == True <==>
        exists k :: 0 <= k < n && columns[k] in row && e.ilike(row[columns[k]], Text("%" + search + "%"))
  {
    if n > 0 {
      SearchOrMeans(e, columns, search, row, n - 1);
    }
  }

  lemma {:induction false} SearchMeans(e: Engine, resource: ResourceSpec, search: string, row: Row)
    ensures var w := WithSearch(resource, search);
      && Balanced(w)
      && (Selects(e, w, row) <==>
            (search != "" && resource.searchable != [] ==> Found(e, resource, search, row)))
  {
    if search != "" && resource.searchable != [] {
      var columns := resource.searchable;
      var n := |columns|;
      var clause := AnyOf(seq(n, k requires 0 <= k < n => ILike(columns[k])));
      var params := seq(n, _ => SearchTerm(search));
      AddedMeans(e, Where([], []), clause, params, row);
      SearchOrMeans(e, columns, search, row, n);
    }
  }

  lemma {:induction false} FilterMeans(e: Engine, resource: ResourceSpec, w: Where, f: Filter, row: Row)
    requires Balanced(w)
    ensures Balanced(WithFilter(resource, w, f))
    ensures Selects(e, WithFilter(resource, w, f), row) <==> Selects(e, w, row) && Satisfies(e, resource, row, f)
  {
    var cast := CastFor(resource, f.column);
    match f.wanted {
      case One(v) => AddedMeans(e, w, Only(Equals(f.column, cast)), [Scalar(v)], row);
      case Many(vs) =>
        AddedMeans(e, w, Only(EqualsAny(f.column, cast)), [Array(vs)], row);
        EqualsSomeMeans(e, Cell(row, f.column), cast, vs, |vs|);
        assert Satisfies(e, resource, row, f) <==>
          exists k :: 0 <= k < |vs| && CellEquals(e, resource, f.column, row, vs[k]);
    }
  }

  lemma {:induction false} RangeMeans(e: Engine, resource: ResourceSpec, w: Where, r: Range, row: Row)
    requires Balanced(w)
    ensures Balanced(WithRange(resource, w, r))
    ensures Selects(e, WithRange(resource, w, r), row) <==> Selects(e, w, row) && Within(e, resource, row, r)
  {
    var cast := CastFor(resource, r.column);
    var lower := w;
    if r.from.Some? {
      lower := Added(w, Only(AtLeast(r.column, cast)), [Scalar(r.from)]);
      AddedMeans(e, w, Only(AtLeast(r.column, cast)), [Scalar(r.from)], row);
    }
    if r.to.Some? {
      AddedMeans(e, lower, Only(AtMost(r.column, cast)), [Scalar(r.to)], row);
    }
  }

  lemma {:induction false} FiltersMean(
    e: Engine, resource: ResourceSpec, w: Where, filters: seq<Filter>, n: nat, row: Row)
    requires Balanced(w) && n <= |filters|
    ensures Balanced(WithFilters(resource, w, filters, n))
    ensures Selects(e, WithFilters(resource, w, filters, n), row) <==>
      Selects(e, w, row) && forall k :: 0 <= k < n ==> Satisfies(e, resource, row, filters[k])
  {
    if n > 0 {
      FiltersMean(e, resource, w, filters, n - 1, row);
      var before := WithFilters(resource, w, filters, n - 1);
      FilterMeans(e, resource, before, filters[n - 1], row);
      assert WithFilters(resource, w, filters, n) == WithFilter(resource, before, filters[n - 1]);
    }
  }

  lemma {:induction false} RangesMean(
    e: Engine, resource: ResourceSpec, w: Where, ranges: seq<Range>, n: nat, row: Row)
    requires Balanced(w) && n <= |ranges|
    ensures Balanced(WithRanges(resource, w, ranges, n))
    ensures Selects(e, WithRanges(resource, w, ranges, n), row) <==>
      Selects(e, w, row) && forall k :: 0 <= k < n ==> Within(e, resource, row, ranges[k])
  {
    if n > 0 {
      RangesMean(e, resource, w, ranges, n - 1, row);
      RangeMeans(e, resource, WithRanges(resource, w, ranges, n - 1), ranges[n - 1], row);
    }
  }

  /**
   The built WHERE clause, under three-valued logic with its parameters bound by position, is true of
   exactly the rows the request wants; and there is one parameter for every placeholder.
   */
  lemma {:induction false} WhereMeansRequest(e: Engine, resource: ResourceSpec, q: Request, row: Row)
    ensures Balanced(WhereOf(resource, q))
    ensures Selects(e, WhereOf(resource, q), row) <==> Wanted(e, resource, q, row)
  {
    var searched := WithSearch(resource, q.search);
    SearchMeans(e, resource, q.search, row);
    FiltersMean(e, resource, searched, q.filters, |q.filters|, row);
    RangesMean(e, resource, WithFilters(resource, searched, q.filters, |q.filters|), q.ranges, |q.ranges|, row);
  }
}
