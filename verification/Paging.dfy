/**
 Paging through a list. Every page is a query of its own, sorted by one column with no tie-break, so rows that
 tie may come in a different order each time (admin_api/db/query_builder.py).
 */
module Paging {
  import opened Std
  import opened QueryBuilder
  import opened QueryMeaning
  import opened QueryResults

  /** Neither must come before the other. */
  predicate Tied(e: Engine, order: Sort, a: Row, b: Row) {
    MayPrecede(e, order, a, b) && MayPrecede(e, order, b, a)
  }

  ghost function WantedRows(e: Engine, resource: ResourceSpec, q: Request, table: seq<Row>): seq<Row> {
    Chosen(table, WantedBy(e, resource, q), |table|)
  }

  /** The k-th of the results is one the built query can give for page k of that size. */
  ghost predicate AreAnswers(
    e: Engine, resource: ResourceSpec, q: Request, size: nat, table: seq<Row>, pages: seq<seq<Row>>)
  {
    forall k :: 0 <= k < |pages| ==> BuiltAnswers(e, resource, q.(page := k, pageSize := size), table, pages[k])
  }

  function Concat(pages: seq<seq<Row>>, k: nat): seq<Row>
    requires k <= |pages|
  {
    if k == 0 then [] else Concat(pages, k - 1) + pages[k - 1]
  }

  /** Enough pages to hold every wanted row. */
  ghost predicate Covers(e: Engine, resource: ResourceSpec, q: Request, size: nat, table: seq<Row>,
      pages: seq<seq<Row>>) {
    AreAnswers(e, resource, q, size, table, pages) && |pages| * size >= |WantedRows(e, resource, q, table)|
  }

  /** No row lost, none repeated, whatever the database answers. */
  ghost predicate PagesAreExact(e: Engine, resource: ResourceSpec, q: Request, size: nat, table: seq<Row>) {
    forall pages :: Covers(e, resource, q, size, table, pages) ==>
      multiset(Concat(pages, |pages|)) == multiset(WantedRows(e, resource, q, table))
  }

  // ---- a page of the request ----

  lemma {:induction false} PageIsSlice(
    e: Engine, resource: ResourceSpec, q: Request, size: nat, table: seq<Row>, k: nat, result: seq<Row>)
    ensures BuiltAnswers(e, resource, q.(page := k, pageSize := size), table, result) <==>
      exists ordered ::
        && Orders(e, SortOf(resource, q), WantedRows(e, resource, q, table), ordered)
        && result == Slice(ordered, size, k * size)
  {
    var p := q.(page := k, pageSize := size);
    ListQueryMeansRequest(e, resource, p, table, result);
    ChosenAlike(table, WantedBy(e, resource, p), WantedBy(e, resource, q), |table|);
  }

  lemma {:induction false} OrderingOf(
    e: Engine, resource: ResourceSpec, q: Request, size: nat, table: seq<Row>, k: nat, result: seq<Row>)
    returns (ordered: seq<Row>)
    requires BuiltAnswers(e, resource, q.(page := k, pageSize := size), table, result)
    ensures Orders(e, SortOf(resource, q), WantedRows(e, resource, q, table), ordered)
    ensures result == Slice(ordered, size, k * size)
  {
    PageIsSlice(e, resource, q, size, table, k, result);
    ordered :| Orders(e, SortOf(resource, q), WantedRows(e, resource, q, table), ordered)
               && result == Slice(ordered, size, k * size);
  }

  lemma {:induction false} OrdersLength(e: Engine, order: Sort, rows: seq<Row>, ordered: seq<Row>)
    requires Orders(e, order, rows, ordered)
    ensures |ordered| == |rows| && forall i :: 0 <= i < |ordered| ==> ordered[i] in rows
  {
    assert |multiset(ordered)| == |multiset(rows)|;
    forall i | 0 <= i < |ordered| ensures ordered[i] in rows {
      assert ordered[i] in multiset(ordered);
    }
  }

  // ---- where a page may differ ----

  /** In some ordering two different rows that tie lie on different pages. */
  ghost predicate Straddles(e: Engine, order: Sort, rows: seq<Row>, size: nat)
    requires size > 0
  {
    exists ordered, i, j ::
      && Orders(e, order, rows, ordered)
      && 0 <= i < j < |ordered| && ordered[i] != ordered[j] && Tied(e, order, ordered[i], ordered[j])
      && i / size != j / size
  }

  lemma {:induction false} OnPage(i: nat, size: nat, k: nat)
    requires size > 0
    ensures i / size == k <==> k * size <= i < k * size + size
    ensures i < k * size <==> i / size < k
  {
    var q, r := i / size, i % size;
    assert i == q * size + r && 0 <= r < size;
    if q < k {
      assert q * size + size <= k * size by { Scales(q + 1, k, size); }
    } else {
      assert k * size <= q * size by { Scales(k, q, size); }
      if q > k {
        assert k * size + size <= q * size by { Scales(k + 1, q, size); }
      }
    }
  }

  lemma {:induction false} Scales(a: nat, b: nat, size: nat)
    requires a <= b
    ensures a * size <= b * size
  {
  }

  lemma {:induction false} WithinAndAsMany<T>(a: multiset<T>, b: multiset<T>)
    requires a <= b && |a| == |b|
    ensures a == b
  {
    assert b == a + (b - a);
  }

  lemma {:induction false} MoreOfSome<T>(a: multiset<T>, b: multiset<T>) returns (x: T)
    requires |a| == |b| && a != b
    ensures a[x] > b[x]
  {
    if a <= b {
      WithinAndAsMany(a, b);
    }
    x :| a[x] > b[x];
  }

  lemma {:induction false} SplitAt(s: seq<Row>, b: nat)
    requires b <= |s|
    ensures multiset(s) == multiset(s[..b]) + multiset(s[b..])
  {
    assert s == s[..b] + s[b..];
  }

  /** What one ordering has more of before b, another has somewhere after. */
  lemma {:induction false} EarlierAndLater(o: seq<Row>, p: seq<Row>, b: nat, x: Row) returns (i: nat, j: nat)
    requires multiset(o) == multiset(p) && b <= |o| && b <= |p| && multiset(o[..b])[x] > multiset(p[..b])[x]
    ensures i < b && o[i] == x
    ensures b <= j < |p| && p[j] == x
  {
    SplitAt(o, b);
    SplitAt(p, b);
    assert multiset(p[b..])[x] == multiset(p)[x] - multiset(p[..b])[x] > multiset(o[b..])[x] >= 0;
    assert x in multiset(o[..b]) && x in multiset(p[b..]);
    assert x in o[..b] && x in p[b..];
    i :| i < b && o[..b][i] == x;
    var k :| 0 <= k < |p[b..]| && p[b..][k] == x;
    j := b + k;
  }

  /** Where two orderings have different rows before b, two rows tie across b. */
  lemma {:induction false} DifferBefore(e: Engine, order: Sort, rows: seq<Row>, b: nat, o: seq<Row>, p: seq<Row>)
    returns (i: nat, j: nat)
    requires Orders(e, order, rows, o) && Orders(e, order, rows, p)
    requires b <= |o| && b <= |p| && multiset(o[..b]) != multiset(p[..b])
    ensures i < b <= j < |o| && o[i] != o[j] && Tied(e, order, o[i], o[j])
  {
    var x := MoreOfSome(multiset(o[..b]), multiset(p[..b]));
    var y := MoreOfSome(multiset(p[..b]), multiset(o[..b]));
    var pj, pi;
    i, pj := EarlierAndLater(o, p, b, x);
    pi, j := EarlierAndLater(p, o, b, y);
    assert MayPrecede(e, order, o[i], o[j]) && MayPrecede(e, order, p[pi], p[pj]);
  }

  /** Unless ties straddle pages, all orderings have the same rows before each page. */
  lemma {:induction false} SameRowsBefore(
    e: Engine, order: Sort, rows: seq<Row>, size: nat, k: nat, o: seq<Row>, p: seq<Row>)
    requires size > 0 && Orders(e, order, rows, o) && Orders(e, order, rows, p)
    ensures |o| == |p| == |rows|
    ensures var b := Min(k * size, |o|);
      !Straddles(e, order, rows, size) ==> multiset(o[..b]) == multiset(p[..b])
  {
    OrdersLength(e, order, rows, o);
    OrdersLength(e, order, rows, p);
    var b := Min(k * size, |o|);
    if multiset(o[..b]) != multiset(p[..b]) {
      var i, j := DifferBefore(e, order, rows, b, o, p);
      OnPage(i, size, k);
      OnPage(j, size, k);
      assert i / size < k <= j / size;
      assert Straddles(e, order, rows, size);
    }
  }

  lemma {:induction false} SliceExtends(o: seq<Row>, size: nat, k: nat)
    ensures o[..Min(k * size, |o|)] + Slice(o, size, k * size) == o[..Min((k + 1) * size, |o|)]
  {
    assert (k + 1) * size == k * size + size;
  }

  lemma {:induction false} Together(a: seq<Row>, b: seq<Row>)
    ensures multiset(a + b) == multiset(a) + multiset(b)
  {
  }

  /** The rows are those of the ordering's first k pages. */
  ghost predicate HoldsPages(rows: seq<Row>, o: seq<Row>, size: nat, k: nat) {
    multiset(rows) == multiset(o[..Min(k * size, |o|)])
  }

  lemma {:induction false} NoPagesYet(o: seq<Row>, size: nat)
    ensures HoldsPages([], o, size, 0)
  {
    assert 0 * size == 0 && o[..0] == [];
  }

  lemma {:induction false} OneMorePage(p: seq<Row>, size: nat, k: nat, earlier: seq<Row>)
    requires HoldsPages(earlier, p, size, k)
    ensures HoldsPages(earlier + Slice(p, size, k * size), p, size, k + 1)
  {
    SliceExtends(p, size, k);
    Together(earlier, Slice(p, size, k * size));
    Together(p[..Min(k * size, |p|)], Slice(p, size, k * size));
  }

  lemma {:induction false} OtherOrdering(
    e: Engine, order: Sort, rows: seq<Row>, size: nat, k: nat, o: seq<Row>, p: seq<Row>, held: seq<Row>)
    requires size > 0 && !Straddles(e, order, rows, size)
    requires Orders(e, order, rows, o) && Orders(e, order, rows, p) && HoldsPages(held, p, size, k)
    ensures HoldsPages(held, o, size, k)
  {
    SameRowsBefore(e, order, rows, size, k, o, p);
  }

  /** A page some ordering of the rows gives. */
  ghost predicate PageOf(e: Engine, order: Sort, rows: seq<Row>, size: nat, k: nat, result: seq<Row>) {
    exists ordered :: Orders(e, order, rows, ordered) && result == Slice(ordered, size, k * size)
  }

  lemma {:induction false} SomeOrdering(e: Engine, order: Sort, rows: seq<Row>, size: nat, k: nat, result: seq<Row>)
    returns (ordered: seq<Row>)
    requires PageOf(e, order, rows, size, k, result)
    ensures Orders(e, order, rows, ordered) && result == Slice(ordered, size, k * size)
  {
    ordered :| Orders(e, order, rows, ordered) && result == Slice(ordered, size, k * size);
  }

  lemma {:induction false} PagesHoldPrefix(
    e: Engine, order: Sort, rows: seq<Row>, size: nat, pages: seq<seq<Row>>, k: nat, o: seq<Row>)
    requires size > 0 && k <= |pages| && !Straddles(e, order, rows, size) && Orders(e, order, rows, o)
    requires forall p :: 0 <= p < |pages| ==> PageOf(e, order, rows, size, p, pages[p])
    ensures HoldsPages(Concat(pages, k), o, size, k)
  {
    if k == 0 {
      NoPagesYet(o, size);
    } else {
      var p := SomeOrdering(e, order, rows, size, k - 1, pages[k - 1]);
      PagesHoldPrefix(e, order, rows, size, pages, k - 1, p);
      OneMorePage(p, size, k - 1, Concat(pages, k - 1));
      OtherOrdering(e, order, rows, size, k, o, p, Concat(pages, k));
    }
  }

  /** Without straddling ties every answer to the pages, together, is every wanted row once. */
  lemma {:induction false} ExactUnlessStraddling(e: Engine, resource: ResourceSpec, q: Request, size: nat,
      table: seq<Row>)
    requires size > 0 && !Straddles(e, SortOf(resource, q), WantedRows(e, resource, q, table), size)
    ensures PagesAreExact(e, resource, q, size, table)
  {
    forall pages | Covers(e, resource, q, size, table, pages)
      ensures multiset(Concat(pages, |pages|)) == multiset(WantedRows(e, resource, q, table))
    {
      if pages == [] {
        assert WantedRows(e, resource, q, table) == [];
      } else {
        CoveringPagesAreExact(e, resource, q, size, table, pages);
      }
    }
  }

  lemma {:induction false} AnswersArePages(e: Engine, resource: ResourceSpec, q: Request, size: nat, table: seq<Row>,
      pages: seq<seq<Row>>, k: nat)
    requires k < |pages| && AreAnswers(e, resource, q, size, table, pages)
    ensures PageOf(e, SortOf(resource, q), WantedRows(e, resource, q, table), size, k, pages[k])
  {
    var p := OrderingOf(e, resource, q, size, table, k, pages[k]);
  }

  lemma {:induction false} CoveringPagesAreExact(e: Engine, resource: ResourceSpec, q: Request, size: nat,
      table: seq<Row>, pages: seq<seq<Row>>)
    requires size > 0 && !Straddles(e, SortOf(resource, q), WantedRows(e, resource, q, table), size)
    requires Covers(e, resource, q, size, table, pages) && pages != []
    ensures multiset(Concat(pages, |pages|)) == multiset(WantedRows(e, resource, q, table))
  {
    var order, rows := SortOf(resource, q), WantedRows(e, resource, q, table);
    forall k | 0 <= k < |pages| ensures PageOf(e, order, rows, size, k, pages[k]) {
      AnswersArePages(e, resource, q, size, table, pages, k);
    }
    EnoughPagesAreExact(e, order, rows, size, pages);
  }

  lemma {:induction false} EnoughPagesAreExact(e: Engine, order: Sort, rows: seq<Row>, size: nat, pages: seq<seq<Row>>)
    requires size > 0 && !Straddles(e, order, rows, size) && pages != [] && |pages| * size >= |rows|
    requires forall k :: 0 <= k < |pages| ==> PageOf(e, order, rows, size, k, pages[k])
    ensures multiset(Concat(pages, |pages|)) == multiset(rows)
  {
    var o := SomeOrdering(e, order, rows, size, 0, pages[0]);
    OrdersLength(e, order, rows, o);
    PagesHoldPrefix(e, order, rows, size, pages, |pages|, o);
    assert o[..|o|] == o;
  }

  // ---- two orderings that differ by a swap ----

  /** What a database sorts by: any two values compare, consistently. */
  ghost predicate ComparesConsistently(e: Engine) {
    && (forall a, b :: e.compare(a, b) <= 0 <==> e.compare(b, a) >= 0)
    && (forall a, b :: e.compare(a, b) <= 0 || e.compare(b, a) <= 0)
    && (forall a, b, c :: e.compare(a, b) <= 0 && e.compare(b, c) <= 0 ==> e.compare(a, c) <= 0)
  }

  lemma {:induction false} PrecedenceIsTransitive(e: Engine, order: Sort, a: Row, b: Row, c: Row)
    requires ComparesConsistently(e) && MayPrecede(e, order, a, b) && MayPrecede(e, order, b, c)
    ensures MayPrecede(e, order, a, c)
  {
    if order.column in c {
      var x, y, z := a[order.column], b[order.column], c[order.column];
      assert e.compare(x, y) <= 0 && e.compare(y, z) <= 0 ==> e.compare(x, z) <= 0;
      assert e.compare(z, y) <= 0 && e.compare(y, x) <= 0 ==> e.compare(z, x) <= 0;
    }
  }

  lemma {:induction false} PrecedenceIsTotal(e: Engine, order: Sort, a: Row, b: Row)
    requires ComparesConsistently(e)
    ensures MayPrecede(e, order, a, b) || MayPrecede(e, order, b, a)
  {
    if order.column in a && order.column in b {
      assert e.compare(a[order.column], b[order.column]) <= 0 || e.compare(b[order.column], a[order.column]) <= 0;
    }
  }

  function Swapped(s: seq<Row>, i: nat, j: nat): seq<Row>
    requires i < j < |s|
  {
    s[i := s[j]][j := s[i]]
  }

  /** Swapping two rows that tie gives another ordering of the same rows. */
  lemma {:induction false} SwapKeepsOrder(e: Engine, order: Sort, rows: seq<Row>, o: seq<Row>, i: nat, j: nat)
    requires ComparesConsistently(e) && Orders(e, order, rows, o)
    requires i < j < |o| && Tied(e, order, o[i], o[j])
    ensures Orders(e, order, rows, Swapped(o, i, j))
  {
    var s := Swapped(o, i, j);
    assert multiset(s) == multiset(o);
    forall a, b | 0 <= a < b < |s| ensures MayPrecede(e, order, s[a], s[b]) {
      // each of the two swapped rows ties with what stood in its place
      var a0, b0 := o[a], o[b];
      assert MayPrecede(e, order, a0, b0);
      assert s[a] != a0 ==> MayPrecede(e, order, s[a], a0);
      assert s[b] != b0 ==> MayPrecede(e, order, b0, s[b]);
      if s[a] != a0 {
        PrecedenceIsTransitive(e, order, s[a], a0, b0);
      }
      if s[b] != b0 {
        PrecedenceIsTransitive(e, order, s[a], b0, s[b]);
      }
    }
  }

  /** Page k of one ordering with row j replaced is page k of another ordering or of itself. */
  lemma {:induction false} SwappedSlice(o: seq<Row>, i: nat, j: nat, size: nat, k: nat)
    requires size > 0 && i < j < |o| && i / size != j / size
    ensures Slice(o[j := o[i]], size, k * size) == Slice(if k == j / size then Swapped(o, i, j) else o, size, k * size)
  {
    OnPage(i, size, k);
    OnPage(j, size, k);
  }

  /** Pages of one ordering, except that the later of two tied rows has been replaced by the earlier. */
  lemma {:induction false} MixedPagesAreAnswers(
    e: Engine, resource: ResourceSpec, q: Request, size: nat, table: seq<Row>, o: seq<Row>, i: nat, j: nat,
    pages: seq<seq<Row>>)
    requires size > 0 && ComparesConsistently(e)
    requires Orders(e, SortOf(resource, q), WantedRows(e, resource, q, table), o)
    requires i < j < |o| && Tied(e, SortOf(resource, q), o[i], o[j]) && i / size != j / size
    requires forall k :: 0 <= k < |pages| ==> pages[k] == Slice(o[j := o[i]], size, k * size)
    ensures AreAnswers(e, resource, q, size, table, pages)
  {
    SwapKeepsOrder(e, SortOf(resource, q), WantedRows(e, resource, q, table), o, i, j);
    forall k | 0 <= k < |pages|
      ensures BuiltAnswers(e, resource, q.(page := k, pageSize := size), table, pages[k])
    {
      SwappedSlice(o, i, j, size, k);
      PageIsSlice(e, resource, q, size, table, k, pages[k]);
    }
  }

  lemma {:induction false} ReplacedDiffers(o: seq<Row>, i: nat, j: nat)
    requires i < j < |o| && o[i] != o[j]
    ensures multiset(o[j := o[i]]) != multiset(o)
  {
    assert multiset(o[j := o[i]])[o[j]] == multiset(o)[o[j]] - 1;
  }

  /** Where ties straddle, some answers repeat one of the two rows and lose the other. */
  lemma {:induction false} StraddlingLosesRows(e: Engine, resource: ResourceSpec, q: Request, size: nat,
      table: seq<Row>)
    requires size > 0 && ComparesConsistently(e)
    requires Straddles(e, SortOf(resource, q), WantedRows(e, resource, q, table), size)
    ensures !PagesAreExact(e, resource, q, size, table)
  {
    var order, rows := SortOf(resource, q), WantedRows(e, resource, q, table);
    var o, i, j :| Orders(e, order, rows, o)
      && 0 <= i < j < |o| && o[i] != o[j] && Tied(e, order, o[i], o[j]) && i / size != j / size;
    OrdersLength(e, order, rows, o);
    var pages := MixedPages(o[j := o[i]], size);
    MixedPagesAreAnswers(e, resource, q, size, table, o, i, j, pages);
    MixedConcat(o[j := o[i]], size, pages);
    assert Covers(e, resource, q, size, table, pages);
    assert multiset(Concat(pages, |pages|)) != multiset(rows) by {
      ReplacedDiffers(o, i, j);
    }
  }

  /** That list cut into pages, as many as it has rows. */
  function MixedPages(mixed: seq<Row>, size: nat): seq<seq<Row>> {
    seq(|mixed|, k requires 0 <= k < |mixed| => Slice(mixed, size, k * size))
  }

  /** As many slices as there are rows hold them all. */
  lemma {:induction false} MixedConcat(mixed: seq<Row>, size: nat, pages: seq<seq<Row>>)
    requires size > 0 && |pages| == |mixed|
    requires forall k :: 0 <= k < |pages| ==> pages[k] == Slice(mixed, size, k * size)
    ensures Concat(pages, |pages|) == mixed && |pages| * size >= |mixed|
  {
    ConcatOfSlices(mixed, size, pages, |pages|);
    assert |pages| * size >= |pages| by {
      Scales(1, size, |pages|);
    }
    PagesConcatenate(mixed, size, |pages|);
  }

  lemma {:induction false} ConcatOfSlices(s: seq<Row>, size: nat, pages: seq<seq<Row>>, k: nat)
    requires k <= |pages| && forall p :: 0 <= p < |pages| ==> pages[p] == Slice(s, size, p * size)
    ensures Concat(pages, k) == Pages(s, size, k)
  {
    if k > 0 {
      ConcatOfSlices(s, size, pages, k - 1);
    }
  }

  /**
   For a page size: whatever the database answers, the pages together are every wanted row once, exactly when
   in no ordering do two different rows that tie lie on different pages.
   */
  lemma {:induction false} PagesAreExactIff(e: Engine, resource: ResourceSpec, q: Request, size: nat, table: seq<Row>)
    requires size > 0 && ComparesConsistently(e)
    ensures PagesAreExact(e, resource, q, size, table) <==>
      !Straddles(e, SortOf(resource, q), WantedRows(e, resource, q, table), size)
  {
    if Straddles(e, SortOf(resource, q), WantedRows(e, resource, q, table), size) {
      StraddlingLosesRows(e, resource, q, size, table);
    } else {
      ExactUnlessStraddling(e, resource, q, size, table);
    }
  }

  // ---- for every page size ----

  /** No two different wanted rows tie under the sort. */
  ghost predicate NoTies(e: Engine, order: Sort, rows: seq<Row>) {
    forall a, b :: a in rows && b in rows && a != b ==> !Tied(e, order, a, b)
  }

  lemma {:induction false} Sorted(e: Engine, order: Sort, rows: seq<Row>) returns (o: seq<Row>)
    requires ComparesConsistently(e)
    ensures Orders(e, order, rows, o)
  {
    o := [];
    for n := 0 to |rows|
      invariant Orders(e, order, rows[..n], o)
    {
      o := Inserted(e, order, o, rows[n]);
      assert rows[..n + 1] == rows[..n] + [rows[n]];
    }
    assert rows[..|rows|] == rows;
  }

  lemma {:induction false} Inserted(e: Engine, order: Sort, s: seq<Row>, row: Row) returns (o: seq<Row>)
    requires ComparesConsistently(e) && forall i, j :: 0 <= i < j < |s| ==> MayPrecede(e, order, s[i], s[j])
    ensures multiset(o) == multiset(s) + multiset{row}
    ensures forall i, j :: 0 <= i < j < |o| ==> MayPrecede(e, order, o[i], o[j])
    decreases |s|
  {
    if s == [] {
      o := [row];
    } else {
      var before, last := s[..|s| - 1], s[|s| - 1];
      assert s == before + [last];
      if MayPrecede(e, order, last, row) {
        o := s + [row];
        forall i | 0 <= i < |s| ensures MayPrecede(e, order, s[i], row) {
          if i < |s| - 1 {
            PrecedenceIsTransitive(e, order, s[i], last, row);
          }
        }
      } else {
        PrecedenceIsTotal(e, order, last, row);
        var inner := Inserted(e, order, before, row);
        o := inner + [last];
        forall i | 0 <= i < |inner| ensures MayPrecede(e, order, inner[i], last) {
          assert inner[i] in multiset(inner);
          assert inner[i] in before || inner[i] == row;
        }
      }
    }
  }

  lemma {:induction false} NoTiesNoStraddling(e: Engine, order: Sort, rows: seq<Row>, size: nat)
    requires size > 0 && NoTies(e, order, rows)
    ensures !Straddles(e, order, rows, size)
  {
    forall o, i, j | Orders(e, order, rows, o) && 0 <= i < j < |o| && o[i] != o[j]
      ensures !Tied(e, order, o[i], o[j])
    {
      OrdersLength(e, order, rows, o);
    }
  }

  lemma {:induction false} TiesStraddlePagesOfOne(e: Engine, order: Sort, rows: seq<Row>)
    requires ComparesConsistently(e) && !NoTies(e, order, rows)
    ensures Straddles(e, order, rows, 1)
  {
    var a, b :| a in rows && b in rows && a != b && Tied(e, order, a, b);
    var o := Sorted(e, order, rows);
    assert a in multiset(rows) && b in multiset(rows);
    var i :| 0 <= i < |o| && o[i] == a;
    var j :| 0 <= j < |o| && o[j] == b;
    var lo, hi := Min(i, j), Max(i, j);
    assert lo / 1 != hi / 1 && o[lo] != o[hi] && Tied(e, order, o[lo], o[hi]);
  }

  /**
   Paging is exact for every page size exactly when no two different wanted rows tie under the sort.
   */
  lemma {:induction false} PagingIsExactIff(e: Engine, resource: ResourceSpec, q: Request, table: seq<Row>)
    requires ComparesConsistently(e)
    ensures (forall size: nat :: size > 0 ==> PagesAreExact(e, resource, q, size, table)) <==>
      NoTies(e, SortOf(resource, q), WantedRows(e, resource, q, table))
  {
    var order, rows := SortOf(resource, q), WantedRows(e, resource, q, table);
    if NoTies(e, order, rows) {
      forall size: nat | size > 0 ensures PagesAreExact(e, resource, q, size, table) {
        NoTiesNoStraddling(e, order, rows, size);
        ExactUnlessStraddling(e, resource, q, size, table);
      }
    } else {
      TiesStraddlePagesOfOne(e, order, rows);
      StraddlingLosesRows(e, resource, q, 1, table);
    }
  }

  lemma {:induction false} LastOfMultiset(s: seq<Row>, k: nat)
    requires |s| == k + 1
    ensures multiset(s) - multiset(s[..k]) == multiset{s[k]}
  {
    assert s == s[..k] + [s[k]];
  }

  lemma {:induction false} SameNext(o: seq<Row>, p: seq<Row>, k: nat)
    requires k < |o| == |p|
    requires multiset(o[..k]) == multiset(p[..k]) && multiset(o[..k + 1]) == multiset(p[..k + 1])
    ensures o[k] == p[k]
  {
    LastOfMultiset(o[..k + 1], k);
    LastOfMultiset(p[..k + 1], k);
    assert o[..k + 1][..k] == o[..k] && p[..k + 1][..k] == p[..k];
    assert o[k] in multiset{p[k]};
  }

  lemma {:induction false} SamePrefix(e: Engine, order: Sort, rows: seq<Row>, b: nat, o: seq<Row>, p: seq<Row>)
    requires NoTies(e, order, rows) && Orders(e, order, rows, o) && Orders(e, order, rows, p)
    requires b <= |o| && b <= |p|
    ensures multiset(o[..b]) == multiset(p[..b])
  {
    if multiset(o[..b]) != multiset(p[..b]) {
      var i, j := DifferBefore(e, order, rows, b, o, p);
      OrdersLength(e, order, rows, o);
    }
  }

  /** Without ties there is one ordering, and the pages are it. */
  lemma {:induction false} OnlyOneOrdering(e: Engine, order: Sort, rows: seq<Row>, o: seq<Row>, p: seq<Row>)
    requires NoTies(e, order, rows) && Orders(e, order, rows, o) && Orders(e, order, rows, p)
    ensures o == p
  {
    OrdersLength(e, order, rows, o);
    OrdersLength(e, order, rows, p);
    forall k | 0 <= k < |o| ensures o[k] == p[k] {
      SamePrefix(e, order, rows, k, o, p);
      SamePrefix(e, order, rows, k + 1, o, p);
      SameNext(o, p, k);
    }
  }

  lemma {:induction false} PageOfOnlyOrdering(e: Engine, order: Sort, rows: seq<Row>, size: nat, k: nat,
      page: seq<Row>, o: seq<Row>)
    requires NoTies(e, order, rows) && Orders(e, order, rows, o) && PageOf(e, order, rows, size, k, page)
    ensures page == Slice(o, size, k * size)
  {
    var p := SomeOrdering(e, order, rows, size, k, page);
    OnlyOneOrdering(e, order, rows, o, p);
  }

  lemma {:induction false} OnlyPagesConcatenate(e: Engine, order: Sort, rows: seq<Row>, size: nat,
      pages: seq<seq<Row>>, o: seq<Row>)
    requires NoTies(e, order, rows) && Orders(e, order, rows, o) && |pages| * size >= |rows|
    requires forall k :: 0 <= k < |pages| ==> PageOf(e, order, rows, size, k, pages[k])
    ensures Concat(pages, |pages|) == o
  {
    forall k | 0 <= k < |pages| ensures pages[k] == Slice(o, size, k * size) {
      PageOfOnlyOrdering(e, order, rows, size, k, pages[k], o);
    }
    OrdersLength(e, order, rows, o);
    ConcatOfSlices(o, size, pages, |pages|);
    PagesConcatenate(o, size, |pages|);
  }

  /** Then any answers to the pages concatenate to the wanted rows in the order asked for. */
  lemma {:induction false} PagesComeInOrder(
    e: Engine, resource: ResourceSpec, q: Request, size: nat, table: seq<Row>, pages: seq<seq<Row>>)
    requires NoTies(e, SortOf(resource, q), WantedRows(e, resource, q, table))
    requires Covers(e, resource, q, size, table, pages) && pages != []
    ensures Orders(e, SortOf(resource, q), WantedRows(e, resource, q, table), Concat(pages, |pages|))
  {
    var order, rows := SortOf(resource, q), WantedRows(e, resource, q, table);
    forall k | 0 <= k < |pages| ensures PageOf(e, order, rows, size, k, pages[k]) {
      AnswersArePages(e, resource, q, size, table, pages, k);
    }
    var o := SomeOrdering(e, order, rows, size, 0, pages[0]);
    OnlyPagesConcatenate(e, order, rows, size, pages, o);
  }

  // ---- two rows made at the same moment ----

  const NUMBERS := Engine(
    (a: Value, b: Value) => false, (t: string, v: Value) => v,
    (a: Value, b: Value) =>
      if a.Number? && b.Number? then (if a.number < b.number then -1 else if a.number > b.number then 1 else 0) else 0)
  const ORDERS := ResourceSpec("orders", "id", [], [], [], [], Some(Sort("created_at", false)))
  const ALL := Request(0, 1, None, "", [], [])
  const FIRST: Row := map["id" := Number(1.0), "created_at" := Number(9.0)]
  const SECOND: Row := map["id" := Number(2.0), "created_at" := Number(9.0)]

  lemma {:induction false} BothWanted()
    ensures WantedRows(NUMBERS, ORDERS, ALL, [FIRST, SECOND]) == [FIRST, SECOND]
  {
    var wanted, table := WantedBy(NUMBERS, ORDERS, ALL), [FIRST, SECOND];
    assert Chosen(table, wanted, 0) == [];
    assert Chosen(table, wanted, 1) == [FIRST];
  }

  lemma {:induction false} EitherOrder(e: Engine, order: Sort, a: Row, b: Row)
    requires Tied(e, order, a, b)
    ensures Orders(e, order, [a, b], [a, b]) && Orders(e, order, [a, b], [b, a])
  {
    assert multiset([b, a]) == multiset([a, b]);
  }

  lemma {:induction false} FirstOnEitherPage(k: nat)
    requires k < 2
    ensures BuiltAnswers(NUMBERS, ORDERS, ALL.(page := k, pageSize := 1), [FIRST, SECOND], [FIRST])
  {
    var table, order := [FIRST, SECOND], SortOf(ORDERS, ALL);
    var ordered := if k == 0 then [FIRST, SECOND] else [SECOND, FIRST];
    BothWanted();
    EitherOrder(NUMBERS, order, FIRST, SECOND);
    assert k * 1 == k && Slice(ordered, 1, k) == [FIRST];
    PageIsSlice(NUMBERS, ORDERS, ALL, 1, table, k, [FIRST]);
  }

  /** One by one, a list of two rows made at the same moment can show the first twice and the second never. */
  lemma {:induction false} TiedRowCanRepeat()
    ensures AreAnswers(NUMBERS, ORDERS, ALL, 1, [FIRST, SECOND], [[FIRST], [FIRST]])
    ensures FIRST != SECOND && WantedRows(NUMBERS, ORDERS, ALL, [FIRST, SECOND]) == [FIRST, SECOND]
  {
    assert FIRST["id"] != SECOND["id"];
    BothWanted();
    FirstOnEitherPage(0);
    FirstOnEitherPage(1);
  }
}
