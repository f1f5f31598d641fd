/**
 Resolving category slugs to ids, descendants included, over any parent relation
 (app/db/repositories/catalog_repo.py).
 */
module CategoryTree {
  import opened Std

  datatype Category = Category(id: int, slug: Option<string>, parentId: Option<int>)

  /** The row's slug is one of those asked for, letter case aside. */
  predicate IsRoot(row: Category, slugs: seq<string>, lower: string -> string) {
    row.slug.Some? && row.slug.value != "" && exists k :: 0 <= k < |slugs| && lower(slugs[k]) == lower(row.slug.value)
  }

  ghost predicate RootId(rows: seq<Category>, slugs: seq<string>, lower: string -> string, id: int) {
    exists r :: r in rows && r.id == id && IsRoot(r, slugs, lower)
  }

  ghost predicate ChildOf(rows: seq<Category>, parent: int, child: int) {
    exists r :: r in rows && r.id == child && r.parentId == Some(parent)
  }

  /** A chain of categories, each a child of the one before, starting at a root. */
  ghost predicate Chain(rows: seq<Category>, slugs: seq<string>, lower: string -> string, path: seq<int>) {
    && path != [] && RootId(rows, slugs, lower, path[0])
    && forall i :: 0 < i < |path| ==> ChildOf(rows, path[i - 1], path[i])
  }

  ghost predicate Reachable(rows: seq<Category>, slugs: seq<string>, lower: string -> string, id: int) {
    exists path :: Chain(rows, slugs, lower, path) && path[|path| - 1] == id
  }

  /** Ids of the roots among the first n rows, in row order. */
  function Roots(rows: seq<Category>, slugs: seq<string>, lower: string -> string, n: nat): (ids: seq<int>)
    requires n <= |rows|
    ensures forall id :: id in ids <==> exists i :: 0 <= i < n && rows[i].id == id && IsRoot(rows[i], slugs, lower)
  {
    if n == 0 then []
    else
      Roots(rows, slugs, lower, n - 1) + if IsRoot(rows[n - 1], slugs, lower) then [rows[n - 1].id] else []
  }

  /** Ids of the children of a category among the first n rows. */
  function Children(rows: seq<Category>, parent: int, n: nat): (ids: seq<int>)
    requires n <= |rows|
    ensures forall id :: id in ids <==> exists i :: 0 <= i < n && rows[i].id == id && rows[i].parentId == Some(parent)
  {
    if n == 0 then []
    else Children(rows, parent, n - 1) + if rows[n - 1].parentId == Some(parent) then [rows[n - 1].id] else []
  }

  lemma {:induction false} ChainEndsReachable(rows: seq<Category>, slugs: seq<string>, lower: string -> string,
    parent: int, child: int)
    requires Reachable(rows, slugs, lower, parent) && ChildOf(rows, parent, child)
    ensures Reachable(rows, slugs, lower, child)
  {
    var path :| Chain(rows, slugs, lower, path) && path[|path| - 1] == parent;
    var longer := path + [child];
    assert Chain(rows, slugs, lower, longer) && longer[|longer| - 1] == child;
  }

  lemma {:induction false} RootsReachable(rows: seq<Category>, slugs: seq<string>, lower: string -> string, id: int)
    requires RootId(rows, slugs, lower, id)
    ensures Reachable(rows, slugs, lower, id)
  {
    assert Chain(rows, slugs, lower, [id]) && [id][|[id]| - 1] == id;
  }

  /** A category whose slug was asked for is found; how the slugs asked for are cased makes no difference. */
  lemma {:induction false} CaseIsIgnored(rows: seq<Category>, slugs: seq<string>, others: seq<string>,
    lower: string -> string, id: int)
    requires |slugs| == |others| && forall k :: 0 <= k < |slugs| ==> lower(slugs[k]) == lower(others[k])
    ensures Reachable(rows, slugs, lower, id) <==> Reachable(rows, others, lower, id)
    ensures (exists r :: r in rows && r.id == id && r.slug.Some? && r.slug.value != "" && r.slug.value in slugs) ==>
      Reachable(rows, slugs, lower, id)
  {
    SameRoots(rows, slugs, others, lower);
    SameRoots(rows, others, slugs, lower);
    if r :| r in rows && r.id == id && r.slug.Some? && r.slug.value != "" && r.slug.value in slugs {
      assert IsRoot(r, slugs, lower);
      RootsReachable(rows, slugs, lower, id);
    }
    if path :| Chain(rows, slugs, lower, path) && path[|path| - 1] == id {
      assert Chain(rows, others, lower, path);
    }
    if path :| Chain(rows, others, lower, path) && path[|path| - 1] == id {
      assert Chain(rows, slugs, lower, path);
    }
  }

  lemma {:induction false} SameRoots(rows: seq<Category>, slugs: seq<string>, others: seq<string>,
    lower: string -> string)
    requires |slugs| == |others| && forall k :: 0 <= k < |slugs| ==> lower(slugs[k]) == lower(others[k])
    ensures forall id :: RootId(rows, slugs, lower, id) ==> RootId(rows, others, lower, id)
  {
    forall id | RootId(rows, slugs, lower, id) ensures RootId(rows, others, lower, id) {
      var r :| r in rows && r.id == id && IsRoot(r, slugs, lower);
      var k :| 0 <= k < |slugs| && lower(slugs[k]) == lower(r.slug.value);
      assert lower(others[k]) == lower(r.slug.value);
    }
  }

  /** A set that holds the roots and every child of its members holds everything reachable. */
  lemma {:induction false} ClosedHoldsChain(rows: seq<Category>, slugs: seq<string>, lower: string -> string,
    closed: set<int>, path: seq<int>, n: nat)
    requires forall id :: RootId(rows, slugs, lower, id) ==> id in closed
    requires forall p, c :: p in closed && ChildOf(rows, p, c) ==> c in closed
    requires Chain(rows, slugs, lower, path) && n < |path|
    ensures path[n] in closed
  {
    if n > 0 {
      ClosedHoldsChain(rows, slugs, lower, closed, path, n - 1);
    }
  }

  /** A reachable id that has a row. */
  ghost predicate Wanted(rows: seq<Category>, slugs: seq<string>, lower: string -> string, id: int) {
    Reachable(rows, slugs, lower, id) && exists r :: r in rows && r.id == id
  }

  /** Every id collected or waiting is a reachable row, roots are not lost, and no child of a collected id is. */
  ghost predicate OnTheWay(rows: seq<Category>, slugs: seq<string>, lower: string -> string,
    collected: set<int>, stack: seq<int>)
  {
    && (forall id :: id in collected || id in stack ==> Wanted(rows, slugs, lower, id))
    && (forall id :: RootId(rows, slugs, lower, id) ==> id in collected || id in stack)
    && (forall p, c :: p in collected && ChildOf(rows, p, c) ==> c in collected || c in stack)
  }

  lemma {:induction false} RootsOnTheWay(rows: seq<Category>, slugs: seq<string>, lower: string -> string)
    ensures OnTheWay(rows, slugs, lower, {}, Roots(rows, slugs, lower, |rows|))
  {
    var stack := Roots(rows, slugs, lower, |rows|);
    forall id | RootId(rows, slugs, lower, id) ensures id in stack {
      var i :| 0 <= i < |rows| && rows[i].id == id && IsRoot(rows[i], slugs, lower);
    }
    forall id | id in stack ensures Wanted(rows, slugs, lower, id) {
      var i :| 0 <= i < |rows| && rows[i].id == id && IsRoot(rows[i], slugs, lower);
      assert rows[i] in rows;
      RootsReachable(rows, slugs, lower, id);
    }
  }

  /** Popping an id already collected loses nothing. */
  lemma {:induction false} PopSeen(rows: seq<Category>, slugs: seq<string>, lower: string -> string,
    collected: set<int>, stack: seq<int>, cid: int)
    requires OnTheWay(rows, slugs, lower, collected, stack + [cid]) && cid in collected
    ensures OnTheWay(rows, slugs, lower, collected, stack)
  {
    forall id | id in stack ensures id in stack + [cid] {
    }
  }

  /** Collecting a popped id and pushing its children keeps everything in sight. */
  lemma {:induction false} PopNew(rows: seq<Category>, slugs: seq<string>, lower: string -> string,
    collected: set<int>, stack: seq<int>, cid: int)
    requires OnTheWay(rows, slugs, lower, collected, stack + [cid])
    ensures OnTheWay(rows, slugs, lower, collected + {cid}, stack + Children(rows, cid, |rows|))
    ensures cid in AllIds(rows)
  {
    var before, after, children := stack + [cid], stack + Children(rows, cid, |rows|), Children(rows, cid, |rows|);
    assert cid in before;
    assert Wanted(rows, slugs, lower, cid);
    forall id | id in collected + {cid} || id in after ensures Wanted(rows, slugs, lower, id) {
      if id in children {
        ChildWanted(rows, slugs, lower, cid, id);
      } else {
        assert id in collected || id in before;
      }
    }
    forall id | RootId(rows, slugs, lower, id) ensures id in collected + {cid} || id in after {
      assert id in collected || id in before;
    }
    forall p, c | p in collected + {cid} && ChildOf(rows, p, c) ensures c in collected + {cid} || c in after {
      if p == cid {
        ChildListed(rows, cid, c);
      } else {
        assert c in collected || c in before;
      }
    }
  }

  lemma {:induction false} ChildListed(rows: seq<Category>, parent: int, child: int)
    ensures child in Children(rows, parent, |rows|) <==> ChildOf(rows, parent, child)
  {
    if ChildOf(rows, parent, child) {
      var r :| r in rows && r.id == child && r.parentId == Some(parent);
      var i :| 0 <= i < |rows| && rows[i] == r;
    }
    if child in Children(rows, parent, |rows|) {
      var i :| 0 <= i < |rows| && rows[i].id == child && rows[i].parentId == Some(parent);
      assert rows[i] in rows;
    }
  }

  lemma {:induction false} ChildWanted(rows: seq<Category>, slugs: seq<string>, lower: string -> string,
      parent: int, child: int)
    requires Reachable(rows, slugs, lower, parent) && child in Children(rows, parent, |rows|)
    ensures Wanted(rows, slugs, lower, child)
  {
    ChildListed(rows, parent, child);
    ChainEndsReachable(rows, slugs, lower, parent, child);
  }

  ghost function AllIds(rows: seq<Category>): set<int> {
    set r | r in rows :: r.id
  }

  /** Each collected id once. */
  ghost predicate Lists(ids: seq<int>, collected: set<int>) {
    && (forall id :: id in ids <==> id in collected)
    && (forall i, j :: 0 <= i < j < |ids| ==> ids[i] != ids[j])
  }

  lemma {:induction false} ListsOneMore(ids: seq<int>, collected: set<int>, cid: int)
    requires Lists(ids, collected) && cid !in collected
    ensures Lists(ids + [cid], collected + {cid})
  {
  }

  lemma {:induction false} LastSplitOff(s: seq<int>)
    requires s != []
    ensures s[..|s| - 1] + [s[|s| - 1]] == s
  {
  }

  /** With nothing waiting, the collected ids are exactly the reachable ones. */
  lemma {:induction false} DoneIsReachable(rows: seq<Category>, slugs: seq<string>, lower: string -> string,
      collected: set<int>, id: int)
    requires OnTheWay(rows, slugs, lower, collected, [])
    ensures id in collected <==> Reachable(rows, slugs, lower, id)
  {
    if Reachable(rows, slugs, lower, id) {
      var path :| Chain(rows, slugs, lower, path) && path[|path| - 1] == id;
      ClosedHoldsChain(rows, slugs, lower, collected, path, |path| - 1);
    }
  }

  /**
   Terminates on any parent relation, cycles included, and returns without duplicates exactly the ids
   reachable from the slug-matched roots.
   */
  method ResolveCategoryIds(rows: seq<Category>, slugs: seq<string>, lower: string -> string) returns (ids: seq<int>)
    ensures forall i, j :: 0 <= i < j < |ids| ==> ids[i] != ids[j]
    ensures forall id :: id in ids <==> Reachable(rows, slugs, lower, id)
  {
    var stack := Roots(rows, slugs, lower, |rows|);
    var collected: set<int> := {};
    ids := [];
    RootsOnTheWay(rows, slugs, lower);
    while stack != []
      invariant OnTheWay(rows, slugs, lower, collected, stack)
      invariant Lists(ids, collected)
      decreases AllIds(rows) - collected, |stack|
    {
      var cid, rest := stack[|stack| - 1], stack[..|stack| - 1];
      LastSplitOff(stack);
      if cid in collected {
        PopSeen(rows, slugs, lower, collected, rest, cid);
        stack := rest;
        continue;
      }
      PopNew(rows, slugs, lower, collected, rest, cid);
      ListsOneMore(ids, collected, cid);
      assert cid in AllIds(rows) - collected;
      collected := collected + {cid};
      ids := ids + [cid];
      stack := rest + Children(rows, cid, |rows|);
    }
    forall id ensures id in ids <==> Reachable(rows, slugs, lower, id) {
      DoneIsReachable(rows, slugs, lower, collected, id);
    }
  }
}
