/**
 Merging the structured and the semantic search results, and deciding on the web fallback
 (app/search/hybrid_search.py). The searches themselves are arbitrary inputs.
 */
module HybridSearch {
  import opened Std

  datatype Source = SqlFilter | Semantic | Both

  datatype Kind = Product | GiftBox

  datatype Key = Key(kind: Kind, id: int)

  /** `details` stands for the name, price, images and the other fields a merge copies as they are. */
  datatype Hit = Hit(kind: Kind, id: int, details: string, source: Source, score: Option<real>) {
    function GetKey(): Key { Key(kind, id) }
  }

  // ---- what the merge should hold, stated per key ----

  function Keys(hits: seq<Hit>): seq<Key> {
    seq(|hits|, i requires 0 <= i < |hits| => hits[i].GetKey())
  }

  /** Distinct keys among the first n, in order of first appearance. */
  function FirstsTo(keys: seq<Key>, n: nat): seq<Key>
    requires n <= |keys|
  {
    if n == 0 then []
    else
      var before := FirstsTo(keys, n - 1);
      if keys[n - 1] in before then before else before + [keys[n - 1]]
  }

  function Occurrences(hits: seq<Hit>, key: Key, n: nat): nat
    requires n <= |hits|
  {
    if n == 0 then 0 else Occurrences(hits, key, n - 1) + if hits[n - 1].GetKey() == key then 1 else 0
  }

  function FirstOf(hits: seq<Hit>, key: Key, n: nat): (first: Option<Hit>)
    requires n <= |hits|
    ensures first.Some? <==> Occurrences(hits, key, n) > 0
    ensures first.Some? ==> first.value.GetKey() == key && first.value in hits
  {
    if n == 0 then None
    else
      var earlier := FirstOf(hits, key, n - 1);
      if earlier.None? && hits[n - 1].GetKey() == key then Some(hits[n - 1]) else earlier
  }

  function LastOf(hits: seq<Hit>, key: Key, n: nat): (last: Option<Hit>)
    requires n <= |hits|
    ensures last.Some? <==> Occurrences(hits, key, n) > 0
    ensures last.Some? ==> last.value.GetKey() == key && last.value in hits
  {
    if n == 0 then None
    else if hits[n - 1].GetKey() == key then Some(hits[n - 1])
    else LastOf(hits, key, n - 1)
  }

  /**
   The entry for a key after m catalogue and n semantic hits: the last catalogue hit, else the first
   semantic one; marked as found by both, with the last semantic score, once a semantic hit repeats it.
   */
  function Entry(catalog: seq<Hit>, semantic: seq<Hit>, key: Key, m: nat, n: nat): (entry: Option<Hit>)
    requires m <= |catalog| && n <= |semantic|
    ensures entry.Some? ==> entry.value.GetKey() == key
  {
    var listed := LastOf(catalog, key, m);
    var base := if listed.Some? then listed else FirstOf(semantic, key, n);
    if base.Some? && Occurrences(semantic, key, n) >= (if listed.Some? then 1 else 2)
    then Some(base.value.(source := Both, score := LastOf(semantic, key, n).value.score))
    else base
  }

  lemma {:induction false} FoundIffOccurs(hits: seq<Hit>, key: Key, n: nat)
    requires n <= |hits|
    ensures Occurrences(hits, key, n) > 0 <==> key in Keys(hits)[..n]
  {
    if n > 0 {
      FoundIffOccurs(hits, key, n - 1);
      assert Keys(hits)[..n] == Keys(hits)[..n - 1] + [hits[n - 1].GetKey()];
    }
  }

  // ---- the merge ----

  /** A dict with the order its keys came in. */
  datatype Dict = Dict(order: seq<Key>, byKey: map<Key, Hit>) {
    ghost predicate Valid() {
      (forall k :: k in byKey <==> k in order) && forall k :: k in byKey ==> byKey[k].GetKey() == k
    }

    function Put(hit: Hit): (d: Dict)
      requires Valid()
      ensures d.Valid()
    {
      Dict(if hit.GetKey() in byKey then order else order + [hit.GetKey()], byKey[hit.GetKey() := hit])
    }

    function Values(): seq<Hit>
      requires Valid()
    {
      seq(|order|, i requires 0 <= i < |order| => byKey[order[i]])
    }
  }

  /** What a semantic hit is stored as: itself, or its score on the entry already there. */
  function Seen(before: Option<Hit>, hit: Hit): Hit {
    if before.Some? then before.value.(source := Both, score := hit.score) else hit
  }

  function Lookup(d: Dict, key: Key): Option<Hit> {
    if key in d.byKey then Some(d.byKey[key]) else None
  }

  function Upgraded(d: Dict, hit: Hit): Hit {
    Seen(Lookup(d, hit.GetKey()), hit)
  }

  function FromCatalog(catalog: seq<Hit>, m: nat): (d: Dict)
    requires m <= |catalog|
    ensures d.Valid()
  {
    if m == 0 then Dict([], map[]) else FromCatalog(catalog, m - 1).Put(catalog[m - 1])
  }

  function WithSemantic(catalog: seq<Hit>, semantic: seq<Hit>, n: nat): (d: Dict)
    requires n <= |semantic|
    ensures d.Valid()
  {
    if n == 0 then FromCatalog(catalog, |catalog|)
    else
      var before := WithSemantic(catalog, semantic, n - 1);
      before.Put(Upgraded(before, semantic[n - 1]))
  }

  function Merged(catalog: seq<Hit>, semantic: seq<Hit>): seq<Hit> {
    WithSemantic(catalog, semantic, |semantic|).Values()
  }

  lemma {:induction false} MergedHolds(catalog: seq<Hit>, semantic: seq<Hit>)
    ensures var merged := Merged(catalog, semantic);
      && Keys(merged) == FirstsTo(Keys(catalog) + Keys(semantic), |catalog| + |semantic|)
      && forall i :: 0 <= i < |merged| ==>
           Entry(catalog, semantic, merged[i].GetKey(), |catalog|, |semantic|) == Some(merged[i])
  {
    MergedOrder(catalog, semantic);
    forall i | 0 <= i < |Merged(catalog, semantic)|
      ensures var hit := Merged(catalog, semantic)[i];
        Entry(catalog, semantic, hit.GetKey(), |catalog|, |semantic|) == Some(hit)
    {
      MergedEntry(catalog, semantic, i);
    }
  }

  /** The merge as written: a dict filled from the catalogue, then updated by the semantic hits. */
  method MergeAndDedupe(catalog: seq<Hit>, semantic: seq<Hit>) returns (merged: seq<Hit>)
    ensures merged == Merged(catalog, semantic)
    ensures Keys(merged) == FirstsTo(Keys(catalog) + Keys(semantic), |catalog| + |semantic|)
    ensures forall i :: 0 <= i < |merged| ==>
      Entry(catalog, semantic, merged[i].GetKey(), |catalog|, |semantic|) == Some(merged[i])
  {
    var d := Dict([], map[]);
    for m := 0 to |catalog|
      invariant d == FromCatalog(catalog, m)
    {
      d := d.Put(catalog[m]);
    }
    for n := 0 to |semantic|
      invariant d == WithSemantic(catalog, semantic, n)
    {
      var hit := semantic[n];
      if hit.GetKey() in d.byKey {
        hit := d.byKey[hit.GetKey()].(source := Both, score := hit.score);
      }
      d := d.Put(hit);
    }
    merged := d.Values();
    assert merged == Merged(catalog, semantic);
    MergedHolds(catalog, semantic);
  }

  lemma {:induction false} CatalogEntries(catalog: seq<Hit>, semantic: seq<Hit>, key: Key, m: nat)
    requires m <= |catalog|
    ensures Lookup(FromCatalog(catalog, m), key) == Entry(catalog, semantic, key, m, 0)
  {
    if m > 0 {
      CatalogEntries(catalog, semantic, key, m - 1);
    }
  }

  lemma {:induction false} UpgradedLookup(d: Dict, hit: Hit, key: Key)
    requires d.Valid()
    ensures var before := Lookup(d, key);
      Lookup(d.Put(Upgraded(d, hit)), key) == if hit.GetKey() == key then Some(Seen(before, hit)) else before
  {
  }

  lemma {:induction false} SemanticEntries(catalog: seq<Hit>, semantic: seq<Hit>, key: Key, n: nat)
    requires n <= |semantic|
    ensures Lookup(WithSemantic(catalog, semantic, n), key) == Entry(catalog, semantic, key, |catalog|, n)
  {
    if n == 0 {
      CatalogEntries(catalog, semantic, key, |catalog|);
    } else {
      SemanticEntries(catalog, semantic, key, n - 1);
      var before, hit := WithSemantic(catalog, semantic, n - 1), semantic[n - 1];
      EntryStep(catalog, semantic, key, n - 1);
      UpgradedLookup(before, hit, key);
      assert Lookup(before, key) == Entry(catalog, semantic, key, |catalog|, n - 1);
    }
  }

  lemma {:induction false} CatalogOrder(catalog: seq<Hit>, keys: seq<Key>, m: nat)
    requires m <= |catalog| <= |keys| && forall i :: 0 <= i < |catalog| ==> keys[i] == catalog[i].GetKey()
    ensures FromCatalog(catalog, m).order == FirstsTo(keys, m)
  {
    if m > 0 {
      CatalogOrder(catalog, keys, m - 1);
    }
  }

  lemma {:induction false} SemanticOrder(catalog: seq<Hit>, semantic: seq<Hit>, keys: seq<Key>, n: nat)
    requires n <= |semantic| && |keys| == |catalog| + |semantic|
    requires forall i :: 0 <= i < |catalog| ==> keys[i] == catalog[i].GetKey()
    requires forall i :: 0 <= i < |semantic| ==> keys[|catalog| + i] == semantic[i].GetKey()
    ensures WithSemantic(catalog, semantic, n).order == FirstsTo(keys, |catalog| + n)
  {
    if n == 0 {
      CatalogOrder(catalog, keys, |catalog|);
    } else {
      SemanticOrder(catalog, semantic, keys, n - 1);
      assert keys[|catalog| + (n - 1)] == semantic[n - 1].GetKey();
      UpgradedOrder(WithSemantic(catalog, semantic, n - 1), semantic[n - 1]);
    }
  }

  lemma {:induction false} UpgradedOrder(d: Dict, hit: Hit)
    requires d.Valid()
    ensures d.Put(Upgraded(d, hit)).order == if hit.GetKey() in d.order then d.order else d.order + [hit.GetKey()]
  {
  }

  lemma {:induction false} ValuesOfKey(d: Dict, i: nat)
    requires d.Valid() && i < |d.order|
    ensures Lookup(d, d.order[i]) == Some(d.Values()[i]) && d.Values()[i].GetKey() == d.order[i]
  {
  }

  lemma {:induction false} KeysOfValues(d: Dict)
    requires d.Valid()
    ensures Keys(d.Values()) == d.order
  {
  }

  /** The merged list has each key of either search once, in order of first appearance. */
  lemma {:induction false} MergedOrder(catalog: seq<Hit>, semantic: seq<Hit>)
    ensures Keys(Merged(catalog, semantic)) == FirstsTo(Keys(catalog) + Keys(semantic), |catalog| + |semantic|)
  {
    var d := WithSemantic(catalog, semantic, |semantic|);
    SemanticOrder(catalog, semantic, Keys(catalog) + Keys(semantic), |semantic|);
    KeysOfValues(d);
  }

  /** ... each with the entry the hits call for. */
  lemma {:induction false} MergedEntry(catalog: seq<Hit>, semantic: seq<Hit>, i: nat)
    requires i < |Merged(catalog, semantic)|
    ensures var hit := Merged(catalog, semantic)[i];
      Entry(catalog, semantic, hit.GetKey(), |catalog|, |semantic|) == Some(hit)
  {
    var d := WithSemantic(catalog, semantic, |semantic|);
    ValuesOfKey(d, i);
    SemanticEntries(catalog, semantic, d.order[i], |semantic|);
  }

  /** One more semantic hit: only its own key's entry changes. */
  lemma {:induction false} EntryStep(catalog: seq<Hit>, semantic: seq<Hit>, key: Key, n: nat)
    requires n < |semantic|
    ensures var before := Entry(catalog, semantic, key, |catalog|, n); var hit := semantic[n];
      Entry(catalog, semantic, key, |catalog|, n + 1) == if hit.GetKey() == key then Some(Seen(before, hit)) else before
  {
  }

  // ---- the fallback decision ----

  predicate Strong(hit: Hit, minSimilarity: real) {
    hit.source != Semantic || (hit.score.Some? && hit.score.value >= minSimilarity)
  }

  function StrongTo(merged: seq<Hit>, minSimilarity: real, n: nat): nat
    requires n <= |merged|
  {
    if n == 0 then 0 else StrongTo(merged, minSimilarity, n - 1) + if Strong(merged[n - 1], minSimilarity) then 1 else 0
  }

  function UsesWebFallback(merged: seq<Hit>, minSimilarity: real, minResults: int): bool {
    StrongTo(merged, minSimilarity, |merged|) < minResults
  }

  /** What the two searches hand over: tagged by origin, and no product twice from the vector store. */
  ghost predicate WellTagged(catalog: seq<Hit>, semantic: seq<Hit>) {
    && (forall i :: 0 <= i < |catalog| ==> catalog[i].source == SqlFilter)
    && (forall i :: 0 <= i < |semantic| ==> semantic[i].source == Semantic)
    && (forall i, j :: 0 <= i < j < |semantic| ==> semantic[i].GetKey() != semantic[j].GetKey())
  }

  /** Keys worth showing without the web: in the catalogue results, or semantically close enough. */
  ghost function StrongKeys(catalog: seq<Hit>, semantic: seq<Hit>, minSimilarity: real): set<Key> {
    (set h | h in catalog :: h.GetKey())
    + (set h | h in semantic && h.score.Some? && h.score.value >= minSimilarity :: h.GetKey())
  }

  lemma {:induction false} OccursOnce(hits: seq<Hit>, key: Key, n: nat)
    requires n <= |hits| && forall i, j :: 0 <= i < j < |hits| ==> hits[i].GetKey() != hits[j].GetKey()
    ensures Occurrences(hits, key, n) <= 1
  {
    if n > 0 {
      OccursOnce(hits, key, n - 1);
      FoundIffOccurs(hits, key, n - 1);
      assert forall i :: 0 <= i < n - 1 ==> Keys(hits)[..n - 1][i] == hits[i].GetKey();
    }
  }

  lemma {:induction false} StrongIffStrongKey(catalog: seq<Hit>, semantic: seq<Hit>, minSimilarity: real, hit: Hit)
    requires WellTagged(catalog, semantic)
    requires Entry(catalog, semantic, hit.GetKey(), |catalog|, |semantic|) == Some(hit)
    ensures Strong(hit, minSimilarity) <==> hit.GetKey() in StrongKeys(catalog, semantic, minSimilarity)
  {
    var key := hit.GetKey();
    FoundIffOccurs(catalog, key, |catalog|);
    FoundIffOccurs(semantic, key, |semantic|);
    OccursOnce(semantic, key, |semantic|);
    if LastOf(catalog, key, |catalog|).None? {
      forall h | h in catalog ensures h.GetKey() != key {
        var i :| 0 <= i < |catalog| && catalog[i] == h;
        assert Keys(catalog)[..|catalog|][i] == h.GetKey();
      }
      forall h | h in semantic && h.GetKey() == key ensures h == hit {
        var i :| 0 <= i < |semantic| && semantic[i] == h;
        var j :| 0 <= j < |semantic| && semantic[j] == hit;
      }
    }
  }

  /** Counting by position over distinct keys is the size of the set of counted keys. */
  lemma {:induction false} CountIsSize(merged: seq<Hit>, minSimilarity: real, n: nat)
    requires n <= |merged| && forall i, j :: 0 <= i < j < |merged| ==> merged[i].GetKey() != merged[j].GetKey()
    ensures StrongTo(merged, minSimilarity, n)
      == |set i | 0 <= i < n && Strong(merged[i], minSimilarity) :: merged[i].GetKey()|
  {
    if n > 0 {
      CountIsSize(merged, minSimilarity, n - 1);
      var before := set i | 0 <= i < n - 1 && Strong(merged[i], minSimilarity) :: merged[i].GetKey();
      var after := set i | 0 <= i < n && Strong(merged[i], minSimilarity) :: merged[i].GetKey();
      if Strong(merged[n - 1], minSimilarity) {
        assert after == before + {merged[n - 1].GetKey()};
        assert merged[n - 1].GetKey() !in before;
      } else {
        assert after == before;
      }
    }
  }

  /**
   The web is asked exactly when fewer than the wanted number of distinct items came from the catalogue
   or were similar enough; an item found both ways counts once.
   */
  lemma {:induction false} FallbackIffFewStrongKeys(
    catalog: seq<Hit>, semantic: seq<Hit>, minSimilarity: real, minResults: int)
    requires WellTagged(catalog, semantic)
    ensures UsesWebFallback(Merged(catalog, semantic), minSimilarity, minResults) <==>
      |StrongKeys(catalog, semantic, minSimilarity)| < minResults
  {
    var merged := Merged(catalog, semantic);
    var counted := set i | 0 <= i < |merged| && Strong(merged[i], minSimilarity) :: merged[i].GetKey();
    var strong := StrongKeys(catalog, semantic, minSimilarity);
    MergedOrder(catalog, semantic);
    MergedDistinct(merged, Keys(catalog) + Keys(semantic), |catalog| + |semantic|);
    CountIsSize(merged, minSimilarity, |merged|);
    forall k ensures k in strong <==> k in counted {
      StrongIffCounted(catalog, semantic, minSimilarity, k);
    }
    assert counted == strong;
  }

  ghost predicate Distinct(keys: seq<Key>) {
    forall i, j :: 0 <= i < j < |keys| ==> keys[i] != keys[j]
  }

  lemma {:induction false} DistinctAppend(keys: seq<Key>, key: Key)
    requires Distinct(keys) && key !in keys
    ensures Distinct(keys + [key])
  {
  }

  lemma {:induction false} FirstsDistinct(keys: seq<Key>, n: nat)
    requires n <= |keys|
    ensures Distinct(FirstsTo(keys, n))
  {
    if n > 0 {
      FirstsDistinct(keys, n - 1);
      if keys[n - 1] !in FirstsTo(keys, n - 1) {
        DistinctAppend(FirstsTo(keys, n - 1), keys[n - 1]);
      }
    }
  }

  lemma {:induction false} MergedDistinct(merged: seq<Hit>, keys: seq<Key>, n: nat)
    requires n <= |keys| && Keys(merged) == FirstsTo(keys, n)
    ensures forall i, j :: 0 <= i < j < |merged| ==> merged[i].GetKey() != merged[j].GetKey()
  {
    FirstsDistinct(keys, n);
    assert forall i :: 0 <= i < |merged| ==> Keys(merged)[i] == merged[i].GetKey();
  }

  lemma {:induction false} OccursIfMember(hits: seq<Hit>, hit: Hit)
    requires hit in hits
    ensures Occurrences(hits, hit.GetKey(), |hits|) > 0
  {
    var i :| 0 <= i < |hits| && hits[i] == hit;
    assert Keys(hits)[..|hits|][i] == hit.GetKey();
    FoundIffOccurs(hits, hit.GetKey(), |hits|);
  }

  lemma {:induction false} StrongIffCounted(catalog: seq<Hit>, semantic: seq<Hit>, minSimilarity: real, key: Key)
    requires WellTagged(catalog, semantic)
    ensures var merged := Merged(catalog, semantic);
      key in StrongKeys(catalog, semantic, minSimilarity) <==>
      exists i :: 0 <= i < |merged| && Strong(merged[i], minSimilarity) && merged[i].GetKey() == key
  {
    var d, merged := WithSemantic(catalog, semantic, |semantic|), Merged(catalog, semantic);
    SemanticEntries(catalog, semantic, key, |semantic|);
    if key in d.byKey {
      StrongIffStrongKey(catalog, semantic, minSimilarity, d.byKey[key]);
      var i :| 0 <= i < |d.order| && d.order[i] == key;
      assert merged[i] == d.byKey[key];
      forall j | 0 <= j < |merged| && merged[j].GetKey() == key ensures merged[j] == merged[i] {
        assert merged[j] == d.byKey[d.order[j]];
      }
    } else {
      forall h | h in catalog || h in semantic ensures h.GetKey() != key {
        if h in catalog { OccursIfMember(catalog, h); } else { OccursIfMember(semantic, h); }
      }
      forall i | 0 <= i < |merged| ensures merged[i].GetKey() != key {
        assert merged[i] == d.byKey[d.order[i]];
      }
    }
  }
}
