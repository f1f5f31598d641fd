/** What every turn of the agent keeps, whatever is answered from outside. */
module AgentLaws {
  import opened Std
  import opened Payload
  import opened Text
  import opened SlotSchema
  import opened Agent

  // ---- grounding ----

  ghost predicate Grounded(s: State) {
    AllBacked(s.shortlist, s.candidates, s.webIdeas)
  }

  /** A backed gift carries the title and price of something on offer. */
  lemma {:induction false} BackedIsReal(gift: Gift, candidates: seq<Candidate>, webIdeas: seq<Idea>)
    requires Backed(gift, candidates, webIdeas)
    ensures gift.kind == WebIdea ==>
      0 <= gift.refId < |webIdeas| && gift.title == webIdeas[gift.refId].title && gift.price.None?
    ensures gift.kind != WebIdea ==>
      exists c :: c in candidates && c.kind == gift.kind && c.id == gift.refId
                  && c.name == gift.title && c.price == gift.price
  {
    if gift.kind != WebIdea {
      var c := FirstCandidate(candidates, gift.kind, gift.refId).value;
      assert c in candidates;
    }
  }

  lemma {:induction false} SortingKeepsMembers(gifts: seq<Gift>)
    ensures forall g :: g in SortByRank(gifts) <==> g in gifts
    ensures |SortByRank(gifts)| == |gifts|
  {
    var sorted := SortByRank(gifts);
    assert |sorted| == |multiset(sorted)| == |multiset(gifts)| == |gifts|;
    forall g ensures g in sorted <==> g in gifts {
      assert g in multiset(sorted) <==> g in multiset(gifts);
    }
  }

  ghost predicate InRankOrder(gifts: seq<Gift>) {
    forall i, j :: 0 <= i < j < |gifts| ==> gifts[i].rank <= gifts[j].rank
  }

  /** The gifts of one rank, in their order. */
  function OfRank(gifts: seq<Gift>, rank: int): seq<Gift> {
    if gifts == [] then []
    else OfRank(gifts[..|gifts| - 1], rank) + if gifts[|gifts| - 1].rank == rank then [gifts[|gifts| - 1]] else []
  }

  lemma {:induction false} OfRankAppend(gifts: seq<Gift>, gift: Gift, rank: int)
    ensures OfRank(gifts + [gift], rank) == OfRank(gifts, rank) + if gift.rank == rank then [gift] else []
  {
    assert (gifts + [gift])[..|gifts|] == gifts;
  }

  lemma {:induction false} OrderAppend(gifts: seq<Gift>, gift: Gift)
    requires InRankOrder(gifts) && forall g :: g in gifts ==> g.rank <= gift.rank
    ensures InRankOrder(gifts + [gift])
  {
  }

  lemma {:induction false} LastIsHighest(gifts: seq<Gift>)
    requires InRankOrder(gifts) && gifts != []
    ensures forall g :: g in gifts ==> g.rank <= gifts[|gifts| - 1].rank
  {
  }

  lemma {:induction false} InsertMembers(gift: Gift, sorted: seq<Gift>, g: Gift)
    requires g in InsertByRank(gift, sorted)
    ensures g == gift || g in sorted
  {
    assert g in multiset(InsertByRank(gift, sorted));
  }

  lemma {:induction false} InsertSorts(gift: Gift, sorted: seq<Gift>)
    requires InRankOrder(sorted)
    ensures InRankOrder(InsertByRank(gift, sorted))
  {
    if sorted != [] {
      var before, last := sorted[..|sorted| - 1], sorted[|sorted| - 1];
      LastIsHighest(sorted);
      if last.rank <= gift.rank {
        OrderAppend(sorted, gift);
      } else {
        InsertSorts(gift, before);
        forall g | g in InsertByRank(gift, before) ensures g.rank <= last.rank {
          InsertMembers(gift, before, g);
        }
        OrderAppend(InsertByRank(gift, before), last);
      }
    }
  }

  lemma {:induction false} InsertIsStable(gift: Gift, sorted: seq<Gift>, rank: int)
    ensures OfRank(InsertByRank(gift, sorted), rank) == OfRank(sorted + [gift], rank)
  {
    if sorted != [] && sorted[|sorted| - 1].rank > gift.rank {
      var before, last := sorted[..|sorted| - 1], sorted[|sorted| - 1];
      InsertIsStable(gift, before, rank);
      OfRankAppend(before, gift, rank);
      OfRankAppend(InsertByRank(gift, before), last, rank);
      OfRankAppend(sorted, gift, rank);
    }
  }

  /** The shortlist is sorted by rank, and gifts the model ranked alike keep the order it gave them. */
  lemma {:induction false} SortsStably(gifts: seq<Gift>, rank: int)
    ensures InRankOrder(SortByRank(gifts))
    ensures OfRank(SortByRank(gifts), rank) == OfRank(gifts, rank)
  {
    if gifts != [] {
      var before, last := gifts[..|gifts| - 1], gifts[|gifts| - 1];
      assert gifts == before + [last];
      SortsStably(before, rank);
      InsertSorts(last, SortByRank(before));
      InsertIsStable(last, SortByRank(before), rank);
      OfRankAppend(SortByRank(before), last, rank);
      OfRankAppend(before, last, rank);
    }
  }

  lemma {:induction false} FallsBackOnFirst(s: State)
    requires s.stage == Presenting && NonEmpty(s.pendingAction).None? && s.shortlist != []
    ensures ResolveSelected(s) == Some(s.shortlist[0])
  {
  }

  /** Asked to choose without naming a gift while presenting, the agent settles on one no other outranks. */
  lemma {:induction false} FreeTextPicksTopRanked(s: State, a: Answers)
    requires Curate(s, a).stage == Presenting && NonEmpty(s.pendingAction).None?
    ensures var chosen := ResolveSelected(Curate(s, a));
      var kept := Kept(a.curation, s.candidates, s.webIdeas, |a.curation|);
      && chosen.Some? && chosen.value in kept && forall g :: g in kept ==> chosen.value.rank <= g.rank
  {
    var kept := Kept(a.curation, s.candidates, s.webIdeas, |a.curation|);
    assert kept != [];
    var sorted := SortByRank(kept);
    SortsStably(kept, 0);
    SortingKeepsMembers(kept);
    assert Curate(s, a).shortlist == sorted && sorted[0] in sorted;
    FallsBackOnFirst(Curate(s, a));
    forall g | g in kept ensures sorted[0].rank <= g.rank {
      var i :| 0 <= i < |sorted| && sorted[i] == g;
    }
  }

  // ---- turn ends ----

  ghost predicate TurnStart(s: State) {
    && (s.stage == Greeting || s.stage == SlotFilling || s.stage == Presenting)
    && s.refinement.None? && Grounded(s)
  }

  ghost predicate TurnEnd(s: State) {
    && (s.stage == SlotFilling || s.stage == Presenting || s.stage == Done)
    && s.refinement.None? && Grounded(s)
  }

  /** What each node needs; searching needs no grounding, since curation always follows and rebuilds the shortlist. */
  ghost predicate Ready(n: Node, s: State) {
    match n
    case RouteIntentNode => TurnStart(s)
    case CollectNode => s.refinement.None? && Grounded(s)
    case RefineNode => true
    case SearchNode => s.refinement.None?
    case CurateNode => s.refinement.None?
    case PresentNode => s.refinement.None? && Grounded(s)
    case FinalizeNode =>
      s.refinement.None? && Grounded(s) && (s.stage == SlotFilling || s.stage == Presenting)
  }

  lemma {:induction false} CurateGrounds(s: State, a: Answers)
    ensures Grounded(Curate(s, a))
  {
    var kept := Kept(a.curation, s.candidates, s.webIdeas, |a.curation|);
    KeptAreBacked(a.curation, s.candidates, s.webIdeas, |a.curation|);
    SortingKeepsMembers(kept);
  }

  /** The node and the one after it agree; at the end the turn is in order. */
  ghost predicate HandsOver(n: Node, after: State)
    requires after.route.Some? && after.route.value in Edges(n)
  {
    var next := NextNode(n, after);
    if next.Some? then Ready(next.value, after) else TurnEnd(after)
  }

  lemma {:induction false} RouteIntentHandsOver(s: State, a: Answers)
    requires TurnStart(s)
    ensures HandsOver(RouteIntentNode, NodeStep(RouteIntentNode, s, a))
  {
    if s.stage != Greeting && TapRoute(s.pendingAction).None? {
      FreeTextHandsOver(s, a);
    } else {
      var after := RouteIntent(s, a);
      assert after.shortlist == s.shortlist && after.candidates == s.candidates && after.webIdeas == s.webIdeas;
    }
  }

  lemma {:induction false} FreeTextHandsOver(s: State, a: Answers)
    requires TurnStart(s) && s.stage != Greeting
    ensures var after := RouteFreeText(s, a);
      && after.route.Some? && after.route.value in Edges(RouteIntentNode) && HandsOver(RouteIntentNode, after)
  {
    var after := RouteFreeText(s, a);
    assert after.shortlist == s.shortlist && after.candidates == s.candidates && after.webIdeas == s.webIdeas;
  }

  lemma {:induction false} CollectHandsOver(s: State, a: Answers)
    requires Ready(CollectNode, s)
    ensures HandsOver(CollectNode, NodeStep(CollectNode, s, a))
  {
  }

  lemma {:induction false} CurateHandsOver(s: State, a: Answers)
    requires Ready(CurateNode, s)
    ensures HandsOver(CurateNode, NodeStep(CurateNode, s, a))
  {
    CurateGrounds(s, a);
  }

  lemma {:induction false} FinalizeHandsOver(s: State, a: Answers)
    requires Ready(FinalizeNode, s)
    ensures HandsOver(FinalizeNode, NodeStep(FinalizeNode, s, a))
  {
    var after := Finalize(s);
    assert after.shortlist == s.shortlist && after.candidates == s.candidates && after.webIdeas == s.webIdeas;
  }

  lemma {:induction false} RefineHandsOver(s: State, a: Answers)
    ensures HandsOver(RefineNode, NodeStep(RefineNode, s, a))
  {
  }

  lemma {:induction false} NodeHandsOver(n: Node, s: State, a: Answers)
    requires Ready(n, s)
    ensures HandsOver(n, NodeStep(n, s, a))
  {
    match n {
      case RouteIntentNode => RouteIntentHandsOver(s, a);
      case CollectNode => CollectHandsOver(s, a);
      case CurateNode => CurateHandsOver(s, a);
      case FinalizeNode => FinalizeHandsOver(s, a);
      case RefineNode => RefineHandsOver(s, a);
      case SearchNode =>
      case PresentNode =>
    }
  }

  /** A finished conversation confirmed a gift of its own shortlist, by title and price. */
  ghost predicate ConfirmedReal(s: State) {
    exists g :: g in s.shortlist && Backed(g, s.candidates, s.webIdeas)
                && s.messages != [] && s.messages[|s.messages| - 1] == Ai(ConfirmationText(g))
  }

  lemma {:induction false} ConfirmsFromShortlist(s: State)
    requires Grounded(s) && Finalize(s).stage == Done && s.stage != Done
    ensures ConfirmedReal(Finalize(s))
  {
    var g := ResolveSelected(s).value;
    assert g in s.shortlist;
    var after := Finalize(s);
    assert after.shortlist == s.shortlist && after.candidates == s.candidates && after.webIdeas == s.webIdeas;
    assert after.messages[|after.messages| - 1] == Ai(ConfirmationText(g));
  }

  lemma {:induction false} DoneOnlyByConfirming(n: Node, s: State, a: Answers)
    requires Ready(n, s) && s.stage != Done && NodeStep(n, s, a).stage == Done
    ensures n == FinalizeNode && ConfirmedReal(NodeStep(n, s, a))
  {
    if n == FinalizeNode {
      ConfirmsFromShortlist(s);
    }
  }

  lemma {:induction false} RunEndsWell(n: Node, s: State, a: Answers)
    requires Ready(n, s) && s.stage != Done
    ensures TurnEnd(RunFrom(n, s, a).0)
    ensures RunFrom(n, s, a).0.stage == Done ==>
      ConfirmedReal(RunFrom(n, s, a).0)
    decreases Rank(n)
  {
    var after := NodeStep(n, s, a);
    var next := NextNode(n, after);
    NodeHandsOver(n, s, a);
    if s.stage != Done && after.stage == Done {
      DoneOnlyByConfirming(n, s, a);
    }
    if next.Some? {
      RunEndsWell(next.value, after, a);
    }
  }

  // ---- presenting and the empty shortlist ----

  ghost predicate Shows(s: State) {
    s.stage == Presenting ==> s.shortlist != []
  }

  /** A "more options" tap that arrives when there is nothing on the shortlist. */
  predicate StaleMoreOptions(s: State) {
    s.stage != Greeting && TapRoute(s.pendingAction) == Some(ToPresent) && s.shortlist == []
  }

  ghost predicate ReadyToShow(n: Node, s: State) {
    if n == PresentNode then s.shortlist != [] else n == SearchNode || n == CurateNode || n == RefineNode || Shows(s)
  }

  lemma {:induction false} CuratedIsNotEmpty(s: State, a: Answers)
    ensures Curate(s, a).route == Some(ToPresent) ==> Curate(s, a).shortlist != []
  {
    var kept := Kept(a.curation, s.candidates, s.webIdeas, |a.curation|);
    SortingKeepsMembers(kept);
  }

  lemma {:induction false} RunShows(n: Node, s: State, a: Answers)
    requires ReadyToShow(n, s) && n != RouteIntentNode
    ensures Shows(RunFrom(n, s, a).0)
    decreases Rank(n)
  {
    var after := NodeStep(n, s, a);
    if n == CurateNode {
      CuratedIsNotEmpty(s, a);
    }
    if NextNode(n, after).Some? {
      RunShows(NextNode(n, after).value, after, a);
    }
  }

  lemma {:induction false} RouteReadyToShow(s: State, a: Answers)
    requires Shows(s) && !StaleMoreOptions(s)
    ensures var after := NodeStep(RouteIntentNode, s, a); var next := NextNode(RouteIntentNode, after);
      if next.Some? then ReadyToShow(next.value, after) && next.value != RouteIntentNode else Shows(after)
  {
    var after := NodeStep(RouteIntentNode, s, a);
    assert after.shortlist == s.shortlist;
    if s.stage != Greeting && TapRoute(s.pendingAction).Some? {
      assert after.stage == s.stage && after.route == TapRoute(s.pendingAction);
    } else {
      assert after.route != Some(ToPresent);
      assert after.stage == Presenting ==> s.stage == Presenting;
    }
  }

  lemma {:induction false} StaleTapShowsNothing(s: State, a: Answers)
    requires StaleMoreOptions(s)
    ensures !Shows(RunFrom(RouteIntentNode, s, a).0)
  {
    var after := NodeStep(RouteIntentNode, s, a);
    assert after == s.(route := Some(ToPresent));
    assert RunFrom(PresentNode, after, a).0 == Present(after);
  }

  /**
   "Presenting means there is something to show" survives a turn exactly when the turn is not a stale
   tap on "more options"; such a tap always breaks it.
   */
  lemma {:induction false} ShowsKeptIff(s: State, a: Answers)
    requires Shows(s)
    ensures Shows(RunFrom(RouteIntentNode, s, a).0) <==> !StaleMoreOptions(s)
  {
    if StaleMoreOptions(s) {
      StaleTapShowsNothing(s, a);
    } else {
      RouteReadyToShow(s, a);
      var after := NodeStep(RouteIntentNode, s, a);
      var next := NextNode(RouteIntentNode, after);
      if next.Some? {
        RunShows(next.value, after, a);
      }
    }
  }

  // ---- rows shown can be tapped ----

  /** Two backed gifts with the same kind and id are the same thing at the same price. */
  lemma {:induction false} SameKeySameGift(a: Gift, b: Gift, candidates: seq<Candidate>, webIdeas: seq<Idea>)
    requires Backed(a, candidates, webIdeas) && Backed(b, candidates, webIdeas)
    requires a.kind == b.kind && a.refId == b.refId
    ensures a.title == b.title && a.price == b.price && a.imageUrl == b.imageUrl && a.sourceUrl == b.sourceUrl
  {
  }

  lemma {:induction false} RowIdDecodes(gift: Gift)
    ensures Decode(RowId(gift)) == Decoded(NamespaceOf(gift.kind), ActionOf(gift.kind), Some(IntToString(gift.refId)))
    ensures ParseInt(IntToString(gift.refId)) == Some(gift.refId)
    ensures RowId(gift) != ""
    ensures TapRoute(Some(RowId(gift))) == Some(ToFinalize)
  {
    DecodeEncode(NamespaceOf(gift.kind), ActionOf(gift.kind), IntToString(gift.refId));
    IntRoundTrip(gift.refId);
  }

  /** A tap that leads to finalising runs just that node. */
  lemma {:induction false} TapRuns(s: State, a: Answers)
    requires s.stage != Greeting && TapRoute(s.pendingAction) == Some(ToFinalize)
    ensures RunFrom(RouteIntentNode, s, a).0 == Finalize(s.(route := Some(ToFinalize)))
  {
    var routed := RouteIntent(s, a);
    assert routed == s.(route := Some(ToFinalize));
    assert RunFrom(FinalizeNode, routed, a).0 == Finalize(routed);
  }

  /**
   Tapping a shown row in the next turn, at any stage but the greeting and whatever is answered, ends the
   conversation on a gift of the same kind, id, title and price.
   */
  lemma {:induction false} TapResolves(s: State, gift: Gift, a: Answers)
    requires Grounded(s) && gift in s.shortlist && s.stage != Greeting && s.pendingAction == Some(RowId(gift))
    ensures ResolveSelected(s).Some?
    ensures var chosen := ResolveSelected(s).value;
      && chosen.kind == gift.kind && chosen.refId == gift.refId
      && chosen.title == gift.title && chosen.price == gift.price
      && chosen in s.shortlist && RunFrom(RouteIntentNode, s, a).0.shortlist == s.shortlist
      && RunFrom(RouteIntentNode, s, a).0.stage == Done
      && RunFrom(RouteIntentNode, s, a).0.outbound == s.outbound + [TextOut(ConfirmationText(gift))]
  {
    RowIdDecodes(gift);
    var matches := (g: Gift) => g.kind == gift.kind && g.refId == gift.refId;
    var d := Decode(RowId(gift));
    assert TappedKind(d) == gift.kind;
    var found := NamedGift(s.shortlist, RowId(gift));
    assert found.Some? && found.value in s.shortlist;
    SameKeySameGift(found.value, gift, s.candidates, s.webIdeas);
    TapRuns(s, a);
    assert ResolveSelected(s.(route := Some(ToFinalize))) == found;
  }

  predicate SameKey(a: Gift, b: Gift) {
    a.kind == b.kind && a.refId == b.refId
  }

  /** ... and of the same title and price. */
  predicate ShowsSame(a: Gift, b: Gift) {
    SameKey(a, b) && a.title == b.title && a.price == b.price
  }

  /** A gift of the kind and id a row stands for is on the shortlist. */
  ghost predicate StillListed(s: State, gift: Gift) {
    exists g :: g in s.shortlist && SameKey(g, gift)
  }

  /** The first such gift has the title and price the row showed. */
  ghost predicate StillShown(s: State, gift: Gift) {
    exists i :: 0 <= i < |s.shortlist| && ShowsSame(s.shortlist[i], gift)
                && (forall j :: 0 <= j < i ==> !SameKey(s.shortlist[j], gift))
  }

  /**
   Tapping any row ever shown: the turn confirms a gift of that kind and id exactly when one is shortlisted now, and
   one that also has the title and price shown exactly when the first of these has. If none is shortlisted while
   another list is presented, it confirms that one's first gift instead; otherwise it confirms nothing.
   */
  lemma {:induction false} TapConfirmsIff(s: State, gift: Gift, a: Answers)
    requires s.stage != Greeting && s.stage != Done && s.pendingAction == Some(RowId(gift))
    ensures var after, chosen := RunFrom(RouteIntentNode, s, a).0, ResolveSelected(s);
      && (chosen.Some? && SameKey(chosen.value, gift) <==> StillListed(s, gift))
      && (chosen.Some? && ShowsSame(chosen.value, gift) <==> StillShown(s, gift))
      && (chosen.Some? <==> after.stage == Done)
      && (chosen.Some? ==> after.outbound == s.outbound + [TextOut(ConfirmationText(chosen.value))])
      && (chosen.None? ==> after.outbound == s.outbound + [TextOut(WHICH_ONE_TEXT)])
      && (!StillListed(s, gift) ==>
            chosen == if s.stage == Presenting && s.shortlist != [] then Some(s.shortlist[0]) else None)
  {
    RowIdDecodes(gift);
    TapRuns(s, a);
    TapNames(s, gift);
    assert ResolveSelected(s.(route := Some(ToFinalize))) == ResolveSelected(s);
  }

  /** What is found is the first that matches. */
  lemma {:induction false} FoundIsFirst(shortlist: seq<Gift>, matches: Gift -> bool)
    ensures var found := FindGift(shortlist, matches);
      found.Some? ==> exists i :: 0 <= i < |shortlist| && shortlist[i] == found.value
                                  && (forall j :: 0 <= j < i ==> !matches(shortlist[j]))
  {
    if shortlist != [] && !matches(shortlist[0]) && FindGift(shortlist, matches).Some? {
      var rest := shortlist[1..];
      FoundIsFirst(rest, matches);
      var i :| 0 <= i < |rest| && rest[i] == FindGift(rest, matches).value
               && forall j :: 0 <= j < i ==> !matches(rest[j]);
      assert shortlist[i + 1] == rest[i];
      assert forall j :: 0 < j < i + 1 ==> shortlist[j] == rest[j - 1];
    } else if shortlist != [] {
      assert shortlist[0] == shortlist[0];
    }
  }

  /** The payload names the first gift of that kind and id, if there is one. */
  lemma {:induction false} TapNames(s: State, gift: Gift)
    ensures var named := NamedGift(s.shortlist, RowId(gift));
      && (named.Some? <==> StillListed(s, gift))
      && (named.Some? ==> named.value in s.shortlist && SameKey(named.value, gift))
      && (named.Some? && ShowsSame(named.value, gift) <==> StillShown(s, gift))
  {
    RowIdDecodes(gift);
    var d := Decode(RowId(gift));
    assert TappedKind(d) == gift.kind;
    var matches := (g: Gift) => g.kind == TappedKind(d) && g.refId == gift.refId;
    var named := NamedGift(s.shortlist, RowId(gift));
    assert named == FindGift(s.shortlist, matches);
    FirstShown(s, gift, matches);
  }

  lemma {:induction false} FirstShown(s: State, gift: Gift, matches: Gift -> bool)
    requires forall g :: matches(g) <==> SameKey(g, gift)
    ensures var found := FindGift(s.shortlist, matches);
      && (found.Some? <==> StillListed(s, gift))
      && (found.Some? && ShowsSame(found.value, gift) <==> StillShown(s, gift))
  {
    FoundIsFirst(s.shortlist, matches);
    if FindGift(s.shortlist, matches).Some? {
      var i :| 0 <= i < |s.shortlist| && s.shortlist[i] == FindGift(s.shortlist, matches).value
               && forall j :: 0 <= j < i ==> !matches(s.shortlist[j]);
      assert forall j :: 0 <= j < i ==> !SameKey(s.shortlist[j], gift);
    }
  }

  /** The gift curation makes of the only idea found. */
  function OnlyIdea(idea: Idea, item: CurationItem): Gift {
    Gift(item.rank, WebIdea, 0, idea.title, None, None, Some(idea.sourceUrl), item.justification, item.fitTags)
  }

  /** A search that finds one web idea and nothing else, curated to just that. */
  lemma {:induction false} OneIdeaIsPresented(s: State, a: Answers, idea: Idea, item: CurationItem)
    requires a.search.merged == [] && a.search.webIdeas == [idea]
    requires a.curation == [item] && item.kind == WebIdea && item.ref == Some(0)
    ensures var after := RunFrom(SearchNode, s, a).0;
      after.stage == Presenting && after.shortlist == [OnlyIdea(idea, item)]
  {
    var searched := Search(s, a);
    assert Kept(a.curation, [], [idea], 0) == [];
    assert Kept(a.curation, [], [idea], 1) == [OnlyIdea(idea, item)];
    OneSorts(OnlyIdea(idea, item));
    assert RunFrom(PresentNode, Curate(searched, a), a).0 == Present(Curate(searched, a));
  }

  lemma {:induction false} OneSorts(gift: Gift)
    ensures SortByRank([gift]) == [gift]
  {
    assert SortByRank([]) == [];
  }

  /**
   A web idea's id is its place in the search that found it. Once another search has put another idea there, the old
   row, tapped, confirms that one, whatever the row showed.
   */
  lemma {:induction false} ReusedIndexConfirmsAnother(s: State, a: Answers, idea: Idea, item: CurationItem, shown: Gift,
      next: Answers)
    requires a.search.merged == [] && a.search.webIdeas == [idea]
    requires a.curation == [item] && item.kind == WebIdea && item.ref == Some(0)
    requires shown.kind == WebIdea && shown.refId == 0
    ensures var tapped := RunFrom(SearchNode, s, a).0.(pendingAction := Some(RowId(shown)));
      && StillListed(tapped, shown)
      && ResolveSelected(tapped) == Some(OnlyIdea(idea, item))
      && RunFrom(RouteIntentNode, tapped, next).0.stage == Done
      && (StillShown(tapped, shown) <==> shown.title == idea.title && shown.price == None)
  {
    OneIdeaIsPresented(s, a, idea, item);
    var tapped := RunFrom(SearchNode, s, a).0.(pendingAction := Some(RowId(shown)));
    assert tapped.shortlist[0] == OnlyIdea(idea, item);
    TapConfirmsIff(tapped, shown, next);
  }

  function GiftIds(shortlist: seq<Gift>, ideas: bool, n: nat): seq<string>
    requires n <= |shortlist|
  {
    if n == 0 then []
    else
      GiftIds(shortlist, ideas, n - 1)
      + if (shortlist[n - 1].kind == WebIdea) == ideas then [RowId(shortlist[n - 1])] else []
  }

  function Ids(rows: seq<ListRow>): seq<string> {
    seq(|rows|, k requires 0 <= k < |rows| => rows[k].id)
  }

  lemma {:induction false} IdsAppend(a: seq<ListRow>, b: seq<ListRow>)
    ensures Ids(a + b) == Ids(a) + Ids(b)
  {
  }

  lemma {:induction false} RowsCarryIds(shortlist: seq<Gift>, ideas: bool, n: nat)
    requires n <= |shortlist|
    ensures Ids(RowsOf(shortlist, ideas, n)) == GiftIds(shortlist, ideas, n)
  {
    if n > 0 {
      RowsCarryIds(shortlist, ideas, n - 1);
      var row := RowOf(shortlist[n - 1]);
      IdsAppend(RowsOf(shortlist, ideas, n - 1), [row]);
      IdsAppend(RowsOf(shortlist, ideas, n - 1), []);
      assert Ids([row]) == [RowId(shortlist[n - 1])];
    }
  }

  /**
   With at most ten gifts every one has a row in the message sent: catalogue gifts first, then ideas, each
   in shortlist order, with its id untouched.
   */
  lemma {:induction false} EveryGiftHasARow(shortlist: seq<Gift>)
    requires |shortlist| <= 10
    ensures var sections := Sections(shortlist); var n := |shortlist|;
      var sent := Safe(sections, Min(|sections|, MAX_LIST_ROWS));
      Ids(AllRows(sent, |sent|)) == GiftIds(shortlist, false, n) + GiftIds(shortlist, true, n)
  {
    var sections, n := Sections(shortlist), |shortlist|;
    var catalog, ideas := RowsOf(shortlist, false, n), RowsOf(shortlist, true, n);
    RowsCarryIds(shortlist, false, n);
    RowsCarryIds(shortlist, true, n);
    AsManyRows(shortlist, n);
    SectionsHoldRows(shortlist);
    SentAreFirstTen(sections, |sections|);
    assert FirstTen(catalog + ideas) == catalog + ideas;
    IdsAppend(catalog, ideas);
    SendingKeepsIds(catalog + ideas);
  }

  lemma {:induction false} SendingKeepsIds(rows: seq<ListRow>)
    ensures Ids(SentRows(rows)) == Ids(rows)
  {
  }

  /** The curated shortlist is never longer than what the curation answer may hold. */
  lemma {:induction false} ShortlistIsShort(s: State, a: Answers)
    requires |a.curation| <= 5
    ensures |Curate(s, a).shortlist| <= 5
  {
    KeptAreBacked(a.curation, s.candidates, s.webIdeas, |a.curation|);
    SortingKeepsMembers(Kept(a.curation, s.candidates, s.webIdeas, |a.curation|));
  }

  // ---- asking ----

  /**
   A message that is no tap, while requirements are collected: with enough merged the turn goes on to search;
   otherwise it ends there, having asked for a required slot that is still empty.
   */
  lemma {:induction false} AsksOrSearches(s: State, a: Answers)
    requires s.stage == SlotFilling && TapRoute(s.pendingAction).None? && NonEmpty(LatestHuman(s.messages)).Some?
    ensures var (end, nodes) := RunFrom(RouteIntentNode, s, a); var slots := Merge(s.slots, a.extracted, a.lower);
      if Sufficient(slots) then [RouteIntentNode, CollectNode, SearchNode] <= nodes
      else
        && nodes == [RouteIntentNode, CollectNode] && end.stage == SlotFilling && end.slots == slots
        && end.lastQuestion.Some? && end.lastQuestion.value in REQUIRED && !Filled(slots, end.lastQuestion.value)
  {
    var slots := Merge(s.slots, a.extracted, a.lower);
    var routed := NodeStep(RouteIntentNode, s, a);
    assert routed == s.(route := Some(ToCollect));
    var collected := NodeStep(CollectNode, routed, a);
    if Sufficient(slots) {
      assert NextNode(CollectNode, collected) == Some(SearchNode);
      assert RunFrom(SearchNode, collected, a).1[0] == SearchNode;
    } else {
      AsksForMissingRequired(slots);
      assert RunFrom(CollectNode, routed, a) == (collected, [CollectNode]);
    }
  }
}
