/**
 What the agent does with each kind of message: which nodes run, what they store, what the person is sent
 (app/agent/nodes, app/services/conversation_orchestrator.py).
 */
module AgentNodes {
  import opened Std
  import opened Text
  import opened Payload
  import opened SlotSchema
  import opened Agent
  import opened AgentLaws
  import Money

  // ---- what was last said ----

  /** The latest thing the person wrote, whatever the agent has said since. */
  lemma {:induction false} LatestHumanIs(messages: seq<Message>)
    ensures var latest := LatestHuman(messages);
      && (latest.None? <==> forall i :: 0 <= i < |messages| ==> messages[i].Ai?)
      && (latest.Some? ==> exists i :: 0 <= i < |messages| && LatestAt(messages, latest.value, i))
  {
    if messages != [] && messages[|messages| - 1].Ai? {
      var before := messages[..|messages| - 1];
      LatestHumanIs(before);
      assert forall i :: 0 <= i < |before| ==> messages[i] == before[i];
      if LatestHuman(before).Some? {
        var i :| 0 <= i < |before| && LatestAt(before, LatestHuman(before).value, i);
        assert LatestAt(messages, LatestHuman(before).value, i);
      }
    } else if messages != [] {
      assert LatestAt(messages, LatestHuman(messages).value, |messages| - 1);
    }
  }

  /** The person wrote that there, and nothing after. */
  ghost predicate LatestAt(messages: seq<Message>, text: string, i: nat) {
    i < |messages| && messages[i] == Human(text) && forall j :: i < j < |messages| ==> messages[j].Ai?
  }

  // ---- where a message leads ----

  /** A first message is greeted and asked for the occasion, whatever it says. */
  lemma {:induction false} FirstMessageIsGreeted(s: State, a: Answers)
    requires s.stage == Greeting
    ensures var (end, nodes) := RunFrom(RouteIntentNode, s, a);
      && nodes == [RouteIntentNode]
      && end == s.(stage := SlotFilling, missingSlots := PRIORITY, lastQuestion := Some(Occasion),
                   messages := s.messages + [Ai(GREETING_TEXT)], outbound := s.outbound + [TextOut(GREETING_TEXT)],
                   route := Some(EndTurn))
  {
  }

  /** A node runs, and then the one its route names, if any. */
  lemma {:induction false} RunStep(n: Node, s: State, a: Answers)
    ensures var after := NodeStep(n, s, a); var next := NextNode(n, after);
      RunFrom(n, s, a)
        == if next.None? then (after, [n])
           else (RunFrom(next.value, after, a).0, [n] + RunFrom(next.value, after, a).1)
  {
  }

  lemma {:induction false} PresentRuns(s: State, a: Answers)
    ensures RunFrom(PresentNode, s, a).0 == Present(s)
  {
    RunStep(PresentNode, s, a);
  }

  lemma {:induction false} CurateRuns(s: State, a: Answers, curated: State)
    requires curated == NodeStep(CurateNode, s, a)
    ensures RunFrom(CurateNode, s, a).0 == if curated.route == Some(ToPresent) then Present(curated) else curated
  {
    RunStep(CurateNode, s, a);
    assert NextNode(CurateNode, curated) == if curated.route == Some(ToPresent) then Some(PresentNode) else None;
    PresentRuns(curated, a);
  }

  /** A search is curated, and what was kept is presented. */
  lemma {:induction false} SearchRuns(s: State, a: Answers)
    ensures var curated := Curate(Search(s, a), a);
      RunFrom(SearchNode, s, a).0 == if curated.route == Some(ToPresent) then Present(curated) else curated
  {
    RunStep(SearchNode, s, a);
    CurateRuns(Search(s, a), a, Curate(Search(s, a), a));
  }

  lemma {:induction false} CurateKeeps(s: State, a: Answers)
    ensures var after := Curate(s, a);
      && after.slots == s.slots && after.candidates == s.candidates && after.webIdeas == s.webIdeas
      && after.usedWebFallback == s.usedWebFallback
  {
  }

  lemma {:induction false} PresentKeeps(s: State)
    ensures var after := Present(s);
      && after.slots == s.slots && after.candidates == s.candidates && after.webIdeas == s.webIdeas
      && after.usedWebFallback == s.usedWebFallback && after.shortlist == s.shortlist
  {
  }

  /** Searching, curating and presenting leave the requirements as they are. */
  lemma {:induction false} SearchKeepsSlots(s: State, a: Answers)
    ensures RunFrom(SearchNode, s, a).0.slots == s.slots
  {
    SearchRuns(s, a);
    CurateKeeps(Search(s, a), a);
    PresentKeeps(Curate(Search(s, a), a));
  }

  /** While a shortlist is presented or refined, each intent leads to its own node and nowhere else. */
  lemma {:induction false} IntentsLead(s: State, a: Answers)
    requires s.stage == Presenting || s.stage == Refining
    requires TapRoute(s.pendingAction).None? && NonEmpty(LatestHuman(s.messages)).Some?
    ensures var (end, nodes) := RunFrom(RouteIntentNode, s, a);
      match a.intent
      case Refinement =>
        && nodes[..1] == [RouteIntentNode] && [RefineNode, SearchNode] <= nodes[1..]
        && end.slots == ApplyRefinement(s.slots, a.refinement, a.lower)
      case Selection => nodes == [RouteIntentNode, FinalizeNode]
      case NewRequest =>
        [RouteIntentNode, CollectNode] <= nodes && end.slots == Merge(NO_SLOTS, a.extracted, a.lower)
      case ContinueSlotFilling =>
        [RouteIntentNode, CollectNode] <= nodes && end.slots == Merge(s.slots, a.extracted, a.lower)
      case _ =>
        && nodes == [RouteIntentNode]
        && end == s.(messages := s.messages + [Ai(a.smalltalk)], outbound := s.outbound + [TextOut(a.smalltalk)],
                     route := Some(EndTurn))
  {
    RoutedByIntent(s, a);
    var routed := RouteFreeText(s, a);
    match a.intent {
      case Refinement => RefinedSearch(routed, a);
      case Selection => assert RunFrom(FinalizeNode, routed, a).1 == [FinalizeNode];
      case NewRequest => CollectedSlots(routed, a);
      case ContinueSlotFilling => CollectedSlots(routed, a);
      case GeneralQuestion =>
      case Smalltalk =>
    }
  }

  /** The entry node hands over to the one its route names. */
  lemma {:induction false} RoutedByIntent(s: State, a: Answers)
    requires s.stage != Greeting && TapRoute(s.pendingAction).None?
    ensures var routed := RouteFreeText(s, a);
      && NodeStep(RouteIntentNode, s, a) == routed
      && var next := NextNode(RouteIntentNode, routed);
         RunFrom(RouteIntentNode, s, a)
           == if next.None? then (routed, [RouteIntentNode])
              else (RunFrom(next.value, routed, a).0, [RouteIntentNode] + RunFrom(next.value, routed, a).1)
  {
  }

  lemma {:induction false} CollectedSlots(s: State, a: Answers)
    requires NonEmpty(LatestHuman(s.messages)).Some?
    ensures var (end, nodes) := RunFrom(CollectNode, s, a);
      end.slots == Merge(s.slots, a.extracted, a.lower) && [CollectNode] <= nodes
  {
    var collected := Collect(s, a);
    assert collected.slots == Merge(s.slots, a.extracted, a.lower);
    if collected.route == Some(ToSearch) {
      SearchKeepsSlots(collected, a);
    }
  }

  /** A refinement searches again with the slots it leaves; without any text, with those there were. */
  lemma {:induction false} RefinedSearch(s: State, a: Answers)
    ensures var (end, nodes) := RunFrom(RefineNode, s, a);
      && [RefineNode, SearchNode] <= nodes
      && (NonEmpty(s.refinement).None? && NonEmpty(LatestHuman(s.messages)).None? ==> end.slots == s.slots)
      && (NonEmpty(s.refinement).Some? || NonEmpty(LatestHuman(s.messages)).Some? ==>
            end.slots == ApplyRefinement(s.slots, a.refinement, a.lower))
  {
    var refined := Refine(s, a);
    SearchKeepsSlots(refined, a);
    assert RunFrom(RefineNode, s, a).1 == [RefineNode] + RunFrom(SearchNode, refined, a).1;
    assert RunFrom(SearchNode, refined, a).1[0] == SearchNode;
  }

  lemma {:induction false} TapPresents(s: State, a: Answers)
    requires s.stage != Greeting && TapRoute(s.pendingAction) == Some(ToPresent)
    ensures RunFrom(RouteIntentNode, s, a).1 == [RouteIntentNode, PresentNode]
  {
    var routed := s.(route := Some(ToPresent));
    assert NodeStep(RouteIntentNode, s, a) == routed;
    assert RunFrom(PresentNode, routed, a).1 == [PresentNode];
  }

  lemma {:induction false} TapRefines(s: State, a: Answers)
    requires s.stage != Greeting && TapRoute(s.pendingAction) == Some(ToRefine)
    ensures [RouteIntentNode, RefineNode, SearchNode] <= RunFrom(RouteIntentNode, s, a).1
  {
    var routed := s.(route := Some(ToRefine));
    assert NodeStep(RouteIntentNode, s, a) == routed;
    RefinedSearch(routed, a);
    assert RunFrom(RouteIntentNode, s, a).1 == [RouteIntentNode] + RunFrom(RefineNode, routed, a).1;
  }

  lemma {:induction false} ButtonRoute(action: string, payload: string)
    requires ':' !in action && payload == "action:" + action
    ensures action == "more_options" ==> TapRoute(Some(payload)) == Some(ToPresent)
    ensures action == "refine_menu" ==> TapRoute(Some(payload)) == Some(ToRefine)
  {
    ButtonDecodes(action);
    assert payload != "";
  }

  /** The first button below a shortlist shows it again, the second searches again. */
  lemma {:induction false} ButtonsLead(s: State, a: Answers, action: string)
    requires s.stage != Greeting && s.pendingAction == Some("action:" + action)
    ensures action == "more_options" ==> RunFrom(RouteIntentNode, s, a).1 == [RouteIntentNode, PresentNode]
    ensures action == "refine_menu" ==>
      [RouteIntentNode, RefineNode, SearchNode] <= RunFrom(RouteIntentNode, s, a).1
  {
    if action == "more_options" {
      ButtonRoute(action, s.pendingAction.value);
      TapPresents(s, a);
    } else if action == "refine_menu" {
      ButtonRoute(action, s.pendingAction.value);
      TapRefines(s, a);
    }
  }

  lemma {:induction false} ButtonDecodes(action: string)
    requires ':' !in action
    ensures Decode("action:" + action) == Decoded("action", action, None)
  {
    var payload := "action:" + action;
    assert payload == "action" + ":" + action;
    FirstColon("action", action);
    assert payload[7..] == action && payload[..6] == "action";
    NoColon(action);
  }

  lemma {:induction false} NoColon(s: string)
    requires ':' !in s
    ensures ColonAt(s) == |s|
  {
    forall i | 0 <= i < |s| ensures s[i] != ':' {
      assert s[i] in s;
    }
  }

  /** Tapping a gift, an idea or a confirmation finalises, whatever was written with it. */
  lemma {:induction false} TapsFinalise(s: State, a: Answers, payload: string)
    requires s.stage != Greeting && s.pendingAction == Some(payload) && payload != ""
    requires var d := Decode(payload);
      d.namespace_ in {"gift", "idea"} || (d.namespace_ == "action" && "confirm" <= d.action)
    ensures RunFrom(RouteIntentNode, s, a).1 == [RouteIntentNode, FinalizeNode]
  {
    var routed := s.(route := Some(ToFinalize));
    var action := Decode(payload).action;
    if "confirm" <= action {
      assert action[0] == 'c';
    }
    assert NodeStep(RouteIntentNode, s, a) == routed;
    assert RunFrom(FinalizeNode, routed, a).1 == [FinalizeNode];
  }

  /** A payload of any other kind is ignored: the text that came with it is read as free text. */
  lemma {:induction false} UnknownTapIsFreeText(s: State, a: Answers, payload: string)
    requires s.stage != Greeting && s.pendingAction == Some(payload)
    requires var d := Decode(payload);
      && d.namespace_ !in {"gift", "idea"}
      && (d.namespace_ == "action" ==>
            d.action !in {"more_options", "refine", "refine_menu"} && !("confirm" <= d.action))
    ensures RouteIntent(s, a) == RouteIntent(s.(pendingAction := None), a).(pendingAction := s.pendingAction)
  {
    assert TapRoute(s.pendingAction).None?;
    assert RouteFreeText(s, a) == RouteFreeText(s.(pendingAction := None), a).(pendingAction := s.pendingAction);
  }

  // ---- searching and curating ----

  /** What a search answers is what is on offer afterwards, in place of what was. */
  lemma {:induction false} SearchedIsOnOffer(s: State, a: Answers)
    ensures var end := RunFrom(SearchNode, s, a).0;
      && end.candidates == a.search.merged && end.webIdeas == a.search.webIdeas
      && end.usedWebFallback == a.search.usedWebFallback
  {
    SearchRuns(s, a);
    CurateKeeps(Search(s, a), a);
    PresentKeeps(Curate(Search(s, a), a));
  }

  /** The items that name something on offer. */
  function Offered(items: seq<CurationItem>, candidates: seq<Candidate>, webIdeas: seq<Idea>, n: nat): seq<CurationItem>
    requires n <= |items|
  {
    if n == 0 then []
    else
      Offered(items, candidates, webIdeas, n - 1)
      + if OnOffer(items[n - 1], candidates, webIdeas) then [items[n - 1]] else []
  }

  /** Kept are exactly those, in their order, each with the rank, reason and tags given for it. */
  lemma {:induction false} KeptInOrder(
    items: seq<CurationItem>, candidates: seq<Candidate>, webIdeas: seq<Idea>, n: nat)
    requires n <= |items|
    ensures var kept, offered := Kept(items, candidates, webIdeas, n), Offered(items, candidates, webIdeas, n);
      && |kept| == |offered|
      && forall k :: 0 <= k < |kept| ==>
           && kept[k].kind == offered[k].kind && Some(kept[k].refId) == offered[k].ref
           && kept[k].rank == offered[k].rank && kept[k].justification == offered[k].justification
           && kept[k].fitTags == offered[k].fitTags
  {
    if n > 0 {
      KeptInOrder(items, candidates, webIdeas, n - 1);
      var item := items[n - 1];
      if OnOffer(item, candidates, webIdeas) {
        assert ToRankedGift(item, item.ref.value, candidates, webIdeas).Some?;
      } else if item.ref.Some? && ValidKey(item.kind, item.ref.value, candidates, webIdeas) {
        assert ToRankedGift(item, item.ref.value, candidates, webIdeas).None?;
      }
    }
  }

  /** A kept gift shows the first image of its candidate, or the address its idea was found at. */
  lemma {:induction false} BackedShows(gift: Gift, candidates: seq<Candidate>, webIdeas: seq<Idea>)
    requires Backed(gift, candidates, webIdeas)
    ensures gift.kind == WebIdea ==>
      0 <= gift.refId < |webIdeas| && gift.sourceUrl == Some(webIdeas[gift.refId].sourceUrl) && gift.imageUrl.None?
    ensures gift.kind != WebIdea ==>
      && gift.sourceUrl.None?
      && exists c :: c in candidates && c.kind == gift.kind && c.id == gift.refId
                     && gift.imageUrl == if c.imageUrls == [] then None else Some(c.imageUrls[0])
  {
    if gift.kind != WebIdea {
      var c := FirstCandidate(candidates, gift.kind, gift.refId).value;
      assert c in candidates;
    }
  }

  /** With nothing on offer, or nothing kept of it, the turn says which and goes back to the requirements. */
  lemma {:induction false} CurationEnds(s: State, a: Answers)
    ensures var after := Curate(s, a);
      && (s.candidates == [] && s.webIdeas == [] ==>
            after.outbound == s.outbound + [TextOut(NO_MATCH_TEXT)] && after.shortlist == []
            && after.stage == SlotFilling && after.route == Some(EndTurn))
      && ((s.candidates != [] || s.webIdeas != []) && (forall k :: 0 <= k < |a.curation| ==>
              !OnOffer(a.curation[k], s.candidates, s.webIdeas)) ==>
            after.outbound == s.outbound + [TextOut(UNSURE_TEXT)] && after.shortlist == []
            && after.stage == SlotFilling && after.route == Some(EndTurn))
      && ((exists k :: 0 <= k < |a.curation| && OnOffer(a.curation[k], s.candidates, s.webIdeas)) ==>
            after.outbound == s.outbound && after.shortlist != []
            && after.stage == Presenting && after.route == Some(ToPresent))
  {
    var n := |a.curation|;
    KeptInOrder(a.curation, s.candidates, s.webIdeas, n);
    OfferedIff(a.curation, s.candidates, s.webIdeas, n);
    SortingKeepsMembers(Kept(a.curation, s.candidates, s.webIdeas, n));
  }

  lemma {:induction false} OfferedIff(
    items: seq<CurationItem>, candidates: seq<Candidate>, webIdeas: seq<Idea>, n: nat)
    requires n <= |items|
    ensures Offered(items, candidates, webIdeas, n) != [] <==>
      exists k :: 0 <= k < n && OnOffer(items[k], candidates, webIdeas)
    ensures Offered(items, candidates, webIdeas, n) != [] ==> candidates != [] || webIdeas != []
  {
    if n > 0 {
      OfferedIff(items, candidates, webIdeas, n - 1);
    }
  }

  // ---- what the person is sent ----

  /** Presenting sends the introduction, every gift in the list, the two buttons and then the images, in that order. */
  lemma {:induction false} PresentSends(s: State)
    ensures var sent := Present(s).outbound;
      && |sent| == |s.outbound| + 3 + |Images(s.shortlist, |s.shortlist|)| && sent[..|s.outbound|] == s.outbound
      && sent[|s.outbound|].TextOut?
      && sent[|s.outbound| + 1].ListOut? && sent[|s.outbound| + 2].ButtonsOut?
      && sent[|s.outbound| + 3..] == Images(s.shortlist, |s.shortlist|)
    ensures var n := |s.outbound|; var sections := Present(s).outbound[n + 1].sections;
      Ids(AllRows(sections, |sections|))
        == GiftIds(s.shortlist, false, |s.shortlist|) + GiftIds(s.shortlist, true, |s.shortlist|)
    ensures var buttons := Present(s).outbound[|s.outbound| + 2].buttons;
      |buttons| == 2 && buttons[0].id == "action:more_options" && buttons[1].id == "action:refine_menu"
  {
    SectionsHoldRows(s.shortlist);
    RowsCarryIds(s.shortlist, false, |s.shortlist|);
    RowsCarryIds(s.shortlist, true, |s.shortlist|);
    IdsAppend(RowsOf(s.shortlist, false, |s.shortlist|), RowsOf(s.shortlist, true, |s.shortlist|));
  }

  /** A row shows its gift's title, and the reason it was chosen behind its price, if it has one. */
  lemma {:induction false} RowShows(gift: Gift)
    ensures RowOf(gift).title == gift.title && RowOf(gift).description.Some?
    ensures var text := RowOf(gift).description.value;
      && (gift.price.None? ==> text == gift.justification)
      && (gift.price.Some? ==>
            && PriceText(gift.price.value) <= text && |gift.justification| <= |text|
            && text[|text| - |gift.justification|..] == gift.justification)
  {
  }

  /** A refinement is acknowledged first; with no text to go by, as a wish for more options. */
  lemma {:induction false} RefinementIsAcknowledged(s: State, a: Answers)
    ensures var after := Refine(s, a);
      var wished := NonEmpty(s.refinement).Some? || NonEmpty(LatestHuman(s.messages)).Some?;
      after.outbound == s.outbound + [TextOut(AckText(if wished then a.refinement.adjustment else MoreOptions))]
  {
  }

  /** While something required is missing the question is sent and the slot asked first is noted. */
  lemma {:induction false} QuestionIsSent(s: State, a: Answers)
    ensures var after := Collect(s, a);
      && (Sufficient(after.slots) ==> after.outbound == s.outbound && after.stage == Searching)
      && (!Sufficient(after.slots) ==>
            && after.outbound == s.outbound + [TextOut(a.question)] && after.stage == SlotFilling
            && after.lastQuestion.Some? && after.lastQuestion.value in Missing(after.slots)
            && after.lastQuestion.value in {Occasion, RecipientCount, BudgetSignal})
      && after.missingSlots == Missing(after.slots)
  {
    var slots := Collect(s, a).slots;
    if !Sufficient(slots) {
      AsksForMissingRequired(slots);
      MissingIffUnfilled(slots, NextQuestion(Missing(slots)).0[0]);
    }
  }

  /** The addresses of the images among the first n gifts. */
  function ImageUrls(shortlist: seq<Gift>, n: nat): seq<string>
    requires n <= |shortlist|
  {
    if n == 0 then []
    else
      var url := shortlist[n - 1].imageUrl;
      ImageUrls(shortlist, n - 1) + if url.Some? && url.value != "" then [url.value] else []
  }

  function UrlsOf(images: seq<Outbound>): seq<string>
    requires forall i :: 0 <= i < |images| ==> images[i].ImageOut?
  {
    seq(|images|, i requires 0 <= i < |images| => images[i].url)
  }

  /** The images sent are those of the first two gifts that have one. */
  lemma {:induction false} ImagesAreFirstTwo(shortlist: seq<Gift>, n: nat)
    requires n <= |shortlist|
    ensures forall i :: 0 <= i < |Images(shortlist, n)| ==> Images(shortlist, n)[i].ImageOut?
    ensures UrlsOf(Images(shortlist, n)) == ImageUrls(shortlist, n)[..Min(2, |ImageUrls(shortlist, n)|)]
  {
    if n > 0 {
      ImagesAreFirstTwo(shortlist, n - 1);
    }
  }

  /** A price is told to the nearest whole amount. */
  lemma {:induction false} PriceTextIsNearest(price: real)
    ensures ParseInt(PriceText(price)).Some?
    ensures Money.Distance(ParseInt(PriceText(price)).value as real, price) <= 0.5
  {
    IntRoundTrip(Money.RoundHalfEven(price));
    NearestWithinHalf(price);
  }

  /** A confirmation names the gift and, if it has one, its price. */
  lemma {:induction false} ConfirmationNames(gift: Gift)
    ensures exists i: nat :: StandsAt(ConfirmationText(gift), gift.title, i)
    ensures gift.price.Some? ==> exists i: nat :: StandsAt(ConfirmationText(gift), PriceText(gift.price.value), i)
  {
    var text, lead := ConfirmationText(gift), "Great choice: ";
    assert text[|lead|..|lead| + |gift.title|] == gift.title;
    assert StandsAt(text, gift.title, |lead|);
    if gift.price.Some? {
      var price := PriceText(gift.price.value);
      var before := lead + gift.title + " (around ";
      assert text == before + price + " each)";
      assert text[|before|..|before| + |price|] == price;
      assert StandsAt(text, price, |before|);
    }
  }
}
