/**
 The gifting agent: its state, the seven nodes, and the graph they form. Whatever a language model, the
 catalogue search or the curation step answers is an arbitrary input (`Answers`); each node turns the
 state into the next one and names its route (app/agent/).
 */
module Agent {
  import opened Std
  import opened Text
  import opened Payload
  import opened SlotSchema
  import Money

  // ---- state ----

  datatype Stage = Greeting | SlotFilling | Searching | Curating | Presenting | Refining | Finalizing | Done

  datatype Kind = Product | GiftBox | WebIdea

  datatype Candidate = Candidate(kind: Kind, id: int, name: string, price: Option<real>, imageUrls: seq<string>)

  datatype Idea = Idea(title: string, summary: string, sourceUrl: string, sourceDomain: string)

  datatype Gift = Gift(
    rank: int, kind: Kind, refId: int, title: string, price: Option<real>, imageUrl: Option<string>,
    sourceUrl: Option<string>, justification: string, fitTags: seq<string>)

  datatype Message = Human(text: string) | Ai(text: string)

  datatype Button = Button(id: string, title: string)

  datatype Outbound =
    | TextOut(text: string)
    | ListOut(header: string, body: string, sections: seq<ListSection>)
    | ButtonsOut(body: string, buttons: seq<Button>)
    | ImageOut(url: string, caption: string)

  datatype Route = ToCollect | ToRefine | ToPresent | ToFinalize | ToSearch | ToCurate | EndTurn

  datatype State = State(
    whatsappNumber: string, sessionId: int, stage: Stage, messages: seq<Message>, slots: Slots,
    missingSlots: seq<SlotKey>, lastQuestion: Option<SlotKey>, candidates: seq<Candidate>, webIdeas: seq<Idea>,
    usedWebFallback: bool, shortlist: seq<Gift>, pendingAction: Option<string>, refinement: Option<string>,
    outbound: seq<Outbound>, error: Option<string>, route: Option<Route>)

  function NewState(whatsappNumber: string, sessionId: int): State {
    State(whatsappNumber, sessionId, Greeting, [], NO_SLOTS, PRIORITY, None, [], [], false,
          [], None, None, [], None, None)
  }

  // ---- answers from outside ----

  datatype Intent = NewRequest | ContinueSlotFilling | Refinement | Selection | GeneralQuestion | Smalltalk

  datatype SearchResult = SearchResult(merged: seq<Candidate>, webIdeas: seq<Idea>, usedWebFallback: bool)

  /** `ref` is the id the model gave, if it reads as an integer. */
  datatype CurationItem = CurationItem(
    rank: int, kind: Kind, ref: Option<int>, justification: string, fitTags: seq<string>)

  datatype Answers = Answers(
    intent: Intent, smalltalk: string, extracted: Extracted, question: string, refinement: RefinementIntent,
    search: SearchResult, curation: seq<CurationItem>, lower: string -> string)

  // ---- fixed wording ----

  const GREETING_TEXT := "Hi! I'm Gifty. To get started, what's the occasion you're gifting for?"
  const NO_MATCH_TEXT := "Hmm, I couldn't find a great match yet for what you've described."
  const UNSURE_TEXT := "I had trouble narrowing this down confidently."
  const WHICH_ONE_TEXT := "I want to make sure I note down the right one."

  function AckText(a: Adjustment): string {
    match a
    case Cheaper => "Let me find some more budget-friendly options."
    case Pricier => "Let me look at some more premium picks."
    case MoreRecipients => "Adjusting for your group size and searching again."
    case FewerRecipients => "Adjusting for your group size and searching again."
    case ThemeChange => "Let me look for options that match that vibe better."
    case BrandingChange => "Factoring that into the search."
    case MoreOptions => "Pulling together a few more options for you."
    case Other => "Let me take another look with that in mind."
  }

  /** A price without decimals, half to even. */
  function PriceText(price: real): string {
    IntToString(Money.RoundHalfEven(price))
  }

  function ConfirmationText(gift: Gift): string {
    "Great choice: " + gift.title
    + if gift.price.Some? then " (around " + PriceText(gift.price.value) + " each)" else ""
  }

  function IntroText(shortlist: seq<Gift>, slots: Slots, usedWebFallback: bool): string {
    "Here are " + IntToString(|shortlist|) + " gift ideas I'd suggest for "
    + (if slots.occasion.None? || slots.occasion == Some("") then "this" else slots.occasion.value)
    + if usedWebFallback && exists g :: g in shortlist && g.kind == WebIdea
      then ", a mix of items from our catalog and a few extra ideas."
      else " from our catalog."
  }

  // ---- shared steps ----

  function LatestHuman(messages: seq<Message>): Option<string> {
    if messages == [] then None
    else
      var last := messages[|messages| - 1];
      if last.Human? then Some(last.text) else LatestHuman(messages[..|messages| - 1])
  }

  function NonEmpty(text: Option<string>): Option<string> {
    if text == Some("") then None else text
  }

  function Say(s: State, text: string): State {
    s.(messages := s.messages + [Ai(text)], outbound := s.outbound + [TextOut(text)])
  }

  // ---- route_intent ----

  /** Where a tapped row or button leads; an unknown payload leads nowhere. */
  function TapRoute(pending: Option<string>): Option<Route> {
    if NonEmpty(pending).None? then None
    else
      var d := Decode(pending.value);
      if d.namespace_ == "gift" || d.namespace_ == "idea" then Some(ToFinalize)
      else if d.namespace_ != "action" then None
      else if d.action == "more_options" then Some(ToPresent)
      else if d.action == "refine" || d.action == "refine_menu" then Some(ToRefine)
      else if "confirm" <= d.action then Some(ToFinalize)
      else None
  }

  function RouteFreeText(s: State, a: Answers): State {
    var latest := NonEmpty(LatestHuman(s.messages));
    if (s.stage == Presenting || s.stage == Refining) && latest.Some? then
      match a.intent
      case Refinement => s.(route := Some(ToRefine), refinement := latest)
      case Selection => s.(route := Some(ToFinalize))
      case NewRequest => s.(route := Some(ToCollect), stage := SlotFilling, slots := NO_SLOTS)
      case GeneralQuestion => Say(s, a.smalltalk).(route := Some(EndTurn))
      case Smalltalk => Say(s, a.smalltalk).(route := Some(EndTurn))
      case ContinueSlotFilling => s.(route := Some(ToCollect))
    else s.(route := Some(ToCollect))
  }

  function RouteIntent(s: State, a: Answers): State {
    if s.stage == Greeting then
      Say(s, GREETING_TEXT).(stage := SlotFilling, missingSlots := PRIORITY, lastQuestion := Some(Occasion),
                             route := Some(EndTurn))
    else
      var tapped := TapRoute(s.pendingAction);
      if tapped.Some? then s.(route := tapped) else RouteFreeText(s, a)
  }

  // ---- collect_requirements ----

  function Collect(s: State, a: Answers): State {
    var slots := if NonEmpty(LatestHuman(s.messages)).Some? then Merge(s.slots, a.extracted, a.lower) else s.slots;
    var missing := Missing(slots);
    if Sufficient(slots) then
      s.(slots := slots, missingSlots := missing, stage := Searching, route := Some(ToSearch))
    else
      var keys := NextQuestion(missing).0;
      Say(s, a.question).(slots := slots, missingSlots := missing,
                          lastQuestion := if keys == [] then None else Some(keys[0]),
                          stage := SlotFilling, route := Some(EndTurn))
  }

  // ---- search_catalog ----

  function Search(s: State, a: Answers): State {
    s.(candidates := a.search.merged, webIdeas := a.search.webIdeas, usedWebFallback := a.search.usedWebFallback,
       stage := Curating, route := Some(ToCurate))
  }

  // ---- curate_recommendations ----

  function FirstCandidate(candidates: seq<Candidate>, kind: Kind, id: int): (found: Option<Candidate>)
    ensures found.Some? ==> found.value in candidates && found.value.kind == kind && found.value.id == id
    ensures found.None? ==> forall c :: c in candidates ==> c.kind != kind || c.id != id
  {
    if candidates == [] then None
    else if candidates[0].kind == kind && candidates[0].id == id then Some(candidates[0])
    else FirstCandidate(candidates[1..], kind, id)
  }

  /** A gift for a real candidate or web idea; none for any other id. */
  function ToRankedGift(item: CurationItem, ref: int, candidates: seq<Candidate>, webIdeas: seq<Idea>): Option<Gift> {
    if item.kind == WebIdea then
      if ref < 0 || ref >= |webIdeas| then None
      else Some(Gift(item.rank, WebIdea, ref, webIdeas[ref].title, None, None, Some(webIdeas[ref].sourceUrl),
                     item.justification, item.fitTags))
    else
      var found := FirstCandidate(candidates, item.kind, ref);
      if found.None? then None
      else
        var images := found.value.imageUrls;
        Some(Gift(item.rank, item.kind, ref, found.value.name, found.value.price,
                  if images == [] then None else Some(images[0]), None, item.justification, item.fitTags))
  }

  predicate ValidKey(kind: Kind, ref: int, candidates: seq<Candidate>, webIdeas: seq<Idea>) {
    (exists c :: c in candidates && c.kind == kind && c.id == ref) || (kind == WebIdea && 0 <= ref < |webIdeas|)
  }

  /** The gifts kept from the first n items; ids that are no integer or not on offer are dropped. */
  function Kept(items: seq<CurationItem>, candidates: seq<Candidate>, webIdeas: seq<Idea>, n: nat): seq<Gift>
    requires n <= |items|
  {
    if n == 0 then []
    else
      var before := Kept(items, candidates, webIdeas, n - 1);
      var item := items[n - 1];
      if item.ref.None? || !ValidKey(item.kind, item.ref.value, candidates, webIdeas) then before
      else
        var gift := ToRankedGift(item, item.ref.value, candidates, webIdeas);
        if gift.None? then before else before + [gift.value]
  }

  /** The gift is exactly what validation makes of a candidate or idea in this very state. */
  ghost predicate Backed(gift: Gift, candidates: seq<Candidate>, webIdeas: seq<Idea>) {
    ToRankedGift(CurationItem(gift.rank, gift.kind, Some(gift.refId), gift.justification, gift.fitTags),
                 gift.refId, candidates, webIdeas) == Some(gift)
  }

  ghost predicate AllBacked(gifts: seq<Gift>, candidates: seq<Candidate>, webIdeas: seq<Idea>) {
    forall g :: g in gifts ==> Backed(g, candidates, webIdeas)
  }

  lemma {:induction false} KeptAreBacked(items: seq<CurationItem>, candidates: seq<Candidate>,
      webIdeas: seq<Idea>, n: nat)
    requires n <= |items|
    ensures forall g :: g in Kept(items, candidates, webIdeas, n) ==> Backed(g, candidates, webIdeas)
    ensures |Kept(items, candidates, webIdeas, n)| <= n
  {
    if n > 0 {
      KeptAreBacked(items, candidates, webIdeas, n - 1);
    }
  }

  /** The item names, by kind and integer id, something on offer. */
  predicate OnOffer(item: CurationItem, candidates: seq<Candidate>, webIdeas: seq<Idea>) {
    item.ref.Some? && ValidKey(item.kind, item.ref.value, candidates, webIdeas)
      && (item.kind == WebIdea ==> 0 <= item.ref.value < |webIdeas|)
  }

  /** Nothing on offer is dropped. */
  lemma {:induction false} OfferedAreKept(
    items: seq<CurationItem>, candidates: seq<Candidate>, webIdeas: seq<Idea>, n: nat, k: nat)
    requires k < n <= |items| && OnOffer(items[k], candidates, webIdeas)
    ensures exists g :: g in Kept(items, candidates, webIdeas, n)
                        && g.kind == items[k].kind && g.refId == items[k].ref.value && g.rank == items[k].rank
  {
    if k < n - 1 {
      OfferedAreKept(items, candidates, webIdeas, n - 1, k);
    } else {
      var gift := ToRankedGift(items[k], items[k].ref.value, candidates, webIdeas);
      assert gift.Some?;
      assert gift.value in Kept(items, candidates, webIdeas, n);
    }
  }

  /** The validating loop as written: what it keeps is real, and nothing on offer is dropped. */
  method KeepReal(items: seq<CurationItem>, candidates: seq<Candidate>, webIdeas: seq<Idea>)
    returns (shortlist: seq<Gift>)
    ensures shortlist == Kept(items, candidates, webIdeas, |items|)
    ensures AllBacked(shortlist, candidates, webIdeas)
    ensures forall k :: 0 <= k < |items| && OnOffer(items[k], candidates, webIdeas) ==>
      exists g :: g in shortlist && g.kind == items[k].kind && g.refId == items[k].ref.value && g.rank == items[k].rank
  {
    shortlist := [];
    for n := 0 to |items|
      invariant shortlist == Kept(items, candidates, webIdeas, n)
    {
      var item := items[n];
      if item.ref.None? {
        continue;
      }
      if !ValidKey(item.kind, item.ref.value, candidates, webIdeas) {
        continue;
      }
      var ranked := ToRankedGift(item, item.ref.value, candidates, webIdeas);
      if ranked.Some? {
        shortlist := shortlist + [ranked.value];
      }
    }
    KeptAreBacked(items, candidates, webIdeas, |items|);
    forall k | 0 <= k < |items| && OnOffer(items[k], candidates, webIdeas)
      ensures exists g :: g in shortlist && g.kind == items[k].kind && g.refId == items[k].ref.value
                          && g.rank == items[k].rank
    {
      OfferedAreKept(items, candidates, webIdeas, |items|, k);
    }
  }

  function InsertByRank(gift: Gift, sorted: seq<Gift>): (r: seq<Gift>)
    ensures multiset(r) == multiset([gift]) + multiset(sorted)
  {
    if sorted == [] || sorted[|sorted| - 1].rank <= gift.rank then sorted + [gift]
    else
      assert sorted == sorted[..|sorted| - 1] + [sorted[|sorted| - 1]];
      InsertByRank(gift, sorted[..|sorted| - 1]) + [sorted[|sorted| - 1]]
  }

  /** Stable sort by rank. */
  function SortByRank(gifts: seq<Gift>): (r: seq<Gift>)
    ensures multiset(r) == multiset(gifts)
  {
    if gifts == [] then []
    else
      assert gifts == gifts[..|gifts| - 1] + [gifts[|gifts| - 1]];
      InsertByRank(gifts[|gifts| - 1], SortByRank(gifts[..|gifts| - 1]))
  }

  function EmptyShortlist(s: State, text: string): State {
    Say(s, text).(shortlist := [], stage := SlotFilling, route := Some(EndTurn))
  }

  function Curate(s: State, a: Answers): State {
    if s.candidates == [] && s.webIdeas == [] then EmptyShortlist(s, NO_MATCH_TEXT)
    else
      var kept := Kept(a.curation, s.candidates, s.webIdeas, |a.curation|);
      if kept == [] then EmptyShortlist(s, UNSURE_TEXT)
      else s.(shortlist := SortByRank(kept), stage := Presenting, route := Some(ToPresent))
  }

  // ---- present_options ----

  function NamespaceOf(kind: Kind): string {
    if kind == WebIdea then "idea" else "gift"
  }

  function ActionOf(kind: Kind): string {
    match kind
    case Product => "product"
    case GiftBox => "giftbox"
    case WebIdea => "web"
  }

  function RowId(gift: Gift): string {
    Encode(NamespaceOf(gift.kind), ActionOf(gift.kind), IntToString(gift.refId))
  }

  function RowOf(gift: Gift): ListRow {
    ListRow(RowId(gift), gift.title,
            Some(if gift.price.Some? then PriceText(gift.price.value) + " - " + gift.justification
                 else gift.justification))
  }

  /** Rows of the first n gifts that are, or are not, web ideas. */
  function RowsOf(shortlist: seq<Gift>, ideas: bool, n: nat): seq<ListRow>
    requires n <= |shortlist|
  {
    if n == 0 then []
    else
      RowsOf(shortlist, ideas, n - 1)
      + if (shortlist[n - 1].kind == WebIdea) == ideas then [RowOf(shortlist[n - 1])] else []
  }

  const CATALOG_TITLE := "From our catalog"
  const IDEAS_TITLE := "More ideas"

  function Sections(shortlist: seq<Gift>): seq<ListSection> {
    var catalog, ideas := RowsOf(shortlist, false, |shortlist|), RowsOf(shortlist, true, |shortlist|);
    (if catalog == [] then [] else [ListSection(CATALOG_TITLE, catalog)])
    + (if ideas == [] then [] else [ListSection(IDEAS_TITLE, ideas)])
  }

  /** One of the sections has that title and holds that row. */
  ghost predicate Listed(sections: seq<ListSection>, title: string, row: ListRow) {
    exists i :: 0 <= i < |sections| && sections[i].title == title && row in sections[i].rows
  }

  /** The gift's row stands under the heading of its kind. */
  ghost predicate GiftListed(sections: seq<ListSection>, gift: Gift) {
    Listed(sections, if gift.kind == WebIdea then IDEAS_TITLE else CATALOG_TITLE, RowOf(gift))
  }

  /** The row of a gift is in the pile of its kind. */
  lemma {:induction false} HasRow(shortlist: seq<Gift>, n: nat, k: nat)
    requires k < n <= |shortlist|
    ensures RowOf(shortlist[k]) in RowsOf(shortlist, shortlist[k].kind == WebIdea, n)
  {
    var ideas := shortlist[k].kind == WebIdea;
    if k < n - 1 {
      HasRow(shortlist, n - 1, k);
      assert RowsOf(shortlist, ideas, n - 1) <= RowsOf(shortlist, ideas, n);
    } else {
      assert RowsOf(shortlist, ideas, n) == RowsOf(shortlist, ideas, n - 1) + [RowOf(shortlist[k])];
    }
  }

  lemma {:induction false} AsManyRows(shortlist: seq<Gift>, n: nat)
    requires n <= |shortlist|
    ensures |RowsOf(shortlist, false, n)| + |RowsOf(shortlist, true, n)| == n
  {
    if n > 0 {
      AsManyRows(shortlist, n - 1);
    }
  }

  /** Rows of one pile all come under its own heading. */
  lemma {:induction false} SectionOf(shortlist: seq<Gift>, ideas: bool, row: ListRow)
    requires row in RowsOf(shortlist, ideas, |shortlist|)
    ensures Listed(Sections(shortlist), if ideas then IDEAS_TITLE else CATALOG_TITLE, row)
  {
    var sections := Sections(shortlist);
    assert sections[if ideas then |sections| - 1 else 0].rows == RowsOf(shortlist, ideas, |shortlist|);
  }

  lemma {:induction false} RowsOfOne(a: ListSection)
    ensures AllRows([a], 1) == a.rows
  {
    assert AllRows([a], 0) == [];
  }

  lemma {:induction false} RowsOfTwo(a: ListSection, b: ListSection)
    ensures AllRows([a, b], 2) == a.rows + b.rows
  {
    assert AllRows([a, b], 0) == [];
    assert AllRows([a, b], 1) == a.rows;
  }

  lemma {:induction false} SectionsHoldRows(shortlist: seq<Gift>)
    ensures |Sections(shortlist)| <= 2
    ensures AllRows(Sections(shortlist), |Sections(shortlist)|)
      == RowsOf(shortlist, false, |shortlist|) + RowsOf(shortlist, true, |shortlist|)
  {
    var catalog, ideas := RowsOf(shortlist, false, |shortlist|), RowsOf(shortlist, true, |shortlist|);
    if catalog != [] && ideas != [] {
      RowsOfTwo(ListSection(CATALOG_TITLE, catalog), ListSection(IDEAS_TITLE, ideas));
      assert Sections(shortlist) == [ListSection(CATALOG_TITLE, catalog), ListSection(IDEAS_TITLE, ideas)];
    } else if catalog != [] {
      RowsOfOne(ListSection(CATALOG_TITLE, catalog));
      assert Sections(shortlist) == [ListSection(CATALOG_TITLE, catalog)];
    } else if ideas != [] {
      RowsOfOne(ListSection(IDEAS_TITLE, ideas));
      assert Sections(shortlist) == [ListSection(IDEAS_TITLE, ideas)];
    } else {
      assert AllRows([], 0) == [];
    }
  }

  lemma {:induction false} SectionsListGifts(shortlist: seq<Gift>)
    ensures |AllRows(Sections(shortlist), |Sections(shortlist)|)| == |shortlist|
    ensures forall k :: 0 <= k < |shortlist| ==> GiftListed(Sections(shortlist), shortlist[k])
  {
    AsManyRows(shortlist, |shortlist|);
    SectionsHoldRows(shortlist);
    forall k | 0 <= k < |shortlist| ensures GiftListed(Sections(shortlist), shortlist[k]) {
      HasRow(shortlist, |shortlist|, k);
      SectionOf(shortlist, shortlist[k].kind == WebIdea, RowOf(shortlist[k]));
    }
  }

  /** The list builder as written: one pass, two piles, no gift lost or listed twice. */
  method BuildListSections(shortlist: seq<Gift>) returns (sections: seq<ListSection>)
    ensures sections == Sections(shortlist)
    ensures |AllRows(sections, |sections|)| == |shortlist|
    ensures forall k :: 0 <= k < |shortlist| ==> GiftListed(sections, shortlist[k])
  {
    var catalogRows: seq<ListRow>, ideaRows: seq<ListRow> := [], [];
    for n := 0 to |shortlist|
      invariant catalogRows == RowsOf(shortlist, false, n) && ideaRows == RowsOf(shortlist, true, n)
    {
      var row := RowOf(shortlist[n]);
      if shortlist[n].kind == WebIdea {
        ideaRows := ideaRows + [row];
      } else {
        catalogRows := catalogRows + [row];
      }
    }
    assert catalogRows == RowsOf(shortlist, false, |shortlist|) && ideaRows == RowsOf(shortlist, true, |shortlist|);
    sections := [];
    if catalogRows != [] {
      sections := sections + [ListSection(CATALOG_TITLE, catalogRows)];
    }
    if ideaRows != [] {
      sections := sections + [ListSection(IDEAS_TITLE, ideaRows)];
    }
    assert sections == Sections(shortlist);
    SectionsListGifts(shortlist);
  }

  const MAX_IMAGES := 2

  function Images(shortlist: seq<Gift>, n: nat): seq<Outbound>
    requires n <= |shortlist|
  {
    if n == 0 then []
    else
      var before := Images(shortlist, n - 1);
      var gift := shortlist[n - 1];
      if NonEmpty(gift.imageUrl).Some? && |before| < MAX_IMAGES
      then before + [ImageOut(gift.imageUrl.value,
                              gift.title + if gift.price.Some? then " - " + PriceText(gift.price.value) else "")]
      else before
  }

  function Present(s: State): State {
    var intro := IntroText(s.shortlist, s.slots, s.usedWebFallback);
    Say(s, intro).(
      outbound := s.outbound
        + [TextOut(intro),
           ListOut("Your gift shortlist", "Pick an option below.", Sections(s.shortlist)),
           ButtonsOut("Want me to keep going?",
                      [Button("action:more_options", "More options"), Button("action:refine_menu", "Refine these")])]
        + Images(s.shortlist, |s.shortlist|),
      stage := Presenting, route := Some(EndTurn))
  }

  // ---- handle_refinement ----

  function Refine(s: State, a: Answers): State {
    var text := if NonEmpty(s.refinement).Some? then s.refinement else NonEmpty(LatestHuman(s.messages));
    var slots := if text.None? then s.slots else ApplyRefinement(s.slots, a.refinement, a.lower);
    var ack := AckText(if text.None? then MoreOptions else a.refinement.adjustment);
    Say(s, ack).(slots := slots, stage := Refining, refinement := None, route := Some(ToSearch))
  }

  // ---- finalize_selection ----

  function FindGift(shortlist: seq<Gift>, matches: Gift -> bool): (found: Option<Gift>)
    ensures found.Some? ==> found.value in shortlist && matches(found.value)
    ensures found.None? ==> forall g :: g in shortlist ==> !matches(g)
  {
    if shortlist == [] then None
    else if matches(shortlist[0]) then Some(shortlist[0])
    else FindGift(shortlist[1..], matches)
  }

  function TappedKind(d: Decoded): Kind {
    if d.namespace_ == "idea" then WebIdea else if d.action == "giftbox" then GiftBox else Product
  }

  /** The gift a payload names: by kind and id, or by id alone for a confirmation. */
  function NamedGift(shortlist: seq<Gift>, pending: string): Option<Gift> {
    var d := Decode(pending);
    var ref := if d.ref.Some? then ParseInt(d.ref.value) else None;
    if ref.None? then None
    else if d.namespace_ == "gift" || d.namespace_ == "idea" then
      FindGift(shortlist, (g: Gift) => g.kind == TappedKind(d) && g.refId == ref.value)
    else if d.namespace_ == "action" && "confirm" <= d.action then
      FindGift(shortlist, (g: Gift) => g.refId == ref.value)
    else None
  }

  /** The tapped gift; while presenting, failing that the top-ranked one. */
  function ResolveSelected(s: State): Option<Gift> {
    if s.shortlist == [] then None
    else
      var named := if NonEmpty(s.pendingAction).Some? then NamedGift(s.shortlist, s.pendingAction.value) else None;
      if named.Some? then named
      else if s.stage == Presenting then Some(s.shortlist[0])
      else None
  }

  function Finalize(s: State): State {
    var selected := ResolveSelected(s);
    if selected.None? then Say(s, WHICH_ONE_TEXT).(route := Some(EndTurn))
    else Say(s, ConfirmationText(selected.value)).(stage := Done, pendingAction := None, route := Some(EndTurn))
  }

  // ---- the graph ----

  datatype Node = RouteIntentNode | CollectNode | SearchNode | CurateNode | PresentNode | RefineNode | FinalizeNode

  /** The declared edges; no node means the turn is over. */
  function Edges(n: Node): map<Route, Option<Node>> {
    match n
    case RouteIntentNode =>
      map[ToCollect := Some(CollectNode), ToRefine := Some(RefineNode), ToPresent := Some(PresentNode),
          ToFinalize := Some(FinalizeNode), EndTurn := None]
    case CollectNode => map[ToSearch := Some(SearchNode), EndTurn := None]
    case SearchNode => map[ToCurate := Some(CurateNode)]
    case CurateNode => map[ToPresent := Some(PresentNode), EndTurn := None]
    case PresentNode => map[EndTurn := None]
    case RefineNode => map[ToSearch := Some(SearchNode)]
    case FinalizeNode => map[EndTurn := None]
  }

  /** Every node routes along a declared edge, whatever the answers. */
  function NodeStep(n: Node, s: State, a: Answers): (r: State)
    ensures r.route.Some? && r.route.value in Edges(n)
  {
    match n
    case RouteIntentNode => RouteIntent(s, a)
    case CollectNode => Collect(s, a)
    case SearchNode => Search(s, a)
    case CurateNode => Curate(s, a)
    case PresentNode => Present(s)
    case RefineNode => Refine(s, a)
    case FinalizeNode => Finalize(s)
  }

  function Rank(n: Node): nat {
    match n
    case RouteIntentNode => 4
    case CollectNode => 3
    case RefineNode => 3
    case SearchNode => 2
    case CurateNode => 1
    case PresentNode => 0
    case FinalizeNode => 0
  }

  function NextNode(n: Node, s: State): (next: Option<Node>)
    requires s.route.Some? && s.route.value in Edges(n)
    ensures next.Some? ==> Rank(next.value) < Rank(n)
  {
    Edges(n)[s.route.value]
  }

  /** Runs from a node to the end of the turn; also tells which nodes ran. No fuel: the rank decreases. */
  function RunFrom(n: Node, s: State, a: Answers): (r: (State, seq<Node>))
    ensures 1 <= |r.1| <= Rank(n) + 1
    decreases Rank(n)
  {
    var after := NodeStep(n, s, a);
    var next := NextNode(n, after);
    if next.None? then (after, [n])
    else
      var (end, nodes) := RunFrom(next.value, after, a);
      (end, [n] + nodes)
  }

  const RECURSION_LIMIT := 25

  /** Every turn ends after at most five nodes, below the recursion limit. */
  lemma {:induction false} TurnsTerminate(s: State, a: Answers)
    ensures |RunFrom(RouteIntentNode, s, a).1| <= 5 < RECURSION_LIMIT
  {
  }
}
