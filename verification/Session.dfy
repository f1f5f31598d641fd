/**
 Between turns the state lives as JSON in the session row: saving, the three ways of loading, and whole
 conversations (app/services/session_service.py, app/services/conversation_orchestrator.py).
 */
module Session {
  import opened Std
  import opened SlotSchema
  import opened Agent
  import opened AgentLaws

  // ---- JSON ----

  /** `Dec` is a decimal, written as its text or as a JSON number. */
  datatype Json =
    | Null | Bool(b: bool) | Int(n: int) | Dec(x: real) | Str(s: string)
    | Arr(items: seq<Json>) | Obj(fields: map<string, Json>)

  function Get(j: Json, key: string): Json {
    if j.Obj? && key in j.fields then j.fields[key] else Null
  }

  /** Python truth: null, false, zero and anything empty count as false. */
  predicate Truthy(j: Json) {
    match j
    case Null => false
    case Bool(b) => b
    case Int(n) => n != 0
    case Dec(x) => x != 0.0
    case Str(s) => s != ""
    case Arr(items) => items != []
    case Obj(fields) => fields != map[]
  }

  function Or(j: Json, default: Json): Json {
    if Truthy(j) then j else default
  }

  function ToArr<T>(xs: seq<T>, enc: T -> Json): Json {
    Arr(seq(|xs|, i requires 0 <= i < |xs| => enc(xs[i])))
  }

  function FromArr<T>(j: Json, dec: Json -> T): seq<T> {
    if j.Arr? then seq(|j.items|, i requires 0 <= i < |j.items| => dec(j.items[i])) else []
  }

  lemma {:induction false} ArrRoundTrip<T>(xs: seq<T>, enc: T -> Json, dec: Json -> T)
    requires forall x :: x in xs ==> dec(enc(x)) == x
    ensures FromArr(Or(ToArr(xs, enc), Arr([])), dec) == xs
    ensures FromArr(ToArr(xs, enc), dec) == xs
  {
  }

  function EncText(t: string): Json { Str(t) }
  function DecText(j: Json): string { if j.Str? then j.s else "" }
  function EncOptText(t: Option<string>): Json { if t.Some? then Str(t.value) else Null }
  function DecOptText(j: Json): Option<string> { if j.Str? then Some(j.s) else None }
  function EncOptInt(t: Option<int>): Json { if t.Some? then Int(t.value) else Null }
  function DecOptInt(j: Json): Option<int> { if j.Int? then Some(j.n) else None }
  function EncOptDec(t: Option<real>): Json { if t.Some? then Dec(t.value) else Null }
  function DecOptDec(j: Json): Option<real> { if j.Dec? then Some(j.x) else None }
  function EncOptBool(t: Option<bool>): Json { if t.Some? then Bool(t.value) else Null }
  function DecOptBool(j: Json): Option<bool> { if j.Bool? then Some(j.b) else None }
  function DecInt(j: Json): int { if j.Int? then j.n else 0 }

  // ---- each part of the state ----

  function EncStage(s: Stage): Json {
    Str(match s
        case Greeting => "greeting" case SlotFilling => "slot_filling" case Searching => "searching"
        case Curating => "curating" case Presenting => "presenting" case Refining => "refining"
        case Finalizing => "finalizing" case Done => "done")
  }

  function DecStage(j: Json): Stage {
    if j == Str("slot_filling") then SlotFilling
    else if j == Str("searching") then Searching
    else if j == Str("curating") then Curating
    else if j == Str("presenting") then Presenting
    else if j == Str("refining") then Refining
    else if j == Str("finalizing") then Finalizing
    else if j == Str("done") then Done
    else Greeting
  }

  function EncMessage(m: Message): Json {
    Obj(map["type" := Str(if m.Human? then "human" else "ai"), "content" := Str(m.text)])
  }

  function DecMessage(j: Json): Message {
    if Get(j, "type") == Str("human") then Human(DecText(Get(j, "content"))) else Ai(DecText(Get(j, "content")))
  }

  function EncSlots(s: Slots): Json {
    Obj(map["occasion" := EncOptText(s.occasion), "recipient_count" := EncOptInt(s.recipientCount),
            "budget_per_recipient" := EncOptDec(s.budgetPerRecipient), "total_budget" := EncOptDec(s.totalBudget),
            "theme_preferences" := ToArr(s.themePreferences, EncText),
            "branding_needed" := EncOptBool(s.brandingNeeded),
            "delivery_city" := EncOptText(s.deliveryCity), "delivery_timeline" := EncOptText(s.deliveryTimeline),
            "organization_hint" := EncOptText(s.organizationHint)])
  }

  function DecSlots(j: Json): Slots {
    Slots(DecOptText(Get(j, "occasion")), DecOptInt(Get(j, "recipient_count")),
          DecOptDec(Get(j, "budget_per_recipient")), DecOptDec(Get(j, "total_budget")),
          FromArr(Get(j, "theme_preferences"), DecText), DecOptBool(Get(j, "branding_needed")),
          DecOptText(Get(j, "delivery_city")), DecOptText(Get(j, "delivery_timeline")),
          DecOptText(Get(j, "organization_hint")))
  }

  function EncKey(k: SlotKey): Json {
    Str(match k
        case Occasion => "occasion" case RecipientCount => "recipient_count" case BudgetSignal => "budget_signal"
        case ThemePreferences => "theme_preferences" case BrandingNeeded => "branding_needed"
        case DeliveryCity => "delivery_city" case DeliveryTimeline => "delivery_timeline")
  }

  function DecKey(j: Json): SlotKey {
    if j == Str("recipient_count") then RecipientCount
    else if j == Str("budget_signal") then BudgetSignal
    else if j == Str("theme_preferences") then ThemePreferences
    else if j == Str("branding_needed") then BrandingNeeded
    else if j == Str("delivery_city") then DeliveryCity
    else if j == Str("delivery_timeline") then DeliveryTimeline
    else Occasion
  }

  function EncOptKey(k: Option<SlotKey>): Json { if k.Some? then EncKey(k.value) else Null }
  function DecOptKey(j: Json): Option<SlotKey> { if j.Str? then Some(DecKey(j)) else None }

  function EncKind(k: Kind): Json {
    Str(match k case Product => "product" case GiftBox => "gift_box" case WebIdea => "web_idea")
  }

  function DecKind(j: Json): Kind {
    if j == Str("gift_box") then GiftBox else if j == Str("web_idea") then WebIdea else Product
  }

  function EncCandidate(c: Candidate): Json {
    Obj(map["kind" := EncKind(c.kind), "id" := Int(c.id), "name" := Str(c.name), "price" := EncOptDec(c.price),
            "image_urls" := ToArr(c.imageUrls, EncText)])
  }

  function DecCandidate(j: Json): Candidate {
    Candidate(DecKind(Get(j, "kind")), DecInt(Get(j, "id")), DecText(Get(j, "name")), DecOptDec(Get(j, "price")),
              FromArr(Get(j, "image_urls"), DecText))
  }

  function EncIdea(i: Idea): Json {
    Obj(map["title" := Str(i.title), "summary" := Str(i.summary), "source_url" := Str(i.sourceUrl),
            "source_domain" := Str(i.sourceDomain)])
  }

  function DecIdea(j: Json): Idea {
    Idea(DecText(Get(j, "title")), DecText(Get(j, "summary")), DecText(Get(j, "source_url")),
         DecText(Get(j, "source_domain")))
  }

  function EncGift(g: Gift): Json {
    Obj(map["rank" := Int(g.rank), "kind" := EncKind(g.kind), "ref_id" := Int(g.refId), "title" := Str(g.title),
            "price" := EncOptDec(g.price), "image_url" := EncOptText(g.imageUrl),
            "source_url" := EncOptText(g.sourceUrl),
            "justification" := Str(g.justification), "fit_tags" := ToArr(g.fitTags, EncText)])
  }

  function DecGift(j: Json): Gift {
    Gift(DecInt(Get(j, "rank")), DecKind(Get(j, "kind")), DecInt(Get(j, "ref_id")), DecText(Get(j, "title")),
         DecOptDec(Get(j, "price")), DecOptText(Get(j, "image_url")), DecOptText(Get(j, "source_url")),
         DecText(Get(j, "justification")), FromArr(Get(j, "fit_tags"), DecText))
  }

  // ---- saving and loading ----

  function Serialize(s: State): Json {
    Obj(map["stage" := EncStage(s.stage), "messages" := ToArr(s.messages, EncMessage), "slots" := EncSlots(s.slots),
            "missing_slots" := ToArr(s.missingSlots, EncKey), "last_question_asked" := EncOptKey(s.lastQuestion),
            "candidates" := ToArr(s.candidates, EncCandidate), "web_ideas" := ToArr(s.webIdeas, EncIdea),
            "used_web_fallback" := Bool(s.usedWebFallback), "shortlist" := ToArr(s.shortlist, EncGift),
            "error" := EncOptText(s.error)])
  }

  const HISTORY_LIMIT := 6

  function LastSix(messages: seq<Message>): seq<Message> {
    messages[Max(0, |messages| - HISTORY_LIMIT)..]
  }

  function Messages(raw: Json): seq<Message> {
    FromArr(Or(Get(raw, "messages"), Arr([])), DecMessage)
  }

  function Deserialize(raw: Json, whatsappNumber: string, sessionId: int): State {
    State(whatsappNumber, sessionId, DecStage(Get(raw, "stage")), Messages(raw),
          DecSlots(Or(Get(raw, "slots"), Obj(map[]))),
          FromArr(Or(Get(raw, "missing_slots"), ToArr(PRIORITY, EncKey)), DecKey),
          DecOptKey(Get(raw, "last_question_asked")),
          FromArr(Or(Get(raw, "candidates"), Arr([])), DecCandidate),
          FromArr(Or(Get(raw, "web_ideas"), Arr([])), DecIdea),
          Truthy(Get(raw, "used_web_fallback")),
          FromArr(Or(Get(raw, "shortlist"), Arr([])), DecGift),
          None, None, [], None, None)
  }

  /** Nothing stored: a new need. A finished one: a fresh need with recent history. Else: where it left off. */
  function Load(raw: Json, whatsappNumber: string, sessionId: int): State {
    if !Truthy(raw) || !Truthy(Get(raw, "stage")) then NewState(whatsappNumber, sessionId)
    else if Get(raw, "stage") == Str("done") then
      NewState(whatsappNumber, sessionId).(messages := LastSix(Messages(raw)), stage := SlotFilling)
    else Deserialize(raw, whatsappNumber, sessionId)
  }

  // ---- round trip ----

  /** Every slot under its own name. */
  lemma {:induction false} SlotFields(s: Slots)
    ensures var j := EncSlots(s);
      && Get(j, "occasion") == EncOptText(s.occasion) && Get(j, "recipient_count") == EncOptInt(s.recipientCount)
      && Get(j, "budget_per_recipient") == EncOptDec(s.budgetPerRecipient)
      && Get(j, "total_budget") == EncOptDec(s.totalBudget)
      && Get(j, "theme_preferences") == ToArr(s.themePreferences, EncText)
      && Get(j, "branding_needed") == EncOptBool(s.brandingNeeded)
      && Get(j, "delivery_city") == EncOptText(s.deliveryCity)
      && Get(j, "delivery_timeline") == EncOptText(s.deliveryTimeline)
      && Get(j, "organization_hint") == EncOptText(s.organizationHint)
    ensures Truthy(EncSlots(s))
  {
    assert "occasion" in EncSlots(s).fields;
  }

  lemma {:induction false} SlotsRoundTrip(s: Slots)
    ensures DecSlots(EncSlots(s)) == s
  {
    SlotFields(s);
    ArrRoundTrip(s.themePreferences, EncText, DecText);
  }

  lemma {:induction false} CandidateRoundTrip(c: Candidate)
    ensures DecCandidate(EncCandidate(c)) == c
  {
    ArrRoundTrip(c.imageUrls, EncText, DecText);
  }

  lemma {:induction false} GiftRoundTrip(g: Gift)
    ensures DecGift(EncGift(g)) == g
  {
    ArrRoundTrip(g.fitTags, EncText, DecText);
  }

  /** What loading makes of a state that was just saved: transient fields cleared, no empty list of missing slots. */
  function Resumed(s: State): State {
    s.(missingSlots := if s.missingSlots == [] then PRIORITY else s.missingSlots,
       pendingAction := None, refinement := None, outbound := [], error := None, route := None)
  }

  lemma {:induction false} SequencesRoundTrip(s: State)
    ensures Messages(Serialize(s)) == s.messages
    ensures FromArr(Or(Get(Serialize(s), "candidates"), Arr([])), DecCandidate) == s.candidates
    ensures FromArr(Or(Get(Serialize(s), "web_ideas"), Arr([])), DecIdea) == s.webIdeas
    ensures FromArr(Or(Get(Serialize(s), "shortlist"), Arr([])), DecGift) == s.shortlist
  {
    ArrRoundTrip(s.messages, EncMessage, DecMessage);
    forall c | c in s.candidates ensures DecCandidate(EncCandidate(c)) == c { CandidateRoundTrip(c); }
    ArrRoundTrip(s.candidates, EncCandidate, DecCandidate);
    ArrRoundTrip(s.webIdeas, EncIdea, DecIdea);
    forall g | g in s.shortlist ensures DecGift(EncGift(g)) == g { GiftRoundTrip(g); }
    ArrRoundTrip(s.shortlist, EncGift, DecGift);
  }

  lemma {:induction false} KeyRoundTrip(key: SlotKey)
    ensures DecKey(EncKey(key)) == key
  {
  }

  lemma {:induction false} MissingRoundTrip(s: State)
    ensures FromArr(Or(Get(Serialize(s), "missing_slots"), ToArr(PRIORITY, EncKey)), DecKey) == Resumed(s).missingSlots
  {
    forall key ensures DecKey(EncKey(key)) == key { KeyRoundTrip(key); }
    ArrRoundTrip(s.missingSlots, EncKey, DecKey);
    ArrRoundTrip(PRIORITY, EncKey, DecKey);
  }

  lemma {:induction false} ScalarsRoundTrip(s: State)
    ensures var raw := Serialize(s);
      && DecStage(Get(raw, "stage")) == s.stage && Truthy(Get(raw, "stage"))
      && DecOptKey(Get(raw, "last_question_asked")) == s.lastQuestion
      && Truthy(Get(raw, "used_web_fallback")) == s.usedWebFallback
      && (Get(raw, "stage") == Str("done") <==> s.stage == Done)
  {
    assert Get(Serialize(s), "stage") == EncStage(s.stage);
    assert Get(Serialize(s), "last_question_asked") == EncOptKey(s.lastQuestion);
    if s.lastQuestion.Some? {
      assert DecKey(EncKey(s.lastQuestion.value)) == s.lastQuestion.value;
    }
  }

  lemma {:induction false} DeserializeSerialize(s: State)
    ensures Deserialize(Serialize(s), s.whatsappNumber, s.sessionId) == Resumed(s)
  {
    ScalarsRoundTrip(s);
    SequencesRoundTrip(s);
    MissingRoundTrip(s);
    StoredSlots(s);
  }

  lemma {:induction false} StoredSlots(s: State)
    ensures DecSlots(Or(Get(Serialize(s), "slots"), Obj(map[]))) == s.slots
  {
    SlotFields(s.slots);
    SlotsRoundTrip(s.slots);
    assert Get(Serialize(s), "slots") == EncSlots(s.slots);
  }

  /** Loading what was saved gives the state back, but for what a turn never carries over. */
  lemma {:induction false} LoadSerialize(s: State)
    ensures Load(Serialize(s), s.whatsappNumber, s.sessionId) ==
      if s.stage != Done then Resumed(s)
      else NewState(s.whatsappNumber, s.sessionId).(messages := LastSix(s.messages), stage := SlotFilling)
  {
    ScalarsRoundTrip(s);
    assert Truthy(Serialize(s)) by {
      assert "stage" in Serialize(s).fields;
    }
    if s.stage == Done {
      SequencesRoundTrip(s);
    } else {
      DeserializeSerialize(s);
    }
  }

  /** The last six messages, or all if there are fewer. */
  lemma {:induction false} LastSixAre(messages: seq<Message>)
    ensures var kept := LastSix(messages);
      |kept| == Min(6, |messages|) && kept == messages[|messages| - |kept|..]
  {
  }

  /** Nothing stored, or nothing with a stage: a conversation that starts from nothing. */
  lemma {:induction false} FreshStart(raw: Json, number: string, sessionId: int)
    requires !Truthy(raw) || !Truthy(Get(raw, "stage"))
    ensures var s := Load(raw, number, sessionId);
      && s.whatsappNumber == number && s.sessionId == sessionId && s.stage == Greeting
      && s.messages == [] && s.candidates == [] && s.webIdeas == [] && s.shortlist == [] && s.outbound == []
      && s.pendingAction == None && s.refinement == None && s.lastQuestion == None && !s.usedWebFallback
      && forall key :: key in s.missingSlots && !Filled(s.slots, key)
  {
    forall key ensures key in PRIORITY && !Filled(NO_SLOTS, key) {
      MissingIffUnfilled(NO_SLOTS, key);
      MissingToIff(NO_SLOTS, key, |PRIORITY|);
      assert PRIORITY[..|PRIORITY|] == PRIORITY;
    }
  }

  // ---- one turn ----

  datatype MessageType = TextMessage | ButtonReply | ListReply

  datatype Inbound = Inbound(type_: MessageType, text: Option<string>, interactiveId: Option<string>)

  /** Clears the last turn's transient fields, notes a tap, appends what the person wrote. */
  function Received(s: State, m: Inbound): State {
    s.(outbound := [], error := None,
       pendingAction := if m.type_ != TextMessage then m.interactiveId else None,
       messages := if NonEmpty(m.text).Some? then s.messages + [Human(m.text.value)] else s.messages)
  }

  /** A turn starts with what was stored, the tap if there was one, and what was written behind all messages before. */
  lemma {:induction false} TurnBegins(s: State, m: Inbound)
    ensures var begun := Received(s, m);
      && begun.outbound == [] && begun.error == None
      && (m.type_ == TextMessage ==> begun.pendingAction == None)
      && (m.type_ != TextMessage ==> begun.pendingAction == m.interactiveId)
      && (m.text.Some? && m.text.value != "" ==> begun.messages == s.messages + [Human(m.text.value)])
      && (m.text.None? || m.text.value == "" ==> begun.messages == s.messages)
      && begun == s.(outbound := [], error := None, pendingAction := begun.pendingAction, messages := begun.messages)
  {
  }

  /** Running one inbound message on a loaded state. */
  function Turn(s: State, m: Inbound, a: Answers): State {
    RunFrom(RouteIntentNode, Received(s, m), a).0
  }

  // ---- no node reads the missing slots ----

  /** Equal but for missing slots. */
  predicate Alike(a: State, b: State) {
    a.(missingSlots := b.missingSlots) == b
  }

  lemma {:induction false} FreeTextIgnoresMissing(s: State, t: State, a: Answers)
    requires Alike(s, t)
    ensures Alike(RouteFreeText(s, a), RouteFreeText(t, a))
  {
  }

  lemma {:induction false} RouteIntentIgnoresMissing(s: State, t: State, a: Answers)
    requires Alike(s, t)
    ensures Alike(RouteIntent(s, a), RouteIntent(t, a))
  {
    FreeTextIgnoresMissing(s, t, a);
    assert s.stage == t.stage && s.pendingAction == t.pendingAction;
  }

  lemma {:induction false} CurateIgnoresMissing(s: State, t: State, a: Answers)
    requires Alike(s, t)
    ensures Alike(Curate(s, a), Curate(t, a))
  {
  }

  lemma {:induction false} FinalizeIgnoresMissing(s: State, t: State)
    requires Alike(s, t)
    ensures Alike(Finalize(s), Finalize(t))
  {
    assert ResolveSelected(s) == ResolveSelected(t);
  }

  lemma {:induction false} RefineIgnoresMissing(s: State, t: State, a: Answers)
    requires Alike(s, t)
    ensures Alike(Refine(s, a), Refine(t, a))
  {
  }

  lemma {:induction false} NodeIgnoresMissing(n: Node, s: State, t: State, a: Answers)
    requires Alike(s, t)
    ensures Alike(NodeStep(n, s, a), NodeStep(n, t, a))
  {
    match n {
      case RouteIntentNode => RouteIntentIgnoresMissing(s, t, a);
      case CollectNode => assert Alike(Collect(s, a), Collect(t, a));
      case SearchNode => assert Alike(Search(s, a), Search(t, a));
      case CurateNode => CurateIgnoresMissing(s, t, a);
      case PresentNode => assert Alike(Present(s), Present(t));
      case RefineNode => RefineIgnoresMissing(s, t, a);
      case FinalizeNode => FinalizeIgnoresMissing(s, t);
    }
  }

  lemma {:induction false} RunIgnoresMissing(n: Node, s: State, t: State, a: Answers)
    requires Alike(s, t)
    ensures Alike(RunFrom(n, s, a).0, RunFrom(n, t, a).0)
    decreases Rank(n)
  {
    NodeIgnoresMissing(n, s, t, a);
    var next := NextNode(n, NodeStep(n, s, a));
    if next.Some? {
      RunIgnoresMissing(next.value, NodeStep(n, s, a), NodeStep(n, t, a), a);
    }
  }

  /** The entry node reads no route and always sets one. */
  lemma {:induction false} EntryIgnoresRoute(s: State, a: Answers, route: Option<Route>)
    ensures RunFrom(RouteIntentNode, s.(route := route), a) == RunFrom(RouteIntentNode, s, a)
  {
    assert RouteIntent(s.(route := route), a) == RouteIntent(s, a);
  }

  /**
   Saving and resuming is invisible: after any turn that did not finish, the next message gets the same
   replies and leads to the same state, missing slots aside, whether the state was kept or reloaded.
   */
  lemma {:induction false} ResumingIsInvisible(s: State, m: Inbound, a: Answers)
    requires TurnEnd(s) && s.stage != Done
    ensures var resumed := Turn(Load(Serialize(s), s.whatsappNumber, s.sessionId), m, a);
      var kept := Turn(s, m, a);
      Alike(resumed, kept) && resumed.outbound == kept.outbound
  {
    LoadSerialize(s);
    var loaded := Received(Resumed(s), m);
    var kept := Received(s, m);
    EntryIgnoresRoute(kept, a, None);
    RunIgnoresMissing(RouteIntentNode, loaded, kept.(route := None), a);
  }

  /**
   A row shown stays tappable across the save: the next turn's tap on it finishes on a gift of that kind, id,
   title and price, whatever text comes with the tap and whatever is answered.
   */
  lemma {:induction false} ShownRowsAreTappable(s: State, gift: Gift, text: Option<string>, a: Answers)
    requires TurnEnd(s) && s.stage != Done && gift in s.shortlist
    ensures var tap := Inbound(ListReply, text, Some(RowId(gift)));
      var after := Turn(Load(Serialize(s), s.whatsappNumber, s.sessionId), tap, a);
      && after.stage == Done && after.outbound == [TextOut(ConfirmationText(gift))]
      && exists chosen :: chosen in after.shortlist && chosen.kind == gift.kind && chosen.refId == gift.refId
                          && chosen.title == gift.title && chosen.price == gift.price
  {
    LoadSerialize(s);
    var received := Received(Resumed(s), Inbound(ListReply, text, Some(RowId(gift))));
    assert Grounded(received);
    TapResolves(received, gift, a);
  }

  /** Once finished, the need is over: an old row tapped next finds an empty shortlist and confirms nothing. */
  lemma {:induction false} FinishedRowsAreGone(s: State, gift: Gift, text: Option<string>, a: Answers)
    requires s.stage == Done
    ensures var tap := Inbound(ListReply, text, Some(RowId(gift)));
      var after := Turn(Load(Serialize(s), s.whatsappNumber, s.sessionId), tap, a);
      after.stage == SlotFilling && after.shortlist == [] && after.outbound == [TextOut(WHICH_ONE_TEXT)]
  {
    LoadSerialize(s);
    var received := Received(Load(Serialize(s), s.whatsappNumber, s.sessionId),
                             Inbound(ListReply, text, Some(RowId(gift))));
    RowIdDecodes(gift);
    TapRuns(received, a);
  }

  // ---- whole conversations ----

  /** One step of a conversation: a message with the answers it meets, or a turn that raised and saved nothing. */
  datatype Step = Message(m: Inbound, a: Answers) | Crashed

  /** The session row's JSON after the first k steps. */
  function Stored(raw: Json, number: string, sessionId: int, steps: seq<Step>, k: nat): Json
    requires k <= |steps|
  {
    if k == 0 then raw
    else
      var before := Stored(raw, number, sessionId, steps, k - 1);
      match steps[k - 1]
      case Crashed => before
      case Message(m, a) => Serialize(Turn(Load(before, number, sessionId), m, a))
  }

  /** The stored row is empty or the serialization of a state in which a turn ended. */
  ghost predicate InOrder(raw: Json, number: string, sessionId: int) {
    raw == Obj(map[])
    || exists s: State :: s.whatsappNumber == number && s.sessionId == sessionId && TurnEnd(s) && raw == Serialize(s)
  }

  lemma {:induction false} LoadedIsTurnStart(raw: Json, number: string, sessionId: int)
    requires InOrder(raw, number, sessionId)
    ensures var s := Load(raw, number, sessionId);
      TurnStart(s) && s.whatsappNumber == number && s.sessionId == sessionId
  {
    if raw != Obj(map[]) {
      var s: State :| s.whatsappNumber == number && s.sessionId == sessionId && TurnEnd(s) && raw == Serialize(s);
      LoadSerialize(s);
    }
  }

  lemma {:induction false} NodeKeepsIdentity(n: Node, s: State, a: Answers)
    ensures var after := NodeStep(n, s, a); after.whatsappNumber == s.whatsappNumber && after.sessionId == s.sessionId
  {
    match n {
      case RouteIntentNode => RoutingKeepsIdentity(s, a);
      case CollectNode =>
      case SearchNode =>
      case CurateNode =>
      case PresentNode =>
      case RefineNode =>
      case FinalizeNode =>
    }
  }

  lemma {:induction false} RoutingKeepsIdentity(s: State, a: Answers)
    ensures var after := RouteIntent(s, a); after.whatsappNumber == s.whatsappNumber && after.sessionId == s.sessionId
  {
    assert var after := RouteFreeText(s, a); after.whatsappNumber == s.whatsappNumber && after.sessionId == s.sessionId;
  }

  lemma {:induction false} RunKeepsIdentity(n: Node, s: State, a: Answers)
    ensures var after := RunFrom(n, s, a).0; after.whatsappNumber == s.whatsappNumber && after.sessionId == s.sessionId
    decreases Rank(n)
  {
    NodeKeepsIdentity(n, s, a);
    var next := NextNode(n, NodeStep(n, s, a));
    if next.Some? {
      RunKeepsIdentity(next.value, NodeStep(n, s, a), a);
    }
  }

  /** A turn from any loaded state ends in order, and if it finishes, it confirmed a real gift. */
  lemma {:induction false} TurnEndsWell(s: State, m: Inbound, a: Answers)
    requires TurnStart(s)
    ensures TurnEnd(Turn(s, m, a))
    ensures Turn(s, m, a).stage == Done ==> ConfirmedReal(Turn(s, m, a))
  {
    RunEndsWell(RouteIntentNode, Received(s, m), a);
  }

  /**
   Over any conversation, whatever models and searches answer and whatever is tapped, with turns failing
   anywhere: every stored state is one in which a turn ended in order, so its stage is slot filling,
   presenting or done, no refinement is pending, and every shortlisted gift is backed.
   */
  lemma {:induction false} ConversationsStayInOrder(number: string, sessionId: int, steps: seq<Step>, k: nat)
    requires k <= |steps|
    ensures InOrder(Stored(Obj(map[]), number, sessionId, steps, k), number, sessionId)
  {
    if k > 0 {
      ConversationsStayInOrder(number, sessionId, steps, k - 1);
      var before := Stored(Obj(map[]), number, sessionId, steps, k - 1);
      match steps[k - 1] {
        case Crashed =>
        case Message(m, a) =>
          var s := Load(before, number, sessionId);
          LoadedIsTurnStart(before, number, sessionId);
          TurnEndsWell(s, m, a);
          RunKeepsIdentity(RouteIntentNode, Received(s, m), a);
          var after := Turn(s, m, a);
          assert TurnEnd(after) && after.whatsappNumber == number && after.sessionId == sessionId;
      }
    }
  }
}
