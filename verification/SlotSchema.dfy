/**
 The requirements the agent collects: merging what the model extracted, deriving the missing budget,
 what is still missing, which question comes next, and how a refinement changes them
 (app/agent/slot_schema.py, app/agent/nodes/handle_refinement.py).
 */
module SlotSchema {
  import opened Std
  import opened Text
  import Money

  datatype Slots = Slots(
    occasion: Option<string>, recipientCount: Option<int>,
    budgetPerRecipient: Option<real>, totalBudget: Option<real>, themePreferences: seq<string>,
    brandingNeeded: Option<bool>, deliveryCity: Option<string>, deliveryTimeline: Option<string>,
    organizationHint: Option<string>)
  {
    predicate HasBudgetSignal() { budgetPerRecipient.Some? || totalBudget.Some? }
  }

  const NO_SLOTS := Slots(None, None, None, None, [], None, None, None, None)

  datatype Extracted = Extracted(
    occasion: Option<string>, recipientCount: Option<int>,
    budgetPerRecipient: Option<real>, totalBudget: Option<real>, themePreferences: seq<string>,
    brandingNeeded: Option<bool>, deliveryCity: Option<string>, deliveryTimeline: Option<string>)

  datatype SlotKey =
    Occasion | RecipientCount | BudgetSignal | ThemePreferences | BrandingNeeded | DeliveryCity | DeliveryTimeline

  const REQUIRED := [Occasion, RecipientCount, BudgetSignal]
  const PRIORITY :=
    [Occasion, RecipientCount, BudgetSignal, ThemePreferences, BrandingNeeded, DeliveryCity, DeliveryTimeline]

  // ---- missing slots and the next question ----

  predicate Filled(slots: Slots, key: SlotKey) {
    match key
    case Occasion => slots.occasion.Some?
    case RecipientCount => slots.recipientCount.Some?
    case BudgetSignal => slots.HasBudgetSignal()
    case ThemePreferences => slots.themePreferences != []
    case BrandingNeeded => slots.brandingNeeded.Some?
    case DeliveryCity => slots.deliveryCity.Some?
    case DeliveryTimeline => slots.deliveryTimeline.Some?
  }

  function MissingTo(slots: Slots, n: nat): seq<SlotKey>
    requires n <= |PRIORITY|
  {
    if n == 0 then []
    else MissingTo(slots, n - 1) + if Filled(slots, PRIORITY[n - 1]) then [] else [PRIORITY[n - 1]]
  }

  function Missing(slots: Slots): seq<SlotKey> {
    MissingTo(slots, |PRIORITY|)
  }

  method ComputeMissingSlots(slots: Slots) returns (missing: seq<SlotKey>)
    ensures missing == Missing(slots)
  {
    missing := [];
    for n := 0 to |PRIORITY|
      invariant missing == MissingTo(slots, n)
    {
      if !Filled(slots, PRIORITY[n]) {
        missing := missing + [PRIORITY[n]];
      }
    }
  }

  predicate Sufficient(slots: Slots) {
    slots.occasion.Some? && slots.recipientCount.Some? && slots.HasBudgetSignal()
  }

  function InPriority(missing: seq<SlotKey>, n: nat): seq<SlotKey>
    requires n <= |PRIORITY|
  {
    if n == 0 then []
    else InPriority(missing, n - 1) + if PRIORITY[n - 1] in missing then [PRIORITY[n - 1]] else []
  }

  /** Pairs that may share one question. */
  predicate Bundles(a: SlotKey, b: SlotKey) {
    {a, b} == {RecipientCount, BudgetSignal} || {a, b} == {DeliveryCity, DeliveryTimeline}
  }

  /** The one or two slots to ask about, and whether they are asked together. */
  function NextQuestion(missing: seq<SlotKey>): (seq<SlotKey>, bool) {
    var ordered := InPriority(missing, |PRIORITY|);
    if |ordered| >= 2 && Bundles(ordered[0], ordered[1]) then (ordered[..2], true)
    else if ordered == [] then ([], false)
    else (ordered[..1], false)
  }

  // ---- merging ----

  function Fill<T>(existing: Option<T>, extracted: Option<T>, overwrite: bool): Option<T> {
    if extracted.Some? && (overwrite || existing.None?) then extracted else existing
  }

  /** The theme is already listed, letter case aside. */
  predicate Listed(themes: seq<string>, theme: string, lower: string -> string) {
    exists i :: 0 <= i < |themes| && lower(themes[i]) == lower(theme)
  }

  function ThemesTo(existing: seq<string>, extracted: seq<string>, lower: string -> string, n: nat): seq<string>
    requires n <= |extracted|
  {
    if n == 0 then existing
    else
      var themes := ThemesTo(existing, extracted, lower, n - 1);
      if Listed(themes, extracted[n - 1], lower) then themes else themes + [extracted[n - 1]]
  }

  function Derived(slots: Slots): Slots {
    if slots.recipientCount.None? || slots.recipientCount == Some(0) then slots
    else
      var count := slots.recipientCount.value;
      if slots.budgetPerRecipient.None? && slots.totalBudget.Some? then
        slots.(budgetPerRecipient := Some(Money.QuantizeHalfEven(Money.Share(slots.totalBudget.value, count))))
      else if slots.totalBudget.None? && slots.budgetPerRecipient.Some? then
        slots.(totalBudget := Some(Money.QuantizeHalfEven(Money.Times(slots.budgetPerRecipient.value, count))))
      else slots
  }

  /** What the merge fills in before it derives the other budget. */
  function FilledIn(s: Slots, e: Extracted, lower: string -> string, overwrite: bool): Slots {
    Slots(Fill(s.occasion, e.occasion, overwrite), Fill(s.recipientCount, e.recipientCount, overwrite),
          Fill(s.budgetPerRecipient, e.budgetPerRecipient, overwrite), Fill(s.totalBudget, e.totalBudget, overwrite),
          ThemesTo(s.themePreferences, e.themePreferences, lower, |e.themePreferences|),
          Fill(s.brandingNeeded, e.brandingNeeded, overwrite), Fill(s.deliveryCity, e.deliveryCity, overwrite),
          Fill(s.deliveryTimeline, e.deliveryTimeline, overwrite), s.organizationHint)
  }

  function Merge(s: Slots, e: Extracted, lower: string -> string, overwrite: bool := false): Slots {
    Derived(FilledIn(s, e, lower, overwrite))
  }

  /** `_maybe_set`: what was extracted goes in where there was nothing, or anywhere if overwriting. */
  method MaybeSet<T>(current: Option<T>, extracted: Option<T>, overwrite: bool) returns (value: Option<T>)
    ensures extracted.None? || (current.Some? && !overwrite) ==> value == current
    ensures extracted.Some? && (current.None? || overwrite) ==> value == extracted
  {
    value := current;
    if extracted.Some? {
      if overwrite || current.None? {
        value := extracted;
      }
    }
  }

  /** The merge as written: field by field, with its set of themes already seen. */
  method MergeSlots(s: Slots, e: Extracted, lower: string -> string, overwrite: bool) returns (merged: Slots)
    ensures merged == Merge(s, e, lower, overwrite)
  {
    var occasion := MaybeSet(s.occasion, e.occasion, overwrite);
    var count := MaybeSet(s.recipientCount, e.recipientCount, overwrite);
    var perRecipient := MaybeSet(s.budgetPerRecipient, e.budgetPerRecipient, overwrite);
    var total := MaybeSet(s.totalBudget, e.totalBudget, overwrite);
    var branding := MaybeSet(s.brandingNeeded, e.brandingNeeded, overwrite);
    var city := MaybeSet(s.deliveryCity, e.deliveryCity, overwrite);
    var timeline := MaybeSet(s.deliveryTimeline, e.deliveryTimeline, overwrite);
    var themes := s.themePreferences;
    var seen := set i | 0 <= i < |themes| :: lower(themes[i]);
    for n := 0 to |e.themePreferences|
      invariant themes == ThemesTo(s.themePreferences, e.themePreferences, lower, n)
      invariant forall t :: t in seen <==> exists i :: 0 <= i < |themes| && lower(themes[i]) == t
    {
      var theme := e.themePreferences[n];
      if lower(theme) !in seen {
        ghost var before := themes;
        themes := themes + [theme];
        seen := seen + {lower(theme)};
        forall t ensures t in seen <==> exists i :: 0 <= i < |themes| && lower(themes[i]) == t {
          if t == lower(theme) {
            assert lower(themes[|before|]) == t;
          } else if t in seen {
            var i :| 0 <= i < |before| && lower(before[i]) == t;
            assert lower(themes[i]) == t;
          }
        }
      }
    }
    merged := Derived(s.(occasion := occasion, recipientCount := count, budgetPerRecipient := perRecipient,
                         totalBudget := total, themePreferences := themes, brandingNeeded := branding,
                         deliveryCity := city, deliveryTimeline := timeline));
  }

  /** Every field that was filled has kept its value; themes have only been added to. */
  ghost predicate Keeps(before: Slots, after: Slots) {
    && (before.occasion.Some? ==> after.occasion == before.occasion)
    && (before.recipientCount.Some? ==> after.recipientCount == before.recipientCount)
    && (before.budgetPerRecipient.Some? ==> after.budgetPerRecipient == before.budgetPerRecipient)
    && (before.totalBudget.Some? ==> after.totalBudget == before.totalBudget)
    && before.themePreferences <= after.themePreferences
    && (before.brandingNeeded.Some? ==> after.brandingNeeded == before.brandingNeeded)
    && (before.deliveryCity.Some? ==> after.deliveryCity == before.deliveryCity)
    && (before.deliveryTimeline.Some? ==> after.deliveryTimeline == before.deliveryTimeline)
    && before.organizationHint == after.organizationHint
  }

  lemma {:induction false} ThemesGrow(existing: seq<string>, extracted: seq<string>, lower: string -> string, n: nat)
    requires n <= |extracted|
    ensures existing <= ThemesTo(existing, extracted, lower, n)
    ensures forall j :: 0 <= j < n ==> Listed(ThemesTo(existing, extracted, lower, n), extracted[j], lower)
  {
    if n > 0 {
      ThemesGrow(existing, extracted, lower, n - 1);
      var before := ThemesTo(existing, extracted, lower, n - 1);
      var after := ThemesTo(existing, extracted, lower, n);
      forall j | 0 <= j < n ensures Listed(after, extracted[j], lower) {
        if j < n - 1 {
          assert Listed(before, extracted[j], lower);
          var i :| 0 <= i < |before| && lower(before[i]) == lower(extracted[j]);
          assert after[i] == before[i];
        } else if after != before {
          assert after[|before|] == extracted[j];
        }
      }
    }
  }

  lemma {:induction false} ListedThemesAddNothing(
    themes: seq<string>, extracted: seq<string>, lower: string -> string, n: nat)
    requires n <= |extracted| && forall j :: 0 <= j < n ==> Listed(themes, extracted[j], lower)
    ensures ThemesTo(themes, extracted, lower, n) == themes
  {
    if n > 0 {
      ListedThemesAddNothing(themes, extracted, lower, n - 1);
    }
  }

  lemma {:induction false} FillingKeeps(s: Slots, e: Extracted, lower: string -> string)
    ensures Keeps(s, FilledIn(s, e, lower, false))
  {
    ThemesGrow(s.themePreferences, e.themePreferences, lower, |e.themePreferences|);
  }

  /** What keeps the filled fields keeps their slots filled. */
  lemma {:induction false} KeepingFilled(before: Slots, after: Slots)
    requires Keeps(before, after)
    ensures forall key :: Filled(before, key) ==> Filled(after, key)
    ensures forall key :: key in Missing(after) ==> key in Missing(before)
  {
    forall key ensures key in Missing(after) ==> key in Missing(before) {
      MissingIffUnfilled(before, key);
      MissingIffUnfilled(after, key);
    }
  }

  /** Without overwrite a merge never changes a filled field, and only shrinks what is missing. */
  lemma {:induction false} MergeKeeps(s: Slots, e: Extracted, lower: string -> string)
    ensures Keeps(s, Merge(s, e, lower))
    ensures forall key :: Filled(s, key) ==> Filled(Merge(s, e, lower), key)
    ensures forall key :: key in Missing(Merge(s, e, lower)) ==> key in Missing(s)
  {
    FillingKeeps(s, e, lower);
    assert Keeps(FilledIn(s, e, lower, false), Merge(s, e, lower));
    KeepingFilled(s, Merge(s, e, lower));
  }

  /** Deriving fills at most one budget, and only an empty one. */
  lemma {:induction false} DerivedFillsBudgetOnly(s: Slots)
    ensures var d := Derived(s);
      && d == s.(budgetPerRecipient := d.budgetPerRecipient, totalBudget := d.totalBudget)
      && (s.budgetPerRecipient.Some? ==> d.budgetPerRecipient == s.budgetPerRecipient)
      && (s.totalBudget.Some? ==> d.totalBudget == s.totalBudget)
  {
  }

  lemma {:induction false} DerivedTwice(s: Slots)
    ensures Derived(Derived(s)) == Derived(s)
  {
  }

  /** What a merge filled in and then derived takes nothing more from the same extraction. */
  lemma {:induction false} RefillingAddsNothing(s: Slots, e: Extracted, lower: string -> string)
    ensures var d := Derived(FilledIn(s, e, lower, false)); FilledIn(d, e, lower, false) == d
  {
    var filled := FilledIn(s, e, lower, false);
    var themes := filled.themePreferences;
    DerivedFillsBudgetOnly(filled);
    ThemesGrow(s.themePreferences, e.themePreferences, lower, |e.themePreferences|);
    ListedThemesAddNothing(themes, e.themePreferences, lower, |e.themePreferences|);
  }

  /** Merging the same extraction again changes nothing. */
  lemma {:induction false} MergeIsIdempotent(s: Slots, e: Extracted, lower: string -> string)
    ensures Merge(Merge(s, e, lower), e, lower) == Merge(s, e, lower)
  {
    var filled := FilledIn(s, e, lower, false);
    RefillingAddsNothing(s, e, lower);
    assert FilledIn(Derived(filled), e, lower, false) == Derived(filled);
    DerivedTwice(filled);
  }

  /** A budget the merge derived agrees with the other one to within half a hundredth per recipient. */
  lemma {:induction false} DerivedBudgetAgrees(slots: Slots)
    requires slots.recipientCount.Some? && slots.recipientCount != Some(0)
    requires slots.budgetPerRecipient.Some? != slots.totalBudget.Some?
    ensures var d := Derived(slots); var count := slots.recipientCount.value;
      && d.budgetPerRecipient.Some? && d.totalBudget.Some?
      && Money.Distance(Money.Times(d.budgetPerRecipient.value, count), d.totalBudget.value)
         <= Money.Distance(0.0, count as real) / 200.0
  {
    var count := slots.recipientCount.value;
    if slots.totalBudget.Some? {
      ShareAgrees(slots.totalBudget.value, count);
    } else {
      Money.QuantizeWithinHalf(Money.Times(slots.budgetPerRecipient.value, count));
    }
  }

  lemma {:induction false} ShareAgrees(total: real, count: int)
    requires count != 0
    ensures Money.Distance(Money.Times(Money.QuantizeHalfEven(Money.Share(total, count)), count), total)
         <= Money.Distance(0.0, count as real) / 200.0
  {
    var share := Money.Share(total, count);
    Money.QuantizeWithinHalf(share);
    NearShare(share, Money.QuantizeHalfEven(share), count as real);
  }

  /** An error of half a hundredth grows at most to count/200. */
  lemma {:induction false} NearShare(share: real, per: real, count: real)
    requires Money.Distance(share, per) <= 0.005
    ensures Money.Distance(per * count, share * count) <= Money.Distance(0.0, count) / 200.0
  {
    ScaledWithin(per - share, count);
    assert (per - share) * count == per * count - share * count;
  }

  lemma {:induction false} ScaledWithin(d: real, count: real)
    requires -0.005 <= d <= 0.005
    ensures Money.Distance(0.0, d * count) <= Money.Distance(0.0, count) / 200.0
  {
    if count >= 0.0 {
      Product(0.005 - d, count);
      Product(0.005 + d, count);
    } else {
      Product(0.005 - d, -count);
      Product(0.005 + d, -count);
    }
  }

  lemma {:induction false} Product(x: real, y: real)
    requires x >= 0.0 && y >= 0.0
    ensures x * y >= 0.0
  {
  }

  // ---- asking until there is enough to search ----

  lemma {:induction false} MissingIffUnfilled(slots: Slots, key: SlotKey)
    ensures key in Missing(slots) <==> !Filled(slots, key)
  {
    MissingToIff(slots, key, |PRIORITY|);
    assert key == PRIORITY[match key
      case Occasion => 0 case RecipientCount => 1 case BudgetSignal => 2 case ThemePreferences => 3
      case BrandingNeeded => 4 case DeliveryCity => 5 case DeliveryTimeline => 6];
  }

  lemma {:induction false} MissingToIff(slots: Slots, key: SlotKey, n: nat)
    requires n <= |PRIORITY|
    ensures key in MissingTo(slots, n) <==> !Filled(slots, key) && key in PRIORITY[..n]
  {
    if n > 0 {
      MissingToIff(slots, key, n - 1);
      assert PRIORITY[..n] == PRIORITY[..n - 1] + [PRIORITY[n - 1]];
    }
  }

  /** While there is not enough to search, the slot asked first is a missing required one. */
  lemma {:induction false} AsksForMissingRequired(slots: Slots)
    requires !Sufficient(slots)
    ensures var (keys, together) := NextQuestion(Missing(slots));
      && keys != [] && keys[0] in REQUIRED && !Filled(slots, keys[0])
  {
    var missing := Missing(slots);
    forall key ensures key in missing <==> !Filled(slots, key) {
      MissingIffUnfilled(slots, key);
    }
    InPriorityHead(missing);
  }

  /** The first missing slot in priority order heads the list. */
  lemma {:induction false} InPriorityHead(missing: seq<SlotKey>)
    requires Occasion in missing || RecipientCount in missing || BudgetSignal in missing
    ensures var ordered := InPriority(missing, |PRIORITY|);
      && ordered != []
      && ordered[0] == (if Occasion in missing then Occasion else if RecipientCount in missing then RecipientCount
                        else BudgetSignal)
  {
    assert InPriority(missing, 1) == if Occasion in missing then [Occasion] else [];
    assert InPriority(missing, 2) == InPriority(missing, 1)
      + if RecipientCount in missing then [RecipientCount] else [];
    assert InPriority(missing, 3) == InPriority(missing, 2) + if BudgetSignal in missing then [BudgetSignal] else [];
    InPriorityGrows(missing, 3, |PRIORITY|);
  }

  lemma {:induction false} InPriorityGrows(missing: seq<SlotKey>, m: nat, n: nat)
    requires m <= n <= |PRIORITY|
    ensures InPriority(missing, m) <= InPriority(missing, n)
  {
    if m < n {
      InPriorityGrows(missing, m, n - 1);
    }
  }

  /** The extraction supplies the slot that was asked. */
  predicate Answers(e: Extracted, key: SlotKey) {
    match key
    case Occasion => e.occasion.Some?
    case RecipientCount => e.recipientCount.Some?
    case BudgetSignal => e.budgetPerRecipient.Some? || e.totalBudget.Some?
    case ThemePreferences => e.themePreferences != []
    case BrandingNeeded => e.brandingNeeded.Some?
    case DeliveryCity => e.deliveryCity.Some?
    case DeliveryTimeline => e.deliveryTimeline.Some?
  }

  function RequiredMissing(slots: Slots): nat {
    (if Filled(slots, Occasion) then 0 else 1)
    + (if Filled(slots, RecipientCount) then 0 else 1)
    + (if Filled(slots, BudgetSignal) then 0 else 1)
  }

  /** Slots after the first k replies. */
  function Replied(s: Slots, replies: seq<Extracted>, lower: string -> string, k: nat): Slots
    requires k <= |replies|
  {
    if k == 0 then s else Merge(Replied(s, replies, lower, k - 1), replies[k - 1], lower)
  }

  /** Every reply given while slots were lacking answers at least the slot asked first. */
  ghost predicate AnswersWhatIsAsked(s: Slots, replies: seq<Extracted>, lower: string -> string, k: nat)
    requires k <= |replies|
  {
    k > 0 ==>
      && AnswersWhatIsAsked(s, replies, lower, k - 1)
      && var before := Replied(s, replies, lower, k - 1);
         var asked := NextQuestion(Missing(before)).0;
         Sufficient(before) || (asked != [] && Answers(replies[k - 1], asked[0]))
  }

  lemma {:induction false} AnswerReducesMissing(s: Slots, e: Extracted, lower: string -> string, key: SlotKey)
    requires key in REQUIRED && !Filled(s, key) && Answers(e, key)
    ensures RequiredMissing(Merge(s, e, lower)) < RequiredMissing(s)
  {
    MergeKeeps(s, e, lower);
    assert Filled(FilledIn(s, e, lower, false), key);
    DerivedFillsBudgetOnly(FilledIn(s, e, lower, false));
    assert Filled(Merge(s, e, lower), key);
  }

  lemma {:induction false} RepliesReduceMissing(s: Slots, replies: seq<Extracted>, lower: string -> string, k: nat)
    requires k <= |replies| && AnswersWhatIsAsked(s, replies, lower, k)
    ensures RequiredMissing(Replied(s, replies, lower, k)) <= Max(0, RequiredMissing(s) - k)
  {
    if k > 0 {
      RepliesReduceMissing(s, replies, lower, k - 1);
      var before := Replied(s, replies, lower, k - 1);
      if Sufficient(before) {
        MergeKeeps(before, replies[k - 1], lower);
      } else {
        AsksForMissingRequired(before);
        AnswerReducesMissing(before, replies[k - 1], lower, NextQuestion(Missing(before)).0[0]);
      }
    }
  }

  /** Answering what is asked reaches a search within three questions. */
  lemma {:induction false} ThreeAnswersSuffice(s: Slots, replies: seq<Extracted>, lower: string -> string)
    requires |replies| == 3 && AnswersWhatIsAsked(s, replies, lower, 3)
    ensures Sufficient(Replied(s, replies, lower, 3))
  {
    RepliesReduceMissing(s, replies, lower, 3);
  }

  // ---- refinement ----

  datatype Adjustment =
    Cheaper | Pricier | MoreRecipients | FewerRecipients | ThemeChange | BrandingChange | MoreOptions | Other

  datatype RefinementIntent = RefinementIntent(adjustment: Adjustment, updatedValue: Option<string>)

  function NudgeBudget(s: Slots, factor: real, explicitValue: Option<string>): Slots {
    var explicit := ParseDecimal(explicitValue);
    if explicit.Some? then
      if s.totalBudget.Some? && (s.budgetPerRecipient.None? || s.budgetPerRecipient == Some(0.0))
      then s.(totalBudget := explicit)
      else s.(budgetPerRecipient := explicit, totalBudget := None)
    else if s.budgetPerRecipient.Some? then
      s.(budgetPerRecipient := Some(Money.RoundHalfEven(s.budgetPerRecipient.value * factor) as real))
    else if s.totalBudget.Some? then
      s.(totalBudget := Some(Money.RoundHalfEven(s.totalBudget.value * factor) as real))
    else s
  }

  function ApplyRefinement(s: Slots, intent: RefinementIntent, lower: string -> string): Slots {
    var value := intent.updatedValue;
    match intent.adjustment
    case Cheaper => NudgeBudget(s, 0.8, value)
    case Pricier => NudgeBudget(s, 1.25, value)
    case MoreRecipients => WithCount(s, value)
    case FewerRecipients => WithCount(s, value)
    case ThemeChange =>
      if value.Some? && value.value != "" && !Listed(s.themePreferences, value.value, lower)
      then s.(themePreferences := s.themePreferences + [value.value]) else s
    case BrandingChange =>
      if value.None? then s
      else
        var text := lower(value.value);
        s.(brandingNeeded := Some(!(Contains(text, "no") || Contains(text, "not") || Contains(text, "without"))))
    case MoreOptions => s
    case Other => s
  }

  /** The budget a search goes by: per recipient if there is one, else the total. */
  function Guiding(s: Slots): Option<real> {
    if s.budgetPerRecipient.Some? then s.budgetPerRecipient else s.totalBudget
  }

  /**
   A named amount becomes the guiding budget, except that a total kept beside a per-recipient budget of zero
   takes it instead; without one, cheaper and pricier move the guiding budget to four fifths or five quarters
   of itself, to the nearest whole amount.
   */
  lemma {:induction false} NudgeMovesBudget(s: Slots, factor: real, explicitValue: Option<string>)
    ensures var after := NudgeBudget(s, factor, explicitValue); var named := ParseDecimal(explicitValue);
      && (named.Some? && !(s.totalBudget.Some? && s.budgetPerRecipient == Some(0.0)) ==> Guiding(after) == named)
      && (named.Some? && s.totalBudget.Some? && s.budgetPerRecipient == Some(0.0) ==> after.totalBudget == named)
      && (named.None? && Guiding(s).Some? ==>
            && Guiding(after).Some? && Money.Distance(Guiding(after).value, Guiding(s).value * factor) <= 0.5)
      && (named.None? && Guiding(s).None? ==> after == s)
  {
    if ParseDecimal(explicitValue).None? && Guiding(s).Some? {
      NearestWithinHalf(Guiding(s).value * factor);
    }
  }

  lemma {:induction false} NearestWithinHalf(x: real)
    ensures Money.Distance(Money.RoundHalfEven(x) as real, x) <= 0.5
  {
    Money.HalfEvenIsNearest(x, x.Floor);
    Money.HalfEvenIsNearest(x, x.Floor + 1);
  }

  lemma {:induction false} NudgeKeepsBudget(s: Slots, factor: real, explicitValue: Option<string>)
    ensures var after := NudgeBudget(s, factor, explicitValue);
      && (s.HasBudgetSignal() ==> after.HasBudgetSignal())
      && after.(budgetPerRecipient := s.budgetPerRecipient, totalBudget := s.totalBudget) == s
  {
  }

  /** The parsed number cut to an integer; no number leaves the count alone. */
  function WithCount(s: Slots, value: Option<string>): Slots {
    var parsed := ParseDecimal(value);
    if parsed.Some? then s.(recipientCount := Some(parsed.value.Floor)) else s
  }

  /** A refinement never loses what a search needs, nor any slot that was filled. */
  lemma {:induction false} RefinementKeepsSufficiency(s: Slots, intent: RefinementIntent, lower: string -> string)
    ensures forall key :: Filled(s, key) ==> Filled(ApplyRefinement(s, intent, lower), key)
    ensures Sufficient(s) ==> Sufficient(ApplyRefinement(s, intent, lower))
  {
    NudgeKeepsBudget(s, 0.8, intent.updatedValue);
    NudgeKeepsBudget(s, 1.25, intent.updatedValue);
  }
}
