/**
 What a merge and a refinement do to each slot, slot by slot (app/agent/slot_schema.py,
 app/agent/nodes/handle_refinement.py).
 */
module SlotLaws {
  import opened Std
  import opened Text
  import opened SlotSchema
  import Money

  // ---- what counts as filled ----

  /** A slot is filled by its own field, the budget by either amount. */
  lemma {:induction false} FilledIff(s: Slots)
    ensures Filled(s, Occasion) <==> s.occasion != None
    ensures Filled(s, RecipientCount) <==> s.recipientCount != None
    ensures Filled(s, BudgetSignal) <==> s.budgetPerRecipient != None || s.totalBudget != None
    ensures Filled(s, ThemePreferences) <==> |s.themePreferences| > 0
    ensures Filled(s, BrandingNeeded) <==> s.brandingNeeded != None
    ensures Filled(s, DeliveryCity) <==> s.deliveryCity != None
    ensures Filled(s, DeliveryTimeline) <==> s.deliveryTimeline != None
  {
  }

  /** There is enough to search exactly when neither the occasion nor the count nor the budget is missing. */
  lemma {:induction false} SufficientIff(s: Slots)
    ensures Sufficient(s) <==>
      Occasion !in Missing(s) && RecipientCount !in Missing(s) && BudgetSignal !in Missing(s)
  {
    MissingIffUnfilled(s, Occasion);
    MissingIffUnfilled(s, RecipientCount);
    MissingIffUnfilled(s, BudgetSignal);
  }

  // ---- merging ----

  /** Overwriting or not, what was extracted goes into its own slot and into no other. */
  lemma {:induction false} MergeFills(s: Slots, e: Extracted, lower: string -> string, overwrite: bool)
    ensures var m := Merge(s, e, lower, overwrite);
      && (e.occasion.Some? && (overwrite || s.occasion.None?) ==> m.occasion == e.occasion)
      && (e.occasion.None? || (s.occasion.Some? && !overwrite) ==> m.occasion == s.occasion)
      && (e.recipientCount.Some? && (overwrite || s.recipientCount.None?) ==> m.recipientCount == e.recipientCount)
      && (e.recipientCount.None? || (s.recipientCount.Some? && !overwrite) ==> m.recipientCount == s.recipientCount)
      && (e.budgetPerRecipient.Some? && (overwrite || s.budgetPerRecipient.None?) ==>
            m.budgetPerRecipient == e.budgetPerRecipient)
      && (s.budgetPerRecipient.Some? && (!overwrite || e.budgetPerRecipient.None?) ==>
            m.budgetPerRecipient == s.budgetPerRecipient)
      && (e.totalBudget.Some? && (overwrite || s.totalBudget.None?) ==> m.totalBudget == e.totalBudget)
      && (s.totalBudget.Some? && (!overwrite || e.totalBudget.None?) ==> m.totalBudget == s.totalBudget)
    ensures var m := Merge(s, e, lower, overwrite);
      && (e.brandingNeeded.Some? && (overwrite || s.brandingNeeded.None?) ==> m.brandingNeeded == e.brandingNeeded)
      && (e.brandingNeeded.None? || (s.brandingNeeded.Some? && !overwrite) ==> m.brandingNeeded == s.brandingNeeded)
      && (e.deliveryCity.Some? && (overwrite || s.deliveryCity.None?) ==> m.deliveryCity == e.deliveryCity)
      && (e.deliveryCity.None? || (s.deliveryCity.Some? && !overwrite) ==> m.deliveryCity == s.deliveryCity)
      && (e.deliveryTimeline.Some? && (overwrite || s.deliveryTimeline.None?) ==>
            m.deliveryTimeline == e.deliveryTimeline)
      && (e.deliveryTimeline.None? || (s.deliveryTimeline.Some? && !overwrite) ==>
            m.deliveryTimeline == s.deliveryTimeline)
      && m.organizationHint == s.organizationHint
  {
  }

  /** A budget is derived only for a known count other than zero, and only from the other budget. */
  lemma {:induction false} NothingElseIsDerived(s: Slots, e: Extracted, lower: string -> string, overwrite: bool)
    ensures var m := Merge(s, e, lower, overwrite);
      && (s.budgetPerRecipient.None? && e.budgetPerRecipient.None?
          && (m.recipientCount.None? || m.recipientCount == Some(0) || (s.totalBudget.None? && e.totalBudget.None?)) ==>
            m.budgetPerRecipient.None?)
      && (s.totalBudget.None? && e.totalBudget.None?
          && (m.recipientCount.None? || m.recipientCount == Some(0)
              || (s.budgetPerRecipient.None? && e.budgetPerRecipient.None?)) ==>
            m.totalBudget.None?)
  {
  }

  /** No two themes are the same, letter case aside. */
  ghost predicate DistinctThemes(themes: seq<string>, lower: string -> string) {
    forall i, j :: 0 <= i < j < |themes| ==> lower(themes[i]) != lower(themes[j])
  }

  /** Themes are added behind those there were, each extracted one once, and nothing but extracted ones. */
  lemma {:induction false} ThemesAdded(s: Slots, e: Extracted, lower: string -> string, overwrite: bool)
    ensures var after := Merge(s, e, lower, overwrite).themePreferences;
      && s.themePreferences <= after
      && (forall t :: t in after[|s.themePreferences|..] ==> t in e.themePreferences)
      && (forall t :: t in e.themePreferences ==> Listed(after, t, lower))
      && (DistinctThemes(s.themePreferences, lower) ==> DistinctThemes(after, lower))
  {
    ThemesGrow(s.themePreferences, e.themePreferences, lower, |e.themePreferences|);
    OnlyExtractedThemes(s.themePreferences, e.themePreferences, lower, |e.themePreferences|);
  }

  lemma {:induction false} OnlyExtractedThemes(
    existing: seq<string>, extracted: seq<string>, lower: string -> string, n: nat)
    requires n <= |extracted|
    ensures var after := ThemesTo(existing, extracted, lower, n);
      && existing <= after
      && (forall t :: t in after[|existing|..] ==> t in extracted)
      && (DistinctThemes(existing, lower) ==> DistinctThemes(after, lower))
  {
    if n > 0 {
      OnlyExtractedThemes(existing, extracted, lower, n - 1);
      var before := ThemesTo(existing, extracted, lower, n - 1);
      var after := ThemesTo(existing, extracted, lower, n);
      if after != before {
        assert after[|existing|..] == before[|existing|..] + [extracted[n - 1]];
      }
    }
  }

  // ---- the next question ----

  /** Two slots are asked for together exactly when both head the list and belong together. */
  lemma {:induction false} AskedTogether(missing: seq<SlotKey>)
    ensures var (keys, together) := NextQuestion(missing);
      && (together ==> keys == [RecipientCount, BudgetSignal] || keys == [DeliveryCity, DeliveryTimeline])
      && (!together ==> |keys| <= 1)
      && (together <==>
            || (Occasion !in missing && RecipientCount in missing && BudgetSignal in missing)
            || (DeliveryCity in missing && DeliveryTimeline in missing
                && forall key :: key in missing ==> key == DeliveryCity || key == DeliveryTimeline))
  {
    var ordered := InPriority(missing, |PRIORITY|);
    HeadOfQuestion(missing);
    if |ordered| >= 2 {
      BundlesIff(ordered[0], ordered[1]);
      assert ordered[..2] == [ordered[0], ordered[1]];
    }
  }

  /** Which pairs can head the list. */
  lemma {:induction false} HeadOfQuestion(missing: seq<SlotKey>)
    ensures var ordered := InPriority(missing, |PRIORITY|);
      && (|ordered| >= 2 && ordered[0] == RecipientCount && ordered[1] == BudgetSignal <==>
            Occasion !in missing && RecipientCount in missing && BudgetSignal in missing)
      && (|ordered| >= 2 && ordered[0] == DeliveryCity && ordered[1] == DeliveryTimeline <==>
            DeliveryCity in missing && DeliveryTimeline in missing
            && forall key :: key in missing ==> key == DeliveryCity || key == DeliveryTimeline)
      && (|ordered| >= 2 ==>
            ordered[0] != DeliveryTimeline && (ordered[0] == BudgetSignal ==> ordered[1] != RecipientCount))
  {
    SpelledOut(missing);
  }

  lemma {:induction false} BundlesIff(a: SlotKey, b: SlotKey)
    ensures Bundles(a, b) <==>
      || (a == RecipientCount && b == BudgetSignal) || (a == BudgetSignal && b == RecipientCount)
      || (a == DeliveryCity && b == DeliveryTimeline) || (a == DeliveryTimeline && b == DeliveryCity)
  {
    if Bundles(a, b) {
      assert a in {a, b} && b in {a, b};
      assert RecipientCount in {a, b} || DeliveryCity in {a, b};
      assert BudgetSignal in {a, b} || DeliveryTimeline in {a, b};
    }
  }

  /** The slots in the order they are asked for. */
  lemma {:induction false} SpelledOut(missing: seq<SlotKey>)
    ensures InPriority(missing, |PRIORITY|)
      == (if Occasion in missing then [Occasion] else [])
         + (if RecipientCount in missing then [RecipientCount] else [])
         + (if BudgetSignal in missing then [BudgetSignal] else [])
         + (if ThemePreferences in missing then [ThemePreferences] else [])
         + (if BrandingNeeded in missing then [BrandingNeeded] else [])
         + (if DeliveryCity in missing then [DeliveryCity] else [])
         + (if DeliveryTimeline in missing then [DeliveryTimeline] else [])
  {
    assert InPriority(missing, 0) == [];
    assert InPriority(missing, 1) == if Occasion in missing then [Occasion] else [];
    assert InPriority(missing, 2)
        == InPriority(missing, 1) + if RecipientCount in missing then [RecipientCount] else [];
    assert InPriority(missing, 3) == InPriority(missing, 2) + if BudgetSignal in missing then [BudgetSignal] else [];
    assert InPriority(missing, 4)
        == InPriority(missing, 3) + if ThemePreferences in missing then [ThemePreferences] else [];
    assert InPriority(missing, 5)
        == InPriority(missing, 4) + if BrandingNeeded in missing then [BrandingNeeded] else [];
    assert InPriority(missing, 6) == InPriority(missing, 5) + if DeliveryCity in missing then [DeliveryCity] else [];
    assert InPriority(missing, 7)
        == InPriority(missing, 6) + if DeliveryTimeline in missing then [DeliveryTimeline] else [];
  }

  // ---- refinement ----

  /** The budget slots aside, a change of budget changes nothing. */
  predicate OnlyBudgetDiffers(s: Slots, after: Slots) {
    after == s.(budgetPerRecipient := after.budgetPerRecipient, totalBudget := after.totalBudget)
  }

  /**
   Cheaper without an amount moves the guiding budget to four fifths of itself, pricier to five quarters, each to within
   half a unit; so cheaper never raises a whole budget and pricier never lowers it. The other budget stays.
   */
  lemma {:induction false} RefiningMovesBudget(s: Slots, value: Option<string>, lower: string -> string)
    requires ParseDecimal(value).None?
    ensures var cheaper := ApplyRefinement(s, RefinementIntent(Cheaper, value), lower);
      var pricier := ApplyRefinement(s, RefinementIntent(Pricier, value), lower);
      && OnlyBudgetDiffers(s, cheaper) && OnlyBudgetDiffers(s, pricier)
      && (Guiding(s).None? ==> cheaper == pricier == s)
      && (s.budgetPerRecipient.Some? ==> cheaper.totalBudget == pricier.totalBudget == s.totalBudget)
      && (s.budgetPerRecipient.None? ==> cheaper.budgetPerRecipient == pricier.budgetPerRecipient == None)
      && (Guiding(s).Some? ==>
            && Guiding(cheaper).Some? && Guiding(pricier).Some?
            && var budget, less, more := Guiding(s).value, Guiding(cheaper).value, Guiding(pricier).value;
               && Money.Distance(less, budget * 0.8) <= 0.5 && Money.Distance(more, budget * 1.25) <= 0.5
               && (budget >= 0.0 && Whole(budget) ==> less <= budget <= more))
  {
    NudgeMovesBudget(s, 0.8, value);
    NudgeMovesBudget(s, 1.25, value);
    NudgesOneBudget(s, 0.8, value);
    NudgesOneBudget(s, 1.25, value);
    if Guiding(s).Some? {
      WholeNeighbours(Guiding(s).value, Guiding(NudgeBudget(s, 0.8, value)).value,
                      Guiding(NudgeBudget(s, 1.25, value)).value);
    }
  }

  predicate Whole(x: real) {
    x == x.Floor as real
  }

  lemma {:induction false} NudgesOneBudget(s: Slots, factor: real, value: Option<string>)
    requires ParseDecimal(value).None?
    ensures var after := NudgeBudget(s, factor, value);
      && OnlyBudgetDiffers(s, after)
      && (s.budgetPerRecipient.Some? ==> after.totalBudget == s.totalBudget)
      && (s.budgetPerRecipient.None? ==> after.budgetPerRecipient == None)
      && (Guiding(s).Some? ==> Guiding(after).Some? && Whole(Guiding(after).value))
  {
  }

  /** Rounding cannot carry four fifths of a whole amount above it, nor five quarters below. */
  lemma {:induction false} WholeNeighbours(budget: real, less: real, more: real)
    requires Whole(less) && Whole(more)
    requires Money.Distance(less, budget * 0.8) <= 0.5 && Money.Distance(more, budget * 1.25) <= 0.5
    ensures budget >= 0.0 && Whole(budget) ==> less <= budget <= more
  {
    if budget >= 0.0 && Whole(budget) {
      var b, l, m := budget.Floor, less.Floor, more.Floor;
      assert l as real <= b as real * 0.8 + 0.5 && m as real >= b as real * 1.25 - 0.5;
      assert l < b + 1 && m > b - 1;
    }
  }

  /** With an amount, cheaper and pricier alike take it: as the total beside an empty budget per head, else per head. */
  lemma {:induction false} NamedAmountIsTaken(s: Slots, value: Option<string>, lower: string -> string)
    requires ParseDecimal(value).Some?
    ensures var cheaper := ApplyRefinement(s, RefinementIntent(Cheaper, value), lower);
      && ApplyRefinement(s, RefinementIntent(Pricier, value), lower) == cheaper
      && OnlyBudgetDiffers(s, cheaper)
      && (if s.totalBudget.Some? && (s.budgetPerRecipient.None? || s.budgetPerRecipient == Some(0.0))
          then cheaper.totalBudget == ParseDecimal(value) && cheaper.budgetPerRecipient == s.budgetPerRecipient
          else cheaper.budgetPerRecipient == ParseDecimal(value) && cheaper.totalBudget == None)
  {
  }

  /** More or fewer recipients set the count to the number named, cut to a whole one, and nothing else. */
  lemma {:induction false} RecipientsAreSet(s: Slots, value: Option<string>, lower: string -> string)
    ensures var more := ApplyRefinement(s, RefinementIntent(MoreRecipients, value), lower);
      && ApplyRefinement(s, RefinementIntent(FewerRecipients, value), lower) == more
      && more == s.(recipientCount := more.recipientCount)
      && (ParseDecimal(value).None? ==> more.recipientCount == s.recipientCount)
      && (ParseDecimal(value).Some? ==>
            && more.recipientCount.Some?
            && more.recipientCount.value as real <= ParseDecimal(value).value
            && ParseDecimal(value).value < more.recipientCount.value as real + 1.0)
  {
  }

  /** A theme is added at the end unless it is empty or listed, letter case aside. */
  lemma {:induction false} ThemeIsAdded(s: Slots, value: Option<string>, lower: string -> string)
    ensures var after := ApplyRefinement(s, RefinementIntent(ThemeChange, value), lower);
      var isNew := value.Some? && value.value != ""
                   && forall i :: 0 <= i < |s.themePreferences| ==> lower(s.themePreferences[i]) != lower(value.value);
      after == if isNew then s.(themePreferences := s.themePreferences + [value.value]) else s
  {
  }

  /** Branding is wanted unless what is said has "no" or "without" in it; "not" has "no" in it anyhow. */
  lemma {:induction false} BrandingIsSet(s: Slots, value: Option<string>, lower: string -> string)
    ensures var after := ApplyRefinement(s, RefinementIntent(BrandingChange, value), lower);
      if value.None? then after == s
      else
        after == s.(brandingNeeded := Some(!Contains(lower(value.value), "no")
                                           && !Contains(lower(value.value), "without")))
  {
    if value.Some? {
      NotHasNo(lower(value.value));
    }
  }

  lemma {:induction false} NotHasNo(text: string)
    ensures Contains(text, "not") ==> Contains(text, "no")
  {
    if Contains(text, "not") {
      ContainsIff(text, "not");
      var i: nat :| StandsAt(text, "not", i);
      assert text[i..i + 2] == text[i..i + 3][..2] == "no";
      assert StandsAt(text, "no", i);
      ContainsIff(text, "no");
    }
  }

  /** Any other request leaves the slots as they are. */
  lemma {:induction false} OthersChangeNothing(s: Slots, value: Option<string>, lower: string -> string)
    ensures ApplyRefinement(s, RefinementIntent(MoreOptions, value), lower) == s
    ensures ApplyRefinement(s, RefinementIntent(Other, value), lower) == s
  {
  }
}
