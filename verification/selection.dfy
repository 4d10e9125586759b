/**
 * Choosing items by clicking them: the features of the wizard
 * (`src/components/FeatureSelection.tsx`) and the app types of the
 * onboarding dialog (`src/components/OnboardingModal.tsx`) share one
 * toggle, which removes a present id everywhere it occurs and appends an
 * absent one.
 */
module Selection {
  import opened Wrappers
  import opened Seqs
  import opened Text

  /** The test `id => id !== featureId`. */
  function Other(id: string): string -> bool {
    (x: string) => x != id
  }

  /** `xs.filter(x => x !== id)` */
  function Without(xs: seq<string>, id: string): (r: seq<string>)
    ensures id !in r
  {
    var r := Filter(Other(id), xs);
    assert forall i :: 0 <= i < |r| ==> Other(id)(r[i]);
    r
  }

  /** `toggleFeature` (FeatureSelection lines 95-101) and `toggleType` (OnboardingModal lines 21-25). */
  function Toggle(xs: seq<string>, id: string): seq<string> {
    if id in xs then Without(xs, id) else xs + [id]
  }

  /** The toggled id changes membership; every other id keeps it. */
  lemma {:induction false} ToggleFlips(xs: seq<string>, id: string, x: string)
    ensures id in Toggle(xs, id) <==> id !in xs
    ensures x != id ==> (x in Toggle(xs, id) <==> x in xs)
  {
    if x != id && id in xs {
      if x in xs {
        var i :| 0 <= i < |xs| && xs[i] == x;
        FilterComplete(Other(id), xs, i);
      }
      if x in Toggle(xs, id) {
        FilterSound(Other(id), xs, x);
      }
    }
  }

  /** Leaving the toggled id aside, the selection is the same list as before, order included. */
  lemma {:induction false} ToggleKeepsOthers(xs: seq<string>, id: string)
    ensures Without(Toggle(xs, id), id) == Without(xs, id)
  {
    var w := Without(xs, id);
    if id in xs {
      assert All(Other(id), w) by {
        forall i | 0 <= i < |w|
          ensures Other(id)(w[i])
        {
          assert w[i] != id;
        }
      }
      FilterKeepsAll(Other(id), w);
    } else {
      FilterAppend(Other(id), xs, [id]);
      assert Filter(Other(id), [id]) == [] by {
        assert !Other(id)([id][0]);
        assert [id][1..] == [];
      }
      assert Without(xs, id) + [] == Without(xs, id);
    }
  }

  lemma {:induction false} WithoutAbsent(xs: seq<string>, id: string)
    requires id !in xs
    ensures Without(xs, id) == xs
  {
    assert All(Other(id), xs) by {
      forall i | 0 <= i < |xs|
        ensures Other(id)(xs[i])
      {
        assert xs[i] in xs;
      }
    }
    FilterKeepsAll(Other(id), xs);
  }

  /** Selecting and deselecting an item restores the selection exactly. */
  lemma {:induction false} ToggleTwiceAbsent(xs: seq<string>, id: string)
    requires id !in xs
    ensures Toggle(Toggle(xs, id), id) == xs
  {
    assert id in xs + [id];
    ToggleKeepsOthers(xs, id);
    WithoutAbsent(xs, id);
  }

  /** Deselecting and reselecting an item moves it to the end, once. */
  lemma {:induction false} ToggleTwicePresent(xs: seq<string>, id: string)
    requires id in xs
    ensures Toggle(Toggle(xs, id), id) == Without(xs, id) + [id]
  {
  }

  // ---------------------------------------------------------------------
  // FeatureSelection

  /** The component's own `Feature` record (lines 4-8). */
  datatype Offer = Offer(id: string, name: string, description: string)

  /** Lines 17-58: the eight features offered when no personalised list is available. */
  const FallbackOffers: seq<Offer> := [
    Offer("user-auth", "User Authentication", "Secure user registration, login, and profile management system"),
    Offer("dashboard", "User Dashboard", "Personalized dashboard showing key metrics and user data"),
    Offer("notifications", "Push Notifications", "Real-time notifications to keep users engaged"),
    Offer("analytics", "Analytics & Insights", "Track user behavior and app performance metrics"),
    Offer("payment", "Payment Integration", "Secure payment processing and subscription management"),
    Offer("social-sharing", "Social Sharing", "Share content and achievements on social platforms"),
    Offer("search", "Advanced Search", "Powerful search functionality with filters and suggestions"),
    Offer("messaging", "In-App Messaging", "Real-time chat and communication features")
  ]

  /** The ids of a list of offers. */
  function OfferIds(offers: seq<Offer>): (r: seq<string>)
    ensures |r| == |offers|
    ensures forall i :: 0 <= i < |offers| ==> r[i] == offers[i].id
  {
    if |offers| == 0 then [] else [offers[0].id] + OfferIds(offers[1..])
  }

  predicate Distinct(ids: seq<string>) {
    forall i, j :: 0 <= i < j < |ids| ==> ids[i] != ids[j]
  }

  const FallbackIdList: seq<string> :=
    ["user-auth", "dashboard", "notifications", "analytics", "payment", "social-sharing", "search", "messaging"]

  /** The fallback's ids, written out. */
  lemma {:induction false} FallbackIds()
    ensures OfferIds(FallbackOffers) == FallbackIdList
  {
    var r := OfferIds(FallbackOffers);
    assert r[0] == FallbackIdList[0] && r[1] == FallbackIdList[1];
    assert r[2] == FallbackIdList[2] && r[3] == FallbackIdList[3];
    assert r[4] == FallbackIdList[4] && r[5] == FallbackIdList[5];
    assert r[6] == FallbackIdList[6] && r[7] == FallbackIdList[7];
  }

  /** The eight fallback features have pairwise different ids, so selecting one never selects another. */
  lemma {:induction false} FallbackIdsDistinct()
    ensures |FallbackOffers| == 8 && Distinct(OfferIds(FallbackOffers))
  {
    FallbackIds();
    FallbackIdListDistinct();
  }

  lemma {:induction false} FallbackIdListDistinct()
    ensures Distinct(FallbackIdList)
  {
    var ids := FallbackIdList;
    forall i, j | 0 <= i < j < |ids|
      ensures ids[i] != ids[j]
    {
      FallbackIdLater(i);
      assert ids[j] == ids[i + 1..][j - i - 1];
    }
  }

  /** No fallback id occurs again later in the list. */
  lemma {:induction false} FallbackIdLater(i: nat)
    requires i < |FallbackIdList|
    ensures FallbackIdList[i] !in FallbackIdList[i + 1..]
  {
    var ids := FallbackIdList;
    if i == 0 { assert ids[0] !in ids[1..]; }
    else if i == 1 { assert ids[1] !in ids[2..]; }
    else if i == 2 { assert ids[2] !in ids[3..]; }
    else if i == 3 { assert ids[3] !in ids[4..]; }
    else if i == 4 { assert ids[4] !in ids[5..]; }
    else if i == 5 { assert ids[5] !in ids[6..]; }
    else if i == 6 { assert ids[6] !in ids[7..]; }
  }

  /** How `generatePersonalizedFeatures` ended: it threw, or returned `{ success, features }`. */
  datatype Personalized = Threw | Returned(success: bool, features: Option<seq<Offer>>)

  /** A personalised list that is used: a success with at least one feature (line 72). */
  predicate Usable(outcome: Personalized) {
    outcome.Returned? && outcome.success && outcome.features.Some? && |outcome.features.value| > 0
  }

  /** Lines 66-93: the features offered once loading is over. */
  function OfferedFeatures(chatLog: string, outcome: Personalized): (r: seq<Offer>)
    ensures |r| > 0
    ensures |Trim(chatLog)| > 0 && Usable(outcome) ==> r == outcome.features.value
    ensures !(|Trim(chatLog)| > 0 && Usable(outcome)) ==> r == FallbackOffers
  {
    if |Trim(chatLog)| > 0 && Usable(outcome) then outcome.features.value else FallbackOffers
  }

  /** Without a chat log the model is not consulted at all: whatever it would say, the fallback is shown. */
  lemma {:induction false} BlankLogFallback(chatLog: string, outcome: Personalized)
    requires AllSpace(chatLog)
    ensures OfferedFeatures(chatLog, outcome) == FallbackOffers
  {
    TrimUnique(chatLog, "", "");
    assert chatLog + "" + "" == chatLog;
  }

  /** The generating flag and the call `handleGenerateFlowchart` makes (lines 103-110). */
  datatype Generate = Generate(call: Option<seq<string>>, isGenerating: bool)

  function GenerateFlowchart(selected: seq<string>, isGenerating: bool): (r: Generate)
    ensures r.call.Some? <==> |selected| > 0
    ensures r.call.Some? ==> r.call.value == selected && r.isGenerating
    ensures r.call.None? ==> r.isGenerating == isGenerating
  {
    if |selected| == 0 then Generate(None, isGenerating) else Generate(Some(selected), true)
  }

  /** Toggling one feature on from nothing is enough to generate, and generates with exactly that feature. */
  lemma {:induction false} OneToggleGenerates(id: string)
    ensures GenerateFlowchart(Toggle([], id), false) == Generate(Some([id]), true)
  {
    assert [] + [id] == [id];
  }

  // ---------------------------------------------------------------------
  // OnboardingModal

  /** Lines 8-15: the app types offered. */
  const AppTypeIds: seq<string> := ["mobile", "web", "ecommerce", "social", "saas", "other"]

  /** The two `localStorage` entries written on completion (lines 32-33). */
  datatype Stored = Stored(preferredAppTypes: string, onboardingComplete: string)

  /**
   * `handleComplete` (lines 27-39), also behind the close button (lines
   * 44-46): nothing with an empty selection, so the dialog cannot be
   * dismissed without choosing.
   */
  function Complete(selected: seq<string>): (r: Option<Stored>)
    ensures r.Some? <==> |selected| > 0
    ensures r.Some? ==> r.value.onboardingComplete == "true"
  {
    if |selected| == 0 then None else Some(Stored(Join(selected, ","), "true"))
  }

  /** The stored preference reads back as the selection when split at its commas. */
  lemma {:induction false} StoredTypesRoundTrip(selected: seq<string>)
    requires |selected| > 0
    requires forall i :: 0 <= i < |selected| ==> ',' !in selected[i]
    ensures Split(Complete(selected).value.preferredAppTypes, ',') == selected
  {
    SplitJoin(selected, ',');
  }

  /** None of the offered app types contains a comma, so any selection of them round-trips. */
  lemma {:induction false} AppTypesRoundTrip(selected: seq<string>)
    requires |selected| > 0
    requires forall i :: 0 <= i < |selected| ==> selected[i] in AppTypeIds
    ensures Split(Complete(selected).value.preferredAppTypes, ',') == selected
  {
    forall i | 0 <= i < |selected|
      ensures ',' !in selected[i]
    {
      var k :| 0 <= k < |AppTypeIds| && AppTypeIds[k] == selected[i];
    }
    StoredTypesRoundTrip(selected);
  }
}
