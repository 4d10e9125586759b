/**
 * `src/components/MonitorView.tsx`: the analytics panel of a published app.
 * The figures and suggestions come from storage and are parameters; what is
 * modelled is how they are displayed and how acting on a suggestion changes
 * the stored list the panel reloads.
 */
module MonitorView {
  import opened Wrappers
  import opened Seqs
  import opened Numbers

  // ---------------------------------------------------------------------
  // Average session time (line 138)

  /** `Math.floor(t / 60)`: Dafny's division by a positive number already rounds down. */
  function Minutes(t: int): int {
    t / 60
  }

  /** `t % 60`, JavaScript's remainder. */
  function Seconds(t: int): int {
    JsRem(t, 60)
  }

  /** For a non-negative whole number of seconds the display reads back as the time it shows. */
  lemma {:induction false} SessionSplit(t: int)
    requires t >= 0
    ensures 60 * Minutes(t) + Seconds(t) == t
    ensures 0 <= Seconds(t) < 60 && Minutes(t) >= 0
  {
  }

  /** A negative time mixes a floored minute with a truncated second: `-30` reads as `-1m -30s`. */
  lemma {:induction false} NegativeSplitDisagrees()
    ensures Minutes(-30) == -1 && Seconds(-30) == -30
    ensures 60 * Minutes(-30) + Seconds(-30) != -30
  {
  }

  // ---------------------------------------------------------------------
  // Drop-off bars (lines 148-165)

  datatype Colour = Red | Orange | Green

  /** Lines 157-161. */
  function BarColour(rate: real): (r: Colour)
    ensures r == Red <==> rate > 20.0
    ensures r == Orange <==> 10.0 < rate <= 20.0
    ensures r == Green <==> rate <= 10.0
  {
    if rate > 20.0 then Red else if rate > 10.0 then Orange else Green
  }

  /** Line 163: the bar's width in percent. */
  function BarWidth(rate: real): real {
    rate * 4.0
  }

  function Severity(c: Colour): nat {
    match c
    case Green => 0
    case Orange => 1
    case Red => 2
  }

  /** A higher drop-off rate never shows a milder colour. */
  lemma {:induction false} ColourMonotone(a: real, b: real)
    requires a <= b
    ensures Severity(BarColour(a)) <= Severity(BarColour(b))
  {
  }

  /** The colour can be read off the bar: red past 80% of the track, orange past 40%. */
  lemma {:induction false} ColourFromWidth(rate: real)
    ensures BarColour(rate) == Red <==> BarWidth(rate) > 80.0
    ensures BarColour(rate) == Orange <==> 40.0 < BarWidth(rate) <= 80.0
    ensures BarColour(rate) == Green <==> BarWidth(rate) <= 40.0
  {
  }

  // ---------------------------------------------------------------------
  // Suggestions (lines 48-67, 187-250)

  datatype Suggestion = Suggestion(id: string, kind: string, text: string, status: string)

  predicate IsPending(s: Suggestion) {
    s.status == "pending"
  }

  /** Lines 190-191: the suggestions still waiting for a decision. */
  function PendingList(suggestions: seq<Suggestion>): (r: seq<Suggestion>)
    ensures forall i :: 0 <= i < |r| ==> r[i].status == "pending"
  {
    Filter(IsPending, suggestions)
  }

  /** Lines 234-235: the ones already acted on. */
  function PreviousList(suggestions: seq<Suggestion>): (r: seq<Suggestion>)
    ensures forall i :: 0 <= i < |r| ==> r[i].status != "pending"
  {
    Filter(Negate(IsPending), suggestions)
  }

  /** The two lists show every suggestion exactly once, each in its stored order. */
  lemma {:induction false} ListsPartition(suggestions: seq<Suggestion>)
    ensures multiset(PendingList(suggestions)) + multiset(PreviousList(suggestions)) == multiset(suggestions)
    ensures |PendingList(suggestions)| + |PreviousList(suggestions)| == |suggestions|
    ensures IsSubsequence(PendingList(suggestions), suggestions)
    ensures IsSubsequence(PreviousList(suggestions), suggestions)
  {
    FilterPartition(IsPending, suggestions);
    FilterPartitionLength(IsPending, suggestions);
    FilterIsSubsequence(IsPending, suggestions);
    FilterIsSubsequence(Negate(IsPending), suggestions);
  }

  /** Line 229: the "Previous Actions" header. */
  predicate HeaderShown(suggestions: seq<Suggestion>) {
    |PreviousList(suggestions)| > 0
  }

  /** The header is shown exactly when some suggestion has been acted on. */
  lemma {:induction false} HeaderShownIff(suggestions: seq<Suggestion>)
    ensures HeaderShown(suggestions) <==> exists i :: 0 <= i < |suggestions| && suggestions[i].status != "pending"
  {
    if exists i :: 0 <= i < |suggestions| && suggestions[i].status != "pending" {
      var i :| 0 <= i < |suggestions| && suggestions[i].status != "pending";
      assert !IsPending(suggestions[i]);
      assert Negate(IsPending)(suggestions[i]) == !IsPending(suggestions[i]);
      FilterComplete(Negate(IsPending), suggestions, i);
    } else {
      assert forall i :: 0 <= i < |suggestions| ==> !Negate(IsPending)(suggestions[i]);
      FilterNone(Negate(IsPending), suggestions);
    }
  }

  /** The two buttons of a pending suggestion (line 48). */
  datatype Action = Applied | Ignored

  function StatusOf(a: Action): string {
    match a
    case Applied => "applied"
    case Ignored => "ignored"
  }

  /** The learned preference recorded when a suggestion is applied (lines 57-64). */
  datatype Preference = Preference(key: string, value: string, learnedFrom: string)

  /** The stored rows with `id` take the action's status (line 55). */
  function SetStatus(suggestions: seq<Suggestion>, id: string, a: Action): (r: seq<Suggestion>)
    ensures |r| == |suggestions|
    ensures forall i :: 0 <= i < |r| ==>
      r[i] == (if suggestions[i].id == id then suggestions[i].(status := StatusOf(a)) else suggestions[i])
    decreases |suggestions|
  {
    if |suggestions| == 0 then []
    else
      var s := suggestions[0];
      [if s.id == id then s.(status := StatusOf(a)) else s] + SetStatus(suggestions[1..], id, a)
  }

  /** What acting on a suggestion leaves behind: the list the panel reloads and the preference stored, if any. */
  datatype ActOutcome = ActOutcome(reloaded: seq<Suggestion>, learned: Option<Preference>)

  /**
   * `handleSuggestionAction` (lines 48-67) against a store that answers every
   * call: `found` is the row with this `id` that `.single()` read, if any. The row's status
   * is updated; a preference is recorded only for an applied suggestion
   * that was found; the panel then shows the stored list again.
   */
  function Act(stored: seq<Suggestion>, id: string, a: Action, found: Option<Suggestion>): (r: ActOutcome)
    requires found.Some? ==> found.value.id == id && found.value in stored
    ensures r.reloaded == SetStatus(stored, id, a)
    ensures r.learned.Some? <==> a == Applied && found.Some?
    ensures r.learned.Some? ==> r.learned.value == Preference(found.value.kind, "applied", id)
  {
    var learned := if a == Applied && found.Some? then Some(Preference(found.value.kind, "applied", id)) else None;
    ActOutcome(SetStatus(stored, id, a), learned)
  }

  /** After an action no suggestion with that id is pending, and the header is shown. */
  lemma {:induction false} ActedLeavesPending(stored: seq<Suggestion>, id: string, a: Action, found: Option<Suggestion>, k: nat)
    requires k < |stored| && stored[k].id == id
    requires found.Some? ==> found.value.id == id && found.value in stored
    ensures var r := Act(stored, id, a, found).reloaded;
      (forall i :: 0 <= i < |PendingList(r)| ==> PendingList(r)[i].id != id) && HeaderShown(r)
  {
    var r := Act(stored, id, a, found).reloaded;
    HeaderShownIff(r);
    assert r[k].status == StatusOf(a);
    forall i | 0 <= i < |PendingList(r)|
      ensures PendingList(r)[i].id != id
    {
      var x := PendingList(r)[i];
      FilterSound(IsPending, r, x);
      var j :| 0 <= j < |r| && r[j] == x;
    }
  }
}
