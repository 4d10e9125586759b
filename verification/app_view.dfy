/**
 * `src/components/AppView.tsx`: the screen-by-screen preview of a built app.
 * Only the carousel index is modelled: the screens themselves come from
 * storage, so a load is a parameter holding how many screens arrived.
 */
module AppView {
  import opened Wrappers
  import opened Numbers

  /** How many screens the preview holds and which one is shown (lines 11-12). */
  datatype Preview = Preview(screens: nat, index: int)

  /** Lines 11-12: no screens yet, index 0. */
  const Initial: Preview := Preview(0, 0)

  /** The index points at a screen whenever there is one to show. */
  predicate Valid(s: Preview) {
    0 <= s.index && (s.screens > 0 ==> s.index < s.screens)
  }

  /** Line 37: `(prev + 1) % screens.length`. */
  function NextScreen(i: int, n: int): (r: int)
    requires n > 0
    ensures 0 <= i ==> 0 <= r < n
  {
    JsRem(i + 1, n)
  }

  /** Line 41: `(prev - 1 + screens.length) % screens.length`. */
  function PrevScreen(i: int, n: int): (r: int)
    requires n > 0
    ensures 0 <= i ==> 0 <= r < n
  {
    JsRem(i - 1 + n, n)
  }

  /** Inside the range the two buttons undo each other. */
  lemma {:induction false} NextPrevInverse(i: int, n: int)
    requires 0 <= i < n
    ensures PrevScreen(NextScreen(i, n), n) == i
    ensures NextScreen(PrevScreen(i, n), n) == i
  {
    if i + 1 < n {
      ModSmall(i + 1, n);
      ModUnique(i + n, n, 1, i);
    } else {
      ModUnique(n, n, 1, 0);
      ModSmall(n - 1, n);
    }
    if i == 0 {
      ModSmall(n - 1, n);
      ModUnique(n, n, 1, 0);
    } else {
      ModUnique(i - 1 + n, n, 1, i - 1);
      ModSmall(i, n);
    }
  }

  /** `k` presses of the next button. */
  function Advance(i: int, n: int, k: nat): int
    requires n > 0
  {
    if k == 0 then i else NextScreen(Advance(i, n, k - 1), n)
  }

  /** `k` presses of the next button move `k` places round the ring. */
  lemma {:induction false} AdvanceIsModular(i: int, n: int, k: nat)
    requires n > 0 && 0 <= i < n
    ensures Advance(i, n, k) == (i + k) % n
  {
    if k == 0 {
      ModSmall(i, n);
    } else {
      AdvanceIsModular(i, n, k - 1);
      ModSucc(i + k - 1, n);
    }
  }

  /** Going all the way round comes back to the same screen. */
  lemma {:induction false} AdvanceFullCycle(i: int, n: int)
    requires n > 0 && 0 <= i < n
    ensures Advance(i, n, n) == i
  {
    AdvanceIsModular(i, n, n);
    ModUnique(i + n, n, 1, i);
  }

  /** The preview's controls: the two arrows and the tab of one screen. */
  datatype Event = Next | Prev | Tab(position: nat)

  /**
   * One click. The arrows and tabs are rendered only when there are screens
   * (line 55) and a tab exists only for a screen's position (lines 174-177),
   * so any other click is one the page cannot receive.
   */
  function Step(s: Preview, e: Event): (r: Preview)
    ensures r.screens == s.screens
    ensures s.screens == 0 ==> r == s
    ensures e.Tab? && e.position < s.screens ==> r.index == e.position
  {
    if s.screens == 0 then s
    else
      match e
      case Next => s.(index := NextScreen(s.index, s.screens))
      case Prev => s.(index := PrevScreen(s.index, s.screens))
      case Tab(p) => if p < s.screens then s.(index := p) else s
  }

  /** Clicks never move the index off the screens. */
  lemma {:induction false} StepKeepsValid(s: Preview, e: Event)
    requires Valid(s)
    ensures Valid(Step(s, e))
  {
  }

  /** A sequence of clicks. */
  function Run(s: Preview, events: seq<Event>): Preview
    decreases |events|
  {
    if |events| == 0 then s else Run(Step(s, events[0]), events[1..])
  }

  lemma {:induction false} RunKeepsValid(s: Preview, events: seq<Event>)
    requires Valid(s)
    ensures Valid(Run(s, events))
    decreases |events|
  {
    if |events| > 0 {
      StepKeepsValid(s, events[0]);
      RunKeepsValid(Step(s, events[0]), events[1..]);
    }
  }

  /**
   * `loadScreens` (lines 22-34): a stored build replaces the screens when it
   * has a `screens` array (any array is truthy, even an empty one); the index
   * is kept as it was.
   */
  function Load(s: Preview, loaded: Option<nat>): (r: Preview)
    ensures r.index == s.index
    ensures loaded.Some? ==> r.screens == loaded.value
    ensures loaded.None? ==> r == s
  {
    match loaded
    case Some(n) => s.(screens := n)
    case None => s
  }

  /** The first load after mounting leaves the index on the first screen. */
  lemma {:induction false} FirstLoadValid(loaded: Option<nat>)
    ensures Valid(Load(Initial, loaded))
  {
  }

  /** Because the index is kept, a second load with fewer screens leaves it past the end. */
  lemma {:induction false} ReloadCanLeaveRange()
    ensures var s := Run(Load(Initial, Some(3)), [Prev]);
      Valid(s) && !Valid(Load(s, Some(1)))
  {
    var s := Load(Initial, Some(3));
    assert Step(s, Prev).index == 2;
  }
}
