/**
 * `src/components/Dashboard.tsx`: the workspace with the idea list, the
 * navigation menu and the view they choose. The view is kept as the string
 * it is at run time, since selecting an idea copies the idea's status into it.
 */
module Dashboard {
  import opened Wrappers
  import opened IdeaChat

  /** Lines 18-24: the ids of the navigation items, in menu order. */
  const MenuIds: seq<string> := ["idea", "flow", "wireframe", "app", "monitor"]

  datatype Dash = Dash(view: string, current: Option<Idea>, ideas: seq<Idea>)

  /** Lines 8-10. */
  const Initial: Dash := Dash("idea", None, [])

  /** `handleIdeaCreated` (lines 12-16): the new idea goes first, becomes current, and the flow view opens. */
  function IdeaCreated(s: Dash, idea: Idea): (r: Dash)
    ensures r.ideas == [idea] + s.ideas
    ensures r.current == Some(idea) && r.view == "flow"
  {
    Dash("flow", Some(idea), [idea] + s.ideas)
  }

  /** Line 63: `idea.status || 'idea'`; the empty status is the only falsy one. */
  function ViewOf(idea: Idea): (r: string)
    ensures idea.status != "" ==> r == idea.status
    ensures r != ""
  {
    if idea.status != "" then idea.status else "idea"
  }

  /** Lines 61-63: clicking an idea in the list. */
  function SelectIdea(s: Dash, position: nat): (r: Dash)
    requires position < |s.ideas|
    ensures r.current == Some(s.ideas[position]) && r.ideas == s.ideas
    ensures r.view == ViewOf(s.ideas[position])
  {
    s.(current := Some(s.ideas[position]), view := ViewOf(s.ideas[position]))
  }

  /** The clicks the page offers: the plus button, an idea of the list, a menu item; and a created idea. */
  datatype Event = NewIdea | Select(position: nat) | Navigate(item: nat) | Created(idea: Idea)

  /** One event; a click on a list or menu position that is not drawn is one the page cannot receive. */
  function Step(s: Dash, e: Event): (r: Dash)
    ensures e.NewIdea? ==> r == s.(view := "idea")
    ensures e.Navigate? && e.item < |MenuIds| ==> r == s.(view := MenuIds[e.item])
    ensures e.Select? && e.position < |s.ideas| ==> r == SelectIdea(s, e.position)
    ensures e.Created? ==> r == IdeaCreated(s, e.idea)
  {
    match e
    case NewIdea => s.(view := "idea")
    case Select(p) => if p < |s.ideas| then SelectIdea(s, p) else s
    case Navigate(i) => if i < |MenuIds| then s.(view := MenuIds[i]) else s
    case Created(idea) => IdeaCreated(s, idea)
  }

  function Run(s: Dash, events: seq<Event>): Dash
    decreases |events|
  {
    if |events| == 0 then s else Run(Step(s, events[0]), events[1..])
  }

  /** An idea whose status names a view of the menu, or is empty. */
  predicate KnownStatus(idea: Idea) {
    idea.status == "" || idea.status in MenuIds
  }

  /**
   * What the dashboard keeps true: the current idea is one of the list, and
   * the view is a menu id as long as every idea's status is one.
   */
  predicate Consistent(s: Dash) {
    && (s.current.Some? ==> s.current.value in s.ideas)
    && ((forall i :: 0 <= i < |s.ideas| ==> KnownStatus(s.ideas[i])) ==> s.view in MenuIds)
  }

  lemma {:induction false} InitialConsistent()
    ensures Consistent(Initial)
  {
    assert Initial.view == MenuIds[0];
  }

  lemma {:induction false} StepKeepsConsistent(s: Dash, e: Event)
    requires Consistent(s)
    ensures Consistent(Step(s, e))
  {
    match e
    case NewIdea =>
      assert Step(s, e).view == MenuIds[0];
    case Select(p) =>
      if p < |s.ideas| {
        SelectKeepsConsistent(s, p);
      }
    case Navigate(i) =>
    case Created(idea) =>
      CreatedKeepsConsistent(s, idea);
  }

  lemma {:induction false} SelectKeepsConsistent(s: Dash, p: nat)
    requires Consistent(s) && p < |s.ideas|
    ensures Consistent(SelectIdea(s, p))
  {
    var r := SelectIdea(s, p);
    assert r.current.value == r.ideas[p];
    if KnownStatus(s.ideas[p]) && s.ideas[p].status == "" {
      assert r.view == MenuIds[0];
    }
  }

  lemma {:induction false} CreatedKeepsConsistent(s: Dash, idea: Idea)
    requires Consistent(s)
    ensures Consistent(IdeaCreated(s, idea))
  {
    var r := IdeaCreated(s, idea);
    assert r.ideas[0] == idea;
    assert r.view == MenuIds[1];
  }

  lemma {:induction false} RunKeepsConsistent(s: Dash, events: seq<Event>)
    requires Consistent(s)
    ensures Consistent(Run(s, events))
    decreases |events|
  {
    if |events| > 0 {
      StepKeepsConsistent(s, events[0]);
      RunKeepsConsistent(Step(s, events[0]), events[1..]);
    }
  }

  /** Ideas are never removed: the list only grows, by the created ideas, newest first. */
  lemma {:induction false} RunKeepsIdeas(s: Dash, events: seq<Event>)
    ensures var r := Run(s, events);
      |r.ideas| >= |s.ideas| && r.ideas[|r.ideas| - |s.ideas|..] == s.ideas
    decreases |events|
  {
    if |events| > 0 {
      var t := Step(s, events[0]);
      RunKeepsIdeas(t, events[1..]);
      var r := Run(t, events[1..]);
      if events[0].Created? {
        assert t.ideas[1..] == s.ideas;
        assert r.ideas[|r.ideas| - |s.ideas|..] == r.ideas[|r.ideas| - |t.ideas|..][1..];
      }
    }
  }
}
