/**
 * `src/App.tsx`: the five-step wizard from the landing page to the
 * generated flowchart. The state is the component's five `useState`
 * values; each handler is a transition. The flowchart service's answer is a
 * parameter (`Err` for `success: false` and for a thrown error alike).
 */
module Wizard {
  import opened Wrappers
  import opened Seqs
  import opened Text
  import opened Chat

  /** `AppStep` */
  datatype Step = Landing | Brainstorming | VisionMissionStep | FeatureSelection | Flowchart

  datatype State = State(
    step: Step,
    chatMessages: seq<ChatMessage>,
    visionMission: Option<VisionMission>,
    mermaidCode: string,
    isGenerating: bool)

  /** Lines 13-17. */
  const Initial: State := State(Landing, [], None, "", false)

  /** Lines 19-21: `handleCreateApp`. */
  function CreateApp(s: State): (r: State)
    ensures r.step == Brainstorming
    ensures r.(step := s.step) == s
  {
    s.(step := Brainstorming)
  }

  /** Lines 23-25: `handleEndBrainstorming`. */
  function EndBrainstorming(s: State): (r: State)
    ensures r.step == VisionMissionStep
    ensures r.(step := s.step) == s
  {
    s.(step := VisionMissionStep)
  }

  /** Lines 27-30: `handleVisionMissionSubmit` stores the pair and moves on. */
  function SubmitVisionMission(s: State, vm: VisionMission): (r: State)
    ensures r.step == FeatureSelection && r.visionMission == Some(vm)
    ensures r.(step := s.step, visionMission := s.visionMission) == s
  {
    s.(step := FeatureSelection, visionMission := Some(vm))
  }

  /**
   * Lines 32-51: `handleFeatureSelection`. Only a successful answer with a
   * non-empty diagram moves to the flowchart; the busy flag is cleared on
   * every path.
   */
  function SelectFeatures(s: State, answer: Result<string>): (r: State)
    ensures r.step == Flowchart <==> (answer.Ok? && answer.value != "") || (s.step == Flowchart)
    ensures answer.Ok? && answer.value != "" ==> r.mermaidCode == answer.value
    ensures !(answer.Ok? && answer.value != "") ==> r == s.(isGenerating := false)
    ensures !r.isGenerating
    ensures r.chatMessages == s.chatMessages && r.visionMission == s.visionMission
  {
    if answer.Ok? && answer.value != "" then
      s.(mermaidCode := answer.value, step := Flowchart, isGenerating := false)
    else
      s.(isGenerating := false)
  }

  /** Lines 53-59: `handleRestart`. */
  function Restart(s: State): (r: State)
    ensures r == Initial
  {
    s.(step := Landing, chatMessages := [], visionMission := None, mermaidCode := "", isGenerating := false)
  }

  /** `setChatMessages`, handed to the brainstorming chat (line 69). */
  function UpdateMessages(s: State, messages: seq<ChatMessage>): (r: State)
    ensures r.chatMessages == messages && r.step == s.step
  {
    s.(chatMessages := messages)
  }

  // ---------------------------------------------------------------------
  // The chat log handed to the feature selection and the service (lines 35, 76)

  function LogLine(m: ChatMessage): string {
    RoleName(m.role) + ": " + m.content
  }

  function ChatLog(messages: seq<ChatMessage>): string {
    Join(Map(LogLine, messages), "\n")
  }

  /** With single-line messages the log has one `role: content` line per message, in order. */
  lemma {:induction false} ChatLogLines(messages: seq<ChatMessage>)
    requires |messages| >= 1
    requires forall i :: 0 <= i < |messages| ==> '\n' !in messages[i].content
    ensures Split(ChatLog(messages), '\n') == Map(LogLine, messages)
  {
    var lines := Map(LogLine, messages);
    forall i | 0 <= i < |lines|
      ensures '\n' !in lines[i]
    {
      assert lines[i] == RoleName(messages[i].role) + ": " + messages[i].content;
    }
    SplitJoin(lines, '\n');
  }

  /** Each log line names its author as stored: `user: …` or `ai: …`. */
  lemma {:induction false} LogLineRole(m: ChatMessage)
    ensures StartsWith(LogLine(m), "user: ") <==> m.role == User
    ensures StartsWith(LogLine(m), "ai: ") <==> m.role == Ai
  {
    var l := LogLine(m);
    if m.role == User {
      assert l[..6] == "user: ";
      assert l[..4] != "ai: " by { assert l[0] == 'u'; }
    } else {
      assert l[..4] == "ai: ";
      assert |l| >= 6 ==> l[..6] != "user: " by { assert l[0] == 'a'; }
    }
  }

  // ---------------------------------------------------------------------
  // Runs of the wizard

  /** What the user can do; each event is a callback the step's screen receives (lines 61-89). */
  datatype Event =
    | CreateAppEvent
    | MessagesEvent(messages: seq<ChatMessage>)
    | EndBrainstormingEvent
    | VisionMissionEvent(vm: VisionMission)
    | FeaturesEvent(answer: Result<string>)
    | RestartEvent

  /** The callbacks `renderCurrentStep` passes to the screen of each step. */
  predicate Offered(step: Step, e: Event) {
    match step
    case Landing => e.CreateAppEvent?
    case Brainstorming => e.MessagesEvent? || e.EndBrainstormingEvent?
    case VisionMissionStep => e.VisionMissionEvent?
    case FeatureSelection => e.FeaturesEvent?
    case Flowchart => e.RestartEvent?
  }

  function Apply(s: State, e: Event): State {
    match e
    case CreateAppEvent => CreateApp(s)
    case MessagesEvent(messages) => UpdateMessages(s, messages)
    case EndBrainstormingEvent => EndBrainstorming(s)
    case VisionMissionEvent(vm) => SubmitVisionMission(s, vm)
    case FeaturesEvent(answer) => SelectFeatures(s, answer)
    case RestartEvent => Restart(s)
  }

  /** The order of the steps: the one an offered callback can lead to next. */
  function Successor(step: Step): Step {
    match step
    case Landing => Brainstorming
    case Brainstorming => VisionMissionStep
    case VisionMissionStep => FeatureSelection
    case FeatureSelection => Flowchart
    case Flowchart => Landing
  }

  /** An offered callback either keeps the step or moves to the next one, never elsewhere. */
  lemma {:induction false} OfferedMovesForward(s: State, e: Event)
    requires Offered(s.step, e)
    ensures Apply(s, e).step == s.step || Apply(s, e).step == Successor(s.step)
    ensures e.FeaturesEvent? ==> (Apply(s, e).step == Flowchart <==> e.answer.Ok? && e.answer.value != "")
  {
  }

  /**
   * What holds in every state the screens can reach: from the feature
   * selection on, a vision and mission have been stored; the flowchart step
   * always has a diagram; nothing is left generating.
   */
  predicate Consistent(s: State) {
    && (s.step == FeatureSelection || s.step == Flowchart ==> s.visionMission.Some?)
    && (s.step == Flowchart ==> s.mermaidCode != "")
    && !s.isGenerating
  }

  lemma {:induction false} OfferedKeepsConsistent(s: State, e: Event)
    requires Consistent(s) && Offered(s.step, e)
    ensures Consistent(Apply(s, e))
  {
  }

  /** The state after the events, when each was offered by the screen it was sent to. */
  function Run(s: State, events: seq<Event>): Option<State>
    decreases |events|
  {
    if |events| == 0 then Some(s)
    else if !Offered(s.step, events[0]) then None
    else Run(Apply(s, events[0]), events[1..])
  }

  lemma {:induction false} RunConsistent(s: State, events: seq<Event>)
    requires Consistent(s)
    ensures Run(s, events).Some? ==> Consistent(Run(s, events).value)
    decreases |events|
  {
    if |events| > 0 && Offered(s.step, events[0]) {
      OfferedKeepsConsistent(s, events[0]);
      RunConsistent(Apply(s, events[0]), events[1..]);
    }
  }

  /** Every run from the start ends in a consistent state. */
  lemma {:induction false} ReachableConsistent(events: seq<Event>)
    ensures Run(Initial, events).Some? ==> Consistent(Run(Initial, events).value)
  {
    RunConsistent(Initial, events);
  }

  /**
   * The callbacks the screens actually call. `LandingPage`
   * (`src/components/LandingPage.tsx`, line 5) declares no props, so the
   * `onCreateApp` handed to it at lines 64 and 87 is never called; the other
   * screens call what they are handed.
   */
  predicate Invoked(step: Step, e: Event) {
    step != Landing && Offered(step, e)
  }

  /** The state after the events, when each was called by the screen it was sent to. */
  function LiveRun(s: State, events: seq<Event>): Option<State>
    decreases |events|
  {
    if |events| == 0 then Some(s)
    else if !Invoked(s.step, events[0]) then None
    else LiveRun(Apply(s, events[0]), events[1..])
  }

  /** What the screens call is among what `renderCurrentStep` hands them, so every live run is a run. */
  lemma {:induction false} LiveRunIsRun(s: State, events: seq<Event>)
    ensures LiveRun(s, events).Some? ==> Run(s, events) == LiveRun(s, events)
    decreases |events|
  {
    if |events| > 0 && Invoked(s.step, events[0]) {
      LiveRunIsRun(Apply(s, events[0]), events[1..]);
    }
  }

  /** The running app never leaves the landing page: no callback is ever called there. */
  lemma {:induction false} StuckAtLanding(events: seq<Event>)
    ensures LiveRun(Initial, events).Some? <==> |events| == 0
    ensures LiveRun(Initial, events).Some? ==> LiveRun(Initial, events).value == Initial
  {
  }

  /**
   * The shortest way through the callbacks as `App.tsx` wires them: the four
   * forward callbacks reach the flowchart with the submitted pair. The
   * running app cannot take it, since its first step is never called
   * (`StuckAtLanding`).
   */
  lemma {:induction false} HappyPath(vm: VisionMission, code: string)
    requires code != ""
    ensures var events := [CreateAppEvent, EndBrainstormingEvent, VisionMissionEvent(vm), FeaturesEvent(Ok(code))];
      Run(Initial, events) == Some(State(Flowchart, [], Some(vm), code, false))
  {
    var events := [CreateAppEvent, EndBrainstormingEvent, VisionMissionEvent(vm), FeaturesEvent(Ok(code))];
    var s1 := CreateApp(Initial);
    var s2 := EndBrainstorming(s1);
    var s3 := SubmitVisionMission(s2, vm);
    var s4 := SelectFeatures(s3, Ok(code));
    assert Run(s4, []) == Some(s4);
    assert Run(s3, [FeaturesEvent(Ok(code))]) == Run(s4, []);
    assert Run(s2, [VisionMissionEvent(vm), FeaturesEvent(Ok(code))]) == Run(s3, [FeaturesEvent(Ok(code))]);
    assert Run(s1, events[1..]) == Run(s2, [VisionMissionEvent(vm), FeaturesEvent(Ok(code))]);
  }
}
