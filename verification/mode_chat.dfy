/**
 * `ai/src/App.tsx`: the companion chat with five modes. A send appends the
 * user's message, asks the service of the current mode, and appends exactly
 * one reply; in the general mode the reply may suggest another mode, which
 * is then switched to by two timers. The timers are not modelled as time:
 * `scheduled` records the switch they will perform, and `ShowSwitch` and
 * `ApplySwitch` are what their callbacks do.
 */
module ModeChat {
  import opened Wrappers
  import opened Text
  import opened GeneralChat

  /** `role: 'user' | 'model'` */
  datatype Speaker = UserSpeaker | ModelSpeaker

  datatype Message = Message(role: Speaker, parts: string)

  datatype State = State(
    mode: Mode,
    messages: seq<Message>,
    isLoading: bool,
    showModeSwitch: bool,
    scheduled: Option<Mode>)

  /** Lines 18-21. */
  const Initial: State := State(General, [], false, false, None)

  /** Lines 88-91: the reply shown when the service threw. */
  const ErrorReply: string := "I apologize, but I encountered an error. Please try again."

  /**
   * Lines 43-68: what the service of `mode` answered. `reply` is the model's
   * text (`Err` when the call threw); the general mode parses it for a
   * suggested mode, the four personas pass it through.
   */
  function Answer(mode: Mode, reply: Result<string>): (r: Result<(string, Option<Mode>)>)
    ensures r.Ok? <==> reply.Ok?
    ensures mode != General ==> r.Ok? ==> r.value == (reply.value, None)
    ensures mode == General && reply.Ok? ==>
      r.value == (ParseReply(reply.value).message, Some(ParseReply(reply.value).suggestedMode))
  {
    if mode == General then
      match SendGeneralMessage(reply)
      case Ok(g) => Ok((g.message, Some(g.suggestedMode)))
      case Err(e) => Err(e)
    else
      match reply
      case Ok(text) => Ok((text, None))
      case Err(e) => Err(e)
  }

  /** Line 77: a switch is scheduled only to a mode other than `general` and other than the current one. */
  function SwitchTo(mode: Mode, suggested: Option<Mode>): (r: Option<Mode>)
    ensures r.Some? <==> suggested.Some? && suggested.value != General && suggested.value != mode
    ensures r.Some? ==> r == suggested
  {
    if suggested.Some? && suggested.value != General && suggested.value != mode then suggested else None
  }

  /**
   * The service of the current mode (lines 47-66): given the history and the
   * user's message, the model's text, or `Err` when the call threw.
   */
  type Service = (seq<Message>, string) -> Result<string>

  /**
   * `sendMessage` (lines 32-96), after its `finally`. The history handed to
   * the service is the `messages` of the render that called it (line 45),
   * which do not yet hold the new message.
   */
  function SendMessage(s: State, userMessage: string, ask: Service): (r: State)
    ensures r.mode == s.mode && !r.isLoading && !r.showModeSwitch
    ensures |r.messages| == |s.messages| + 2
    ensures r.messages[..|s.messages|] == s.messages
    ensures r.messages[|s.messages|] == Message(UserSpeaker, userMessage)
    ensures r.messages[|s.messages| + 1].role == ModelSpeaker
    ensures var reply := ask(s.messages, userMessage);
      && (reply.Err? ==> r.messages[|s.messages| + 1].parts == ErrorReply && r.scheduled == s.scheduled)
      && (reply.Ok? && s.mode != General ==> r.messages[|s.messages| + 1].parts == reply.value)
      && (reply.Ok? && s.mode == General ==> r.messages[|s.messages| + 1].parts == ParseReply(reply.value).message)
  {
    var user := Message(UserSpeaker, userMessage);
    match Answer(s.mode, ask(s.messages, userMessage))
    case Ok((response, suggested)) =>
      var next := SwitchTo(s.mode, suggested);
      s.(messages := s.messages + [user, Message(ModelSpeaker, response)],
         isLoading := false, showModeSwitch := false,
         scheduled := if next.Some? then next else s.scheduled)
    case Err(_) =>
      s.(messages := s.messages + [user, Message(ModelSpeaker, ErrorReply)],
         isLoading := false, showModeSwitch := false)
  }

  /** Lines 78-79: the first timer shows the switch banner. */
  function ShowSwitch(s: State): (r: State)
    ensures s.scheduled.Some? ==> r.showModeSwitch
    ensures r.mode == s.mode && r.messages == s.messages
  {
    if s.scheduled.Some? then s.(showModeSwitch := true) else s
  }

  /** Lines 80-83: the second timer switches the mode and hides the banner. */
  function ApplySwitch(s: State): (r: State)
    ensures s.scheduled.Some? ==> r.mode == s.scheduled.value && !r.showModeSwitch && r.scheduled.None?
    ensures s.scheduled.None? ==> r == s
    ensures r.messages == s.messages
  {
    if s.scheduled.Some? then s.(mode := s.scheduled.value, showModeSwitch := false, scheduled := None) else s
  }

  /** Lines 98-101: a manual change; pending timers are not cancelled. */
  function ChangeMode(s: State, newMode: Mode): (r: State)
    ensures r.mode == newMode && !r.showModeSwitch
    ensures r.messages == s.messages && r.scheduled == s.scheduled
  {
    s.(mode := newMode, showModeSwitch := false)
  }

  // ---------------------------------------------------------------------
  // What a send guarantees

  /** Only the general mode can schedule a switch; the personas never do. */
  lemma {:induction false} PersonasNeverSuggest(s: State, userMessage: string, ask: Service)
    requires s.mode != General
    ensures SendMessage(s, userMessage, ask).scheduled == s.scheduled
  {
  }

  /** A scheduled switch always leads away from the current mode and never to `general`. */
  lemma {:induction false} ScheduledLeadsElsewhere(s: State, userMessage: string, ask: Service)
    requires s.scheduled.None?
    ensures var r := SendMessage(s, userMessage, ask);
      r.scheduled.Some? ==> r.scheduled.value != General && r.scheduled.value != s.mode
  {
  }

  /**
   * A tagged reply in the general mode: the tag's mode is scheduled, and the
   * reply shown is the text without the tag, trimmed.
   */
  lemma {:induction false} TaggedReplySchedules(s: State, userMessage: string, ask: Service, a: string, m: Mode, b: string)
    requires s.mode == General && m != General && NoTagBefore(a + Tag(m) + b, |a|)
    requires ask(s.messages, userMessage) == Ok(a + Tag(m) + b)
    ensures var r := SendMessage(s, userMessage, ask);
      r.scheduled == Some(m) && r.messages[|s.messages| + 1].parts == Trim(a + b)
  {
    ParseTagged(a, m, b);
  }

  /** A tag suggesting `general` schedules nothing. */
  lemma {:induction false} GeneralTagSchedulesNothing(s: State, userMessage: string, ask: Service, a: string, b: string)
    requires s.mode == General && s.scheduled.None? && NoTagBefore(a + Tag(General) + b, |a|)
    requires ask(s.messages, userMessage) == Ok(a + Tag(General) + b)
    ensures SendMessage(s, userMessage, ask).scheduled.None?
  {
    ParseTagged(a, General, b);
  }

  /** Once both timers have fired, the chat is in the suggested mode with the banner gone. */
  lemma {:induction false} SwitchCompletes(s: State, userMessage: string, ask: Service, a: string, m: Mode, b: string)
    requires s.mode == General && m != General && NoTagBefore(a + Tag(m) + b, |a|)
    requires ask(s.messages, userMessage) == Ok(a + Tag(m) + b)
    ensures var r := ApplySwitch(ShowSwitch(SendMessage(s, userMessage, ask)));
      r.mode == m && !r.showModeSwitch && r.scheduled.None?
  {
    TaggedReplySchedules(s, userMessage, ask, a, m, b);
  }
}
