/**
 * The two idea chats: `src/components/LandingPage.tsx` and
 * `src/components/IdeaInput.tsx`. Both send the trimmed text to
 * `generateIdeasResponse` and append the user's message and then exactly one
 * reply; the idea input also hands a new idea to the dashboard when the
 * model answered. The model's reply and the clock are parameters.
 */
module IdeaChat {
  import opened Wrappers
  import opened Text
  import opened FeatureFlowcharts
  import opened LibGemini

  /** The reply shown when the model could not be reached (both files, line 25 and line 40). */
  const Apology: string :=
    "Sorry, I encountered an error. Please make sure your Gemini API key is configured correctly."

  /** The component's state: the conversation, the text box and the busy flag. */
  datatype ChatBox = ChatBox(conversation: seq<HistoryEntry>, input: string, loading: bool)

  /** The initial state (IdeaInput.tsx, lines 10-12). */
  const Empty: ChatBox := ChatBox([], "", false)

  /** The guard of `handleSubmit`: text in the box and no answer pending. */
  predicate CanSubmit(s: ChatBox) {
    |Trim(s.input)| > 0 && !s.loading
  }

  /** The text appended for the model: its reply, or the apology when the call threw. */
  function ReplyMessage(reply: Result<string>): (r: string)
    ensures reply.Ok? ==> r == reply.value
    ensures reply.Err? ==> r == Apology
  {
    match GenerateIdeasResponse(reply)
    case Ok(text) => text
    case Err(_) => Apology
  }

  /**
   * `handleSubmit` of the landing page (lines 10-30): the trimmed text as the
   * user's message, the box cleared, then one reply, and the chat free again.
   */
  function Submit(s: ChatBox, reply: Result<string>): (r: ChatBox)
    ensures !CanSubmit(s) ==> r == s
    ensures CanSubmit(s) ==>
      && r.conversation == s.conversation + [HistoryEntry(User, Trim(s.input)), HistoryEntry(Ai, ReplyMessage(reply))]
      && r.input == "" && !r.loading
  {
    if CanSubmit(s) then
      ChatBox(s.conversation + [HistoryEntry(User, Trim(s.input)), HistoryEntry(Ai, ReplyMessage(reply))], "", false)
    else s
  }

  /** The message sent is never blank and has nothing left to trim. */
  lemma {:induction false} SubmittedMessageTrimmed(s: ChatBox, reply: Result<string>)
    requires CanSubmit(s)
    ensures var m := Submit(s, reply).conversation[|s.conversation|].message;
      m != "" && Trim(m) == m
  {
    TrimOfTrimmed(Trim(s.input));
  }

  /** A second submit without typing does nothing: the box was cleared. */
  lemma {:induction false} SubmitTwiceOnce(s: ChatBox, first: Result<string>, second: Result<string>)
    requires CanSubmit(s)
    ensures var r := Submit(s, first); Submit(r, second) == r
  {
    TrimOfTrimmed("");
  }

  /** A conversation these chats wrote: user and model take turns, the user first. */
  predicate Paired(conversation: seq<HistoryEntry>) {
    && |conversation| % 2 == 0
    && forall i :: 0 <= i < |conversation| ==> conversation[i].kind == (if i % 2 == 0 then User else Ai)
  }

  lemma {:induction false} SubmitKeepsPaired(s: ChatBox, reply: Result<string>)
    requires Paired(s.conversation)
    ensures Paired(Submit(s, reply).conversation)
  {
    if CanSubmit(s) {
      PairedExtend(s.conversation, Submit(s, reply).conversation);
    }
  }

  /** A user message and then a model reply after a paired conversation keep it paired. */
  lemma {:induction false} PairedExtend(c: seq<HistoryEntry>, r: seq<HistoryEntry>)
    requires Paired(c)
    requires |r| == |c| + 2 && r[..|c|] == c && r[|c|].kind == User && r[|c| + 1].kind == Ai
    ensures Paired(r)
  {
    var n := |c|;
    forall i | 0 <= i < |r|
      ensures r[i].kind == (if i % 2 == 0 then User else Ai)
    {
      if i < n {
        assert r[i] == r[..n][i];
      }
    }
  }


  // ---------------------------------------------------------------------
  // The idea handed to the dashboard (IdeaInput.tsx, lines 27-36)

  /** The idea record; the id is the clock's milliseconds in decimal, the creation time its ISO text. */
  datatype Idea = Idea(id: string, title: string, description: string, status: string, createdAt: string)

  /** Line 30: the first fifty characters, with `...` when there were more. */
  function Title(message: string): (r: string)
    ensures |r| <= 53
    ensures |message| <= 50 ==> r == message
    ensures |message| > 50 ==> |r| == 53 && r[50..] == "..."
  {
    if |message| > 50 then message[..50] + "..." else message
  }

  /** The title starts with the message's opening characters, all of them when the message is short. */
  lemma {:induction false} TitleKeepsStart(message: string)
    ensures var k := if |message| < 50 then |message| else 50;
      StartsWith(Title(message), message[..k])
  {
  }

  /** A title is its own title. */
  lemma {:induction false} TitleIdempotent(message: string)
    ensures Title(Title(message)) == Title(message)
  {
    if |message| > 50 {
      var t := Title(message);
      assert t[..50] == message[..50];
    }
  }

  /** What a submit of the idea input ends with: the chat, and the idea created, if any. */
  datatype IdeaOutcome = IdeaOutcome(box: ChatBox, created: Option<Idea>)

  /**
   * `handleSubmit` of the idea input (lines 14-45): the conversation moves
   * exactly as on the landing page, and an idea with status `flow` is
   * created when the model answered.
   */
  function SubmitIdea(s: ChatBox, reply: Result<string>, now: nat, createdAt: string): (r: IdeaOutcome)
    ensures r.box == Submit(s, reply)
    ensures r.created.Some? <==> CanSubmit(s) && reply.Ok?
    ensures r.created.Some? ==>
      var message := Trim(s.input);
      && r.created.value.description == message
      && r.created.value.title == Title(message)
      && r.created.value.status == "flow"
      && r.created.value.id == Decimal(now)
  {
    var box := Submit(s, reply);
    if CanSubmit(s) && reply.Ok? then
      var message := Trim(s.input);
      IdeaOutcome(box, Some(Idea(Decimal(now), Title(message), message, "flow", createdAt)))
    else IdeaOutcome(box, None)
  }

  /** The idea describes exactly what the user said in the conversation. */
  lemma {:induction false} IdeaMatchesConversation(s: ChatBox, reply: Result<string>, now: nat, createdAt: string)
    requires SubmitIdea(s, reply, now, createdAt).created.Some?
    ensures var r := SubmitIdea(s, reply, now, createdAt);
      r.created.value.description == r.box.conversation[|s.conversation|].message
      && r.box.conversation[|s.conversation| + 1].message == reply.value
  {
  }

  /** The idea's id reads back as the clock value it was made from. */
  lemma {:induction false} IdeaIdReadsBack(s: ChatBox, reply: Result<string>, now: nat, createdAt: string)
    requires SubmitIdea(s, reply, now, createdAt).created.Some?
    ensures DecimalValue(SubmitIdea(s, reply, now, createdAt).created.value.id) == now
  {
    DecimalRoundTrip(now);
  }
}
