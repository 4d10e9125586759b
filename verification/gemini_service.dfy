/**
 * `src/services/gemini.ts`: the two calls of the wizard to the model's REST
 * endpoint. How the HTTP exchange ended is a parameter; the prompts are
 * built from the transcript and the selected features, and the reply is
 * reduced to a `{ success, response | mermaidCode, error }` record, here a
 * `Result`.
 */
module GeminiService {
  import opened Wrappers
  import opened Seqs
  import opened Text
  import opened Fences
  import opened Chat

  /** How the `fetch` of the endpoint ended. */
  datatype Exchange =
    | NotOk(statusText: string)
      // the response came back with `ok` false (lines 55-57, 105-107)
    | Threw(message: string)
      // `fetch` or `json()` threw; `message` is `String(error)`
    | Answered(candidate: Option<string>)
      // `data.candidates?.[0]?.content?.parts?.[0]?.text`

  /** `String(error)` for the error a call ends with; a non-OK status is thrown as an `Error`. */
  function ErrorText(ex: Exchange): string
    requires !ex.Answered?
  {
    match ex
    case NotOk(statusText) => "Error: Gemini API error: " + statusText
    case Threw(message) => message
  }

  // ---------------------------------------------------------------------
  // The transcript in the prompt (lines 8-10)

  /** One message as a prompt line: `User: …` for the user, `AI: …` for any other role. */
  function HistoryLine(m: ChatMessage): string {
    (if m.role == User then "User" else "AI") + ": " + m.content
  }

  function ConversationHistory(messages: seq<ChatMessage>): string {
    Join(Map(HistoryLine, messages), "\n")
  }

  /** The speaker label says who wrote the message, in both directions. */
  lemma {:induction false} HistoryLineLabel(m: ChatMessage)
    ensures StartsWith(HistoryLine(m), "User: ") <==> m.role == User
    ensures StartsWith(HistoryLine(m), "AI: ") <==> m.role == Ai
    ensures m.role == User ==> HistoryLine(m)[6..] == m.content
    ensures m.role == Ai ==> HistoryLine(m)[4..] == m.content
  {
    var l := HistoryLine(m);
    if m.role == User {
      assert l[..6] == "User: ";
      assert l[0] != "AI: "[0];
    } else {
      assert l[..4] == "AI: ";
      assert |l| >= 6 ==> l[..6][0] != "User: "[0];
    }
  }

  /** No history, no lines. */
  lemma {:induction false} ConversationHistoryEmpty()
    ensures ConversationHistory([]) == ""
  {
  }

  /** With single-line messages, the history has one line per message, in order. */
  lemma {:induction false} ConversationHistoryLines(messages: seq<ChatMessage>)
    requires |messages| >= 1
    requires forall i :: 0 <= i < |messages| ==> '\n' !in messages[i].content
    ensures Split(ConversationHistory(messages), '\n') == Map(HistoryLine, messages)
  {
    var lines := Map(HistoryLine, messages);
    forall i | 0 <= i < |lines|
      ensures '\n' !in lines[i]
    {
      assert lines[i] == (if messages[i].role == User then "User" else "AI") + ": " + messages[i].content;
    }
    SplitJoin(lines, '\n');
  }

  // ---------------------------------------------------------------------
  // `sendGeminiMessage` (lines 6-67)

  /** Line 60: the reply used when the model sent no text. */
  const DefaultReply: string :=
    "**Amazing!** I believe in your vision and I'm here to help you build something incredible! *Let's keep pushing forward together!*"

  /**
   * `sendGeminiMessage`: the model's text when it sent some (an empty text
   * is falsy and counts as none), the default reply otherwise; any failed
   * exchange gives `success: false` with the error's text.
   */
  function SendGeminiMessage(ex: Exchange): (r: Result<string>)
    ensures r.Ok? <==> ex.Answered?
    ensures r.Ok? ==> r.value != ""
    ensures ex.Answered? && ex.candidate.Some? && ex.candidate.value != "" ==> r == Ok(ex.candidate.value)
    ensures ex.Answered? && (ex.candidate.None? || ex.candidate.value == "") ==> r == Ok(DefaultReply)
    ensures r.Err? ==> r.error == ErrorText(ex)
  {
    match ex
    case Answered(candidate) =>
      var text := candidate.GetOr("");
      Ok(if text != "" then text else DefaultReply)
    case _ => Err(ErrorText(ex))
  }

  // ---------------------------------------------------------------------
  // `generateFlowchartFromChatLog` (lines 69-119)

  /** Line 71: the selected features as one comma-separated phrase. */
  function FeaturesText(selected: seq<string>): string {
    Join(selected, ", ")
  }

  /**
   * Splitting the phrase at its commas gives the features back, each but
   * the first after the space of the separator, provided no feature holds
   * a comma of its own.
   */
  lemma {:induction false} FeaturesTextParts(selected: seq<string>)
    requires |selected| >= 1
    requires forall i :: 0 <= i < |selected| ==> ',' !in selected[i]
    ensures Split(" " + FeaturesText(selected), ',') == PrefixEach(" ", selected)
  {
    JoinWiderSep(selected, ',', " ");
    assert [','] + " " == ", ";
    var parts := PrefixEach(" ", selected);
    forall i | 0 <= i < |parts|
      ensures ',' !in parts[i]
    {
      assert parts[i] == " " + selected[i];
    }
    SplitJoin(parts, ',');
  }

  /**
   * `generateFlowchartFromChatLog`: the reply with its Mermaid fences removed
   * and trimmed; no text at all gives an empty diagram, still a success.
   */
  function GenerateFlowchartFromChatLog(ex: Exchange): (r: Result<string>)
    ensures r.Ok? <==> ex.Answered?
    ensures r.Err? ==> r.error == ErrorText(ex)
  {
    match ex
    case Answered(candidate) => Ok(StripMermaidFences(candidate.GetOr("")))
    case _ => Err(ErrorText(ex))
  }

  /** The diagram handed back holds no code fence and has nothing left to trim. */
  lemma {:induction false} FlowchartCodeClean(ex: Exchange)
    requires ex.Answered?
    ensures NoTriple(GenerateFlowchartFromChatLog(ex).value)
    ensures Trim(GenerateFlowchartFromChatLog(ex).value) == GenerateFlowchartFromChatLog(ex).value
  {
    var u := RemoveFence(RemoveFence(ex.candidate.GetOr(""), "```mermaid"), "```");
    assert GenerateFlowchartFromChatLog(ex).value == StripMermaidFences(ex.candidate.GetOr("")) == Trim(u);
    StripMermaidFencesNoTriple(ex.candidate.GetOr(""));
    TrimOfTrimmed(Trim(u));
  }

  /** A missing candidate text gives an empty diagram with `success: true` (lines 110, 114). */
  lemma {:induction false} FlowchartMissingCandidate()
    ensures GenerateFlowchartFromChatLog(Answered(None)) == Ok("")
    ensures GenerateFlowchartFromChatLog(Answered(Some(""))) == Ok("")
  {
    assert RemoveFence("", "```mermaid") == "";
    assert RemoveFence("", "```") == "";
    TrimOfTrimmed("");
  }

  /** A reply that is one fenced Mermaid block gives back the block's body, trimmed. */
  lemma {:induction false} FlowchartFencedReply(body: string)
    requires NoBacktick(body)
    ensures GenerateFlowchartFromChatLog(Answered(Some("```mermaid\n" + body + "\n```"))) == Ok(Trim(body))
  {
    StripMermaidFencesBlock(body);
  }
}
