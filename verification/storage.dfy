/**
 * `src/services/supabase.ts`: saving and reading the chat log and the
 * complete app data. The remote bucket is a parameter (what the upload or
 * download answered); the browser's local storage is a map from keys to
 * texts that either works or throws on every call. Clocks are parameters.
 */
module Storage {
  import opened Wrappers
  import opened Seqs
  import opened Text
  import opened Chat

  // ---------------------------------------------------------------------
  // Upper case (line 125)

  /** `toUpperCase` on one character, for the ASCII letters. */
  function UpperChar(c: char): char {
    if 'a' <= c <= 'z' then (c as int - 32) as char else c
  }

  function UpperCase(s: string): (r: string)
    ensures |r| == |s|
  {
    seq(|s|, i requires 0 <= i < |s| => UpperChar(s[i]))
  }

  /** Upper-casing leaves no lower-case letter, changes nothing else, and is idempotent. */
  lemma {:induction false} UpperCaseSpec(s: string)
    ensures forall i :: 0 <= i < |s| ==> !('a' <= UpperCase(s)[i] <= 'z')
    ensures forall i :: 0 <= i < |s| && !('a' <= s[i] <= 'z') ==> UpperCase(s)[i] == s[i]
    ensures UpperCase(UpperCase(s)) == UpperCase(s)
  {
  }

  lemma {:induction false} UpperCaseRoles()
    ensures UpperCase("user") == "USER" && UpperCase("assistant") == "ASSISTANT"
  {
  }

  // ---------------------------------------------------------------------
  // The complete app data (lines 97-146)

  /** A message as handed to `saveAppDataToStorage`; the role is any text. */
  datatype StoredMessage = StoredMessage(role: string, content: string, timestamp: Option<string>)

  /** One entry of `conversationHistory` (lines 106-111). */
  datatype HistoryRecord = HistoryRecord(messageNumber: nat, speaker: string, timestamp: string, content: string)

  /** Line 108. */
  function Speaker(role: string): (r: string)
    ensures r == "USER" <==> role == "user"
    ensures r == "USER" || r == "AI_ASSISTANT"
  {
    if role == "user" then "USER" else "AI_ASSISTANT"
  }

  /** Line 109: the message's own timestamp unless it is missing or empty. */
  function Timestamp(m: StoredMessage, now: string): string {
    if m.timestamp.Some? && m.timestamp.value != "" then m.timestamp.value else now
  }

  /** The records of `msgs`, numbered on from `before`. */
  function HistoryFrom(msgs: seq<StoredMessage>, before: nat, now: string): (r: seq<HistoryRecord>)
    ensures |r| == |msgs|
    ensures forall i :: 0 <= i < |msgs| ==>
      r[i] == HistoryRecord(before + i + 1, Speaker(msgs[i].role), Timestamp(msgs[i], now), msgs[i].content)
    decreases |msgs|
  {
    if |msgs| == 0 then []
    else
      var m := msgs[0];
      [HistoryRecord(before + 1, Speaker(m.role), Timestamp(m, now), m.content)] + HistoryFrom(msgs[1..], before + 1, now)
  }

  /** Lines 106-111: one record per message, in order, numbered from 1. */
  function ConversationHistory(msgs: seq<StoredMessage>, now: string): seq<HistoryRecord> {
    HistoryFrom(msgs, 0, now)
  }

  /** The history keeps every message's text, in order, and numbers them 1, 2, 3, ... */
  lemma {:induction false} HistoryKeepsMessages(msgs: seq<StoredMessage>, now: string)
    ensures var h := ConversationHistory(msgs, now);
      && Map((r: HistoryRecord) => r.content, h) == Map((m: StoredMessage) => m.content, msgs)
      && (forall i :: 0 <= i < |h| ==> h[i].messageNumber == i + 1)
      && (forall i :: 0 <= i < |h| ==> (h[i].speaker == "USER" <==> msgs[i].role == "user"))
  {
    var h := ConversationHistory(msgs, now);
    var a, b := Map((r: HistoryRecord) => r.content, h), Map((m: StoredMessage) => m.content, msgs);
    assert |a| == |b|;
    forall i | 0 <= i < |a|
      ensures a[i] == b[i]
    {
      assert a[i] == h[i].content;
    }
  }

  /** Line 125: `ROLE: content`. */
  function FormatLine(m: StoredMessage): string {
    UpperCase(m.role) + ": " + m.content
  }

  /** Lines 124-126: the lines joined by a blank line. */
  function FormattedConversation(msgs: seq<StoredMessage>): string {
    Join(Map(FormatLine, msgs), "\n\n")
  }

  /** The parts read line by line: each element followed by an empty line, except the last. */
  function Spaced(xs: seq<string>): (r: seq<string>)
    requires |xs| >= 1
    ensures |r| == 2 * |xs| - 1
    ensures forall i :: 0 <= i < |r| && i % 2 == 0 ==> r[i] == xs[i / 2]
    ensures forall i :: 0 <= i < |r| && i % 2 == 1 ==> r[i] == ""
  {
    if |xs| == 1 then xs
    else
      var rest := Spaced(xs[1..]);
      var r := [xs[0]] + ([""] + rest);
      forall i | 2 <= i < |r|
        ensures r[i] == rest[i - 2]
        ensures (i - 2) % 2 == i % 2 && (i - 2) / 2 == i / 2 - 1
      {
        ShiftByTwo(i);
      }
      r
  }

  /** Moving two places keeps the parity and moves one pair back. */
  lemma {:induction false} ShiftByTwo(i: int)
    requires i >= 2
    ensures (i - 2) % 2 == i % 2 && (i - 2) / 2 == i / 2 - 1
  {
  }

  lemma {:induction false} JoinBlankLine(xs: seq<string>)
    requires |xs| >= 1
    ensures Join(xs, "\n\n") == Join(Spaced(xs), "\n")
  {
    if |xs| > 1 {
      JoinBlankLine(xs[1..]);
      var rest := Spaced(xs[1..]);
      assert Spaced(xs) == [xs[0]] + ([""] + rest);
      assert xs == [xs[0]] + xs[1..];
      JoinBlankCons(xs[0], xs[1..], rest);
    }
  }

  /** One more part in front: a `\n\n` before the rest reads as a `\n`, an empty line and a `\n`. */
  lemma {:induction false} JoinBlankCons(x: string, ys: seq<string>, lines: seq<string>)
    requires |ys| >= 1 && |lines| >= 1
    requires Join(ys, "\n\n") == Join(lines, "\n")
    ensures Join([x] + ys, "\n\n") == Join([x] + ([""] + lines), "\n")
  {
    var tail := Join(lines, "\n");
    JoinCons(x, ys, "\n\n");
    JoinCons("", lines, "\n");
    JoinCons(x, [""] + lines, "\n");
    assert x + "\n" + ("" + "\n" + tail) == x + "\n\n" + tail;
  }

  /**
   * Read line by line, the formatted conversation gives back each message's
   * `ROLE: content` line with a blank line between, as long as no role or
   * content holds a line break of its own.
   */
  lemma {:induction false} FormattedConversationLines(msgs: seq<StoredMessage>)
    requires |msgs| >= 1
    requires forall i :: 0 <= i < |msgs| ==> '\n' !in msgs[i].role && '\n' !in msgs[i].content
    ensures Split(FormattedConversation(msgs), '\n') == Spaced(Map(FormatLine, msgs))
  {
    var lines := Map(FormatLine, msgs);
    JoinBlankLine(lines);
    var parts := Spaced(lines);
    forall i | 0 <= i < |parts|
      ensures '\n' !in parts[i]
    {
      if i % 2 == 0 {
        var m := msgs[i / 2];
        assert parts[i] == UpperCase(m.role) + ": " + m.content;
        assert '\n' !in UpperCase(m.role);
      }
    }
    SplitJoin(parts, '\n');
  }

  /** The summary block (lines 138-145). */
  datatype Summary = Summary(
    totalMessages: nat,
    userMessages: nat,
    aiResponses: nat,
    hasVisionMission: bool,
    featuresSelected: nat,
    hasFlowchart: bool)

  /** What `saveAppDataToStorage` is given; the optional fields may be missing. */
  datatype AppData = AppData(
    userId: string,
    chatMessages: seq<StoredMessage>,
    visionMission: Option<VisionMission>,
    selectedFeatures: Option<seq<string>>,
    mermaidCode: Option<string>)

  predicate IsUserMessage(m: StoredMessage) { m.role == "user" }
  predicate IsAssistantMessage(m: StoredMessage) { m.role == "assistant" }

  /** No message is counted both as the user's and as the assistant's. */
  lemma {:induction false} RoleCountsDisjoint(msgs: seq<StoredMessage>)
    ensures Count(IsUserMessage, msgs) + Count(IsAssistantMessage, msgs) <= |msgs|
    decreases |msgs|
  {
    if |msgs| > 0 {
      RoleCountsDisjoint(msgs[1..]);
    }
  }

  function Summarize(data: AppData): (r: Summary)
    ensures r.totalMessages == |data.chatMessages|
    ensures r.userMessages + r.aiResponses <= r.totalMessages
    ensures r.hasVisionMission <==> data.visionMission.Some?
    ensures r.featuresSelected == if data.selectedFeatures.Some? then |data.selectedFeatures.value| else 0
    ensures r.hasFlowchart <==> data.mermaidCode.Some? && data.mermaidCode.value != ""
  {
    RoleCountsDisjoint(data.chatMessages);
    Summary(
      |data.chatMessages|,
      Count(IsUserMessage, data.chatMessages),
      Count(IsAssistantMessage, data.chatMessages),
      data.visionMission.Some?,
      if data.selectedFeatures.Some? then |data.selectedFeatures.value| else 0,
      data.mermaidCode.Some? && data.mermaidCode.value != "")
  }

  /** The summary's counts are those of the history written beside it. */
  lemma {:induction false} SummaryMatchesHistory(data: AppData, now: string)
    ensures Summarize(data).totalMessages == |ConversationHistory(data.chatMessages, now)|
    ensures Summarize(data).userMessages == Count((r: HistoryRecord) => r.speaker == "USER", ConversationHistory(data.chatMessages, now))
  {
    UserCountFrom(data.chatMessages, 0, now);
  }

  lemma {:induction false} UserCountFrom(msgs: seq<StoredMessage>, before: nat, now: string)
    ensures Count(IsUserMessage, msgs) == Count((r: HistoryRecord) => r.speaker == "USER", HistoryFrom(msgs, before, now))
    decreases |msgs|
  {
    if |msgs| > 0 {
      UserCountFrom(msgs[1..], before + 1, now);
      var h := HistoryFrom(msgs, before, now);
      assert h[1..] == HistoryFrom(msgs[1..], before + 1, now);
    }
  }

  /** The JSON document written to the bucket (lines 113-146), minus the local-time text. */
  datatype StoredAppData = StoredAppData(
    userId: string,
    timestamp: string,
    version: string,
    conversationHistory: seq<HistoryRecord>,
    formattedConversation: string,
    visionMission: Option<VisionMission>,
    selectedFeatures: seq<string>,
    mermaidCode: Option<string>,
    summary: Summary)

  /** Lines 113-146; `now` is the ISO time of the save. */
  function CompleteData(data: AppData, now: string): (r: StoredAppData)
    ensures r.version == "2.0" && r.userId == data.userId
    ensures |r.conversationHistory| == r.summary.totalMessages
    ensures r.mermaidCode.Some? <==> r.summary.hasFlowchart
    ensures r.summary.featuresSelected == |r.selectedFeatures|
    ensures r.visionMission == data.visionMission
  {
    StoredAppData(
      data.userId, now, "2.0",
      ConversationHistory(data.chatMessages, now),
      FormattedConversation(data.chatMessages),
      data.visionMission,
      if data.selectedFeatures.Some? then data.selectedFeatures.value else [],
      if data.mermaidCode.Some? && data.mermaidCode.value != "" then data.mermaidCode else None,
      Summarize(data))
  }

  // ---------------------------------------------------------------------
  // Saving and reading (lines 9-94, 152-170)

  /** What the bucket answered to an upload: done, an error result, or a thrown exception. */
  datatype Upload = Uploaded | UploadFailed(error: string) | UploadThrew(error: string)

  /** The browser's local storage; `failure` is the exception every call throws when it is unavailable. */
  datatype LocalStore = LocalStore(items: map<string, string>, failure: Option<string>)

  /** Lines 33 and 45. */
  function LogKey(userId: string): string {
    "chatlog_" + userId
  }

  /**
   * What `dumo/user.txt` holds. Both savers upsert this one path, whatever
   * the user (lines 24-25 and 153-154): the last save of either kind wins.
   * The timestamps of the chat-log document are left out.
   */
  datatype StoredFile = ChatLogFile(userId: string, chatLog: string) | AppDataFile(data: StoredAppData)

  /** A save's result as the caller sees it, the file uploaded, if any, and the local storage afterwards. */
  datatype SaveOutcome = SaveOutcome(success: bool, error: Option<string>, file: Option<StoredFile>, local: LocalStore)

  /**
   * `saveChatLogToStorage` (lines 9-53). A failed or thrown upload falls
   * back to local storage; when that throws too, the catch block tries it
   * once more and reports the exception it caught.
   */
  function SaveChatLog(chatLog: string, userId: string, upload: Upload, local: LocalStore): (r: SaveOutcome)
    ensures r.success <==> upload.Uploaded? || local.failure.None?
    ensures r.success <==> r.error.None?
    ensures r.file.Some? <==> upload.Uploaded?
    ensures r.file.Some? ==> r.file.value == ChatLogFile(userId, chatLog)
    ensures upload.Uploaded? ==> r.local == local
    ensures !upload.Uploaded? && local.failure.None? ==>
      r.local.items == local.items[LogKey(userId) := chatLog] && r.local.failure == local.failure
    ensures !r.success ==> r.local == local
  {
    match upload
    case Uploaded => SaveOutcome(true, None, Some(ChatLogFile(userId, chatLog)), local)
    case UploadFailed(_) =>
      if local.failure.None? then SaveOutcome(true, None, None, local.(items := local.items[LogKey(userId) := chatLog]))
      else SaveOutcome(false, local.failure, None, local)
    case UploadThrew(e) =>
      if local.failure.None? then SaveOutcome(true, None, None, local.(items := local.items[LogKey(userId) := chatLog]))
      else SaveOutcome(false, Some(e), None, local)
  }

  /**
   * Lines 58-65: a downloaded file and the `chatLog` field it parsed to, a
   * downloaded file without that field, nothing, or an exception (a
   * malformed file makes `JSON.parse` throw).
   */
  datatype Download = Downloaded(chatLog: string) | DownloadedWithoutLog | NotDownloaded | DownloadThrew(error: string)

  /** What the bucket's download gives for the file it holds. */
  function DownloadOf(file: Option<StoredFile>): Download {
    match file
    case None => NotDownloaded
    case Some(ChatLogFile(_, chatLog)) => Downloaded(chatLog)
    case Some(AppDataFile(_)) => DownloadedWithoutLog
  }

  /** The text found, success with `data` undefined, or the reason there is none. */
  datatype ReadOutcome = Found(data: string) | FoundNothing | NotFound(error: string)

  /** The message when neither place has a log (lines 73 and 86). */
  const NoLog: string := "No chat log found"

  /** Lines 69-76 and 82-89: the local copy, where an empty text counts as none. */
  function ReadLocal(userId: string, local: LocalStore, caught: string): (r: ReadOutcome)
    ensures r.Found? <==> local.failure.None? && LogKey(userId) in local.items && local.items[LogKey(userId)] != ""
  {
    if local.failure.Some? then NotFound(caught)
    else if LogKey(userId) in local.items && local.items[LogKey(userId)] != "" then Found(local.items[LogKey(userId)])
    else NotFound(NoLog)
  }

  /**
   * `getChatLogFromStorage` (lines 55-94): the bucket's copy first, then the
   * local one. An exception from local storage sends the function to its
   * catch block, which reads again and reports the exception it caught.
   */
  function GetChatLog(userId: string, download: Download, local: LocalStore): (r: ReadOutcome)
    ensures download.Downloaded? ==> r == Found(download.chatLog)
    ensures download.DownloadedWithoutLog? ==> r == FoundNothing
    ensures download.NotDownloaded? || download.DownloadThrew? ==>
      (r.Found? <==> local.failure.None? && LogKey(userId) in local.items && local.items[LogKey(userId)] != "")
    ensures (download.NotDownloaded? || download.DownloadThrew?) && local.failure.None? && r.NotFound? ==> r.error == NoLog
    ensures r.Found? && !download.Downloaded? ==> r.data == local.items[LogKey(userId)]
  {
    match download
    case Downloaded(log) => Found(log)
    case DownloadedWithoutLog => FoundNothing
    case NotDownloaded => ReadLocal(userId, local, if local.failure.Some? then local.failure.value else NoLog)
    case DownloadThrew(e) => ReadLocal(userId, local, e)
  }

  /** A log saved locally because the upload failed is read back when the bucket has none. */
  lemma {:induction false} LocalFallbackRoundTrip(chatLog: string, userId: string, upload: Upload, local: LocalStore, download: Download)
    requires !upload.Uploaded? && (download.NotDownloaded? || download.DownloadThrew?) && local.failure.None? && chatLog != ""
    ensures GetChatLog(userId, download, SaveChatLog(chatLog, userId, upload, local).local) == Found(chatLog)
  {
  }

  /** An empty log is saved, yet reads back as missing: the empty text is falsy. */
  lemma {:induction false} EmptyLogReadsAsMissing(userId: string, upload: Upload, local: LocalStore, download: Download)
    requires !upload.Uploaded? && (download.NotDownloaded? || download.DownloadThrew?) && local.failure.None?
    ensures SaveChatLog("", userId, upload, local).success
    ensures GetChatLog(userId, download, SaveChatLog("", userId, upload, local).local) == NotFound(NoLog)
  {
  }

  /** The outcome of `saveAppDataToStorage`: the document written, if any, and the result. */
  datatype AppSave = AppSave(written: Option<StoredAppData>, success: bool, error: Option<string>)

  /** Lines 152-170: there is no local fallback, so any upload problem is a failure. */
  function SaveAppData(data: AppData, now: string, upload: Upload): (r: AppSave)
    ensures r.success <==> upload.Uploaded?
    ensures r.success <==> r.written.Some?
    ensures r.success <==> r.error.None?
    ensures r.written.Some? ==> r.written.value == CompleteData(data, now)
  {
    match upload
    case Uploaded => AppSave(Some(CompleteData(data, now)), true, None)
    case UploadFailed(e) => AppSave(None, false, Some(e))
    case UploadThrew(e) => AppSave(None, false, Some(e))
  }

  /**
   * An uploaded chat log is what the next read finds, for whoever reads it:
   * the path does not depend on the user.
   */
  lemma {:induction false} UploadedLogReadsBack(chatLog: string, owner: string, reader: string, local: LocalStore, readerLocal: LocalStore)
    ensures var saved := SaveChatLog(chatLog, owner, Uploaded, local);
      GetChatLog(reader, DownloadOf(saved.file), readerLocal) == Found(chatLog)
  {
  }

  /**
   * Saving the complete app data overwrites the chat log: the next read
   * succeeds with no data, and the local copy is never consulted.
   */
  lemma {:induction false} AppDataHidesChatLog(data: AppData, now: string, reader: string, local: LocalStore)
    ensures var saved := SaveAppData(data, now, Uploaded);
      GetChatLog(reader, DownloadOf(Some(AppDataFile(saved.written.value))), local) == FoundNothing
  {
  }
}
