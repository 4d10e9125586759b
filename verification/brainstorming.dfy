/**
 * `src/components/BrainstormingChat.tsx`: the first step of the wizard. The
 * chat greets an empty transcript, sends what the user typed to the model
 * together with the transcript so far, appends exactly one reply, and
 * renders the model's replies with `formatGeminiResponse`.
 */
module Brainstorming {
  import opened Wrappers
  import opened Seqs
  import opened Text
  import opened Chat
  import opened GeminiService

  // ---------------------------------------------------------------------
  // `formatGeminiResponse` (lines 13-18)

  /**
   * Where a lazy `(.*?)` followed by the delimiter `d` stops in `u`: the
   * first place `d` occurs, provided no line terminator comes before it
   * (`.` does not match one).
   */
  function CloseAt(u: string, d: string): (r: Option<nat>)
    requires |d| > 0
    ensures r.Some? ==> r.value + |d| <= |u|
    decreases |u|
  {
    if StartsWith(u, d) then Some(0)
    else if |u| == 0 || IsLineTerminator(u[0]) then None
    else
      match CloseAt(u[1..], d)
      case None => None
      case Some(j) => Some(j + 1)
  }

  /**
   * The lazy match is the shortest: it ends at an occurrence of `d`, with no
   * earlier occurrence and no line terminator before it. When it finds
   * nothing, `d` does not occur anywhere before the first line terminator.
   */
  lemma {:induction false} CloseAtSpec(u: string, d: string)
    requires |d| > 0
    ensures var r := CloseAt(u, d);
      && (r.Some? ==> OccursAt(u, d, r.value))
      && (r.Some? ==> forall k :: 0 <= k < r.value ==> !IsLineTerminator(u[k]) && !OccursAt(u, d, k))
      && (r.None? ==> forall k :: 0 <= k <= |u| && LineBefore(u, k) ==> !OccursAt(u, d, k))
    decreases |u|
  {
    if StartsWith(u, d) {
      assert OccursAt(u, d, 0);
    } else if |u| == 0 || IsLineTerminator(u[0]) {
      forall k | 0 <= k <= |u| && LineBefore(u, k)
        ensures !OccursAt(u, d, k)
      {
      }
    } else {
      CloseAtSpec(u[1..], d);
      match CloseAt(u[1..], d)
      case None =>
        CloseAtNoneShift(u, d);
      case Some(j) =>
        CloseAtShift(u, d, j);
    }
  }

  /** No line terminator among the first `k` characters. */
  predicate LineBefore(u: string, k: nat)
    requires k <= |u|
  {
    forall i :: 0 <= i < k ==> !IsLineTerminator(u[i])
  }

  /** Nothing found one character on means nothing found in the whole text either. */
  lemma {:induction false} CloseAtNoneShift(u: string, d: string)
    requires |d| > 0 && |u| > 0 && !StartsWith(u, d)
    requires forall k :: 0 <= k <= |u[1..]| && LineBefore(u[1..], k) ==> !OccursAt(u[1..], d, k)
    ensures forall k :: 0 <= k <= |u| && LineBefore(u, k) ==> !OccursAt(u, d, k)
  {
    forall k | 0 <= k <= |u| && LineBefore(u, k)
      ensures !OccursAt(u, d, k)
    {
      if k > 0 {
        assert LineBefore(u[1..], k - 1) by {
          forall i | 0 <= i < k - 1
            ensures !IsLineTerminator(u[1..][i])
          {
            assert u[1..][i] == u[i + 1];
          }
        }
        OccursShift(u, d, k - 1);
      }
    }
  }

  /** A match found one character on, moved back to the whole text. */
  lemma {:induction false} CloseAtShift(u: string, d: string, j: nat)
    requires |u| > 0 && !IsLineTerminator(u[0]) && !StartsWith(u, d)
    requires OccursAt(u[1..], d, j)
    requires forall k :: 0 <= k < j ==> !IsLineTerminator(u[1..][k]) && !OccursAt(u[1..], d, k)
    ensures OccursAt(u, d, j + 1)
    ensures forall k :: 0 <= k < j + 1 ==> !IsLineTerminator(u[k]) && !OccursAt(u, d, k)
  {
    OccursShift(u, d, j);
    forall k | 0 <= k < j + 1
      ensures !IsLineTerminator(u[k]) && !OccursAt(u, d, k)
    {
      if k > 0 {
        OccursShift(u, d, k - 1);
        assert u[k] == u[1..][k - 1];
      }
    }
  }

  /**
   * `t.replace(/D(.*?)D/g, open + '$1' + close)` for a delimiter `D`: scanning
   * from the left, each delimiter that has a closing one later on the same
   * line is replaced together with it, and the text between is kept.
   */
  function ReplacePairs(t: string, d: string, open: string, close: string): string
    requires |d| > 0
    decreases |t|
  {
    if |t| == 0 then ""
    else if StartsWith(t, d) && CloseAt(t[|d|..], d).Some? then
      var u := t[|d|..];
      var j := CloseAt(u, d).value;
      open + u[..j] + close + ReplacePairs(u[j + |d|..], d, open, close)
    else [t[0]] + ReplacePairs(t[1..], d, open, close)
  }

  const StrongClass: string := "font-bold text-green-400 glow-text"
  const StrongOpen: string := "<strong class=\"" + StrongClass + "\">"
  const StrongClose: string := "</strong>"
  const EmClass: string := "italic text-green-300"
  const EmOpen: string := "<em class=\"" + EmClass + "\">"
  const EmClose: string := "</em>"
  const LineBreak: string := "<br />"

  /** Bold first, then italic, then line breaks. */
  function FormatGeminiResponse(text: string): string {
    var bold := ReplacePairs(text, "**", StrongOpen, StrongClose);
    var italic := ReplacePairs(bold, "*", EmOpen, EmClose);
    ReplaceAll(italic, "\n", LineBreak)
  }

  /** A line terminator of the characters' own. */
  predicate SingleLine(x: string) {
    forall k :: 0 <= k < |x| ==> !IsLineTerminator(x[k])
  }

  /** A text with a line break after `x` starts with a delimiter exactly when `x` does. */
  lemma {:induction false} StartsWithBeforeBreak(x: string, b: string, d: string)
    requires '\n' !in d
    ensures StartsWith(x + "\n" + b, d) <==> StartsWith(x, d)
  {
    var t := x + "\n" + b;
    if |x| >= |d| {
      assert t[..|d|] == x[..|d|];
    } else if |d| <= |t| {
      assert t[..|d|][|x|] == '\n';
    }
  }

  /** The lazy match never looks past a line break. */
  lemma {:induction false} CloseAtBreak(u: string, b: string, d: string)
    requires |d| > 0 && '\n' !in d
    ensures CloseAt(u + "\n" + b, d) == CloseAt(u, d)
    decreases |u|
  {
    var t := u + "\n" + b;
    StartsWithBeforeBreak(u, b, d);
    if StartsWith(u, d) {
    } else if |u| == 0 {
      assert t[0] == '\n';
    } else {
      assert t[0] == u[0];
      assert t[1..] == u[1..] + "\n" + b;
      CloseAtBreak(u[1..], b, d);
    }
  }

  /** Each pass treats the lines on either side of a line break separately. */
  lemma {:induction false} PairsBreak(a: string, b: string, d: string, open: string, close: string)
    requires |d| > 0 && '\n' !in d
    ensures ReplacePairs(a + "\n" + b, d, open, close)
      == ReplacePairs(a, d, open, close) + "\n" + ReplacePairs(b, d, open, close)
    decreases |a|, 1
  {
    if |a| == 0 {
      var t := a + "\n" + b;
      StartsWithBeforeBreak(a, b, d);
      assert t[1..] == b;
    } else if StartsWith(a, d) && CloseAt(a[|d|..], d).Some? {
      PairsBreakHit(a, b, d, open, close);
    } else {
      PairsBreakSkip(a, b, d, open, close);
    }
  }

  /** The same step, with the span's text and what follows it named. */
  lemma {:induction false} PairsHitAt(t: string, d: string, open: string, close: string, j: nat, mid: string, rest: string)
    requires |d| > 0 && StartsWith(t, d) && CloseAt(t[|d|..], d) == Some(j)
    requires mid == t[|d|..][..j] && rest == t[|d|..][j + |d|..]
    ensures ReplacePairs(t, d, open, close) == open + mid + close + ReplacePairs(rest, d, open, close)
  {
  }

  /** One step of the scan when no span starts here. */
  lemma {:induction false} PairsSkip(t: string, d: string, open: string, close: string)
    requires |d| > 0 && |t| > 0 && !(StartsWith(t, d) && CloseAt(t[|d|..], d).Some?)
    ensures ReplacePairs(t, d, open, close) == [t[0]] + ReplacePairs(t[1..], d, open, close)
  {
  }

  /** A span that opens and closes within a line is found the same way when a line break follows. */
  lemma {:induction false} HitBeforeBreak(a: string, b: string, d: string)
    requires |d| > 0 && '\n' !in d
    requires StartsWith(a, d) && CloseAt(a[|d|..], d).Some?
    ensures var t := a + "\n" + b; var u := a[|d|..]; var j := CloseAt(u, d).value;
      && StartsWith(t, d) && CloseAt(t[|d|..], d) == Some(j)
      && t[|d|..][..j] == u[..j] && t[|d|..][j + |d|..] == u[j + |d|..] + "\n" + b
  {
    var t := a + "\n" + b;
    StartsWithBeforeBreak(a, b, d);
    var u := a[|d|..];
    assert t[|d|..] == u + "\n" + b;
    CloseAtBreak(u, b, d);
  }

  lemma {:induction false} PairsBreakHit(a: string, b: string, d: string, open: string, close: string)
    requires |d| > 0 && '\n' !in d
    requires StartsWith(a, d) && CloseAt(a[|d|..], d).Some?
    ensures ReplacePairs(a + "\n" + b, d, open, close)
      == ReplacePairs(a, d, open, close) + "\n" + ReplacePairs(b, d, open, close)
    decreases |a|, 0
  {
    var head, rest := HitUnfold(a, b, d, open, close);
    PairsBreak(rest, b, d, open, close);
    ConcatStep(ReplacePairs(a + "\n" + b, d, open, close), ReplacePairs(rest + "\n" + b, d, open, close),
      ReplacePairs(a, d, open, close), head, ReplacePairs(rest, d, open, close), "\n", ReplacePairs(b, d, open, close));
  }

  /**
   * A span opening the line is replaced the same way whether or not a line
   * break and more text follow; `rest` is what comes after its closing delimiter.
   */
  lemma {:induction false} HitUnfold(a: string, b: string, d: string, open: string, close: string) returns (head: string, rest: string)
    requires |d| > 0 && '\n' !in d
    requires StartsWith(a, d) && CloseAt(a[|d|..], d).Some?
    ensures |rest| < |a|
    ensures ReplacePairs(a, d, open, close) == head + ReplacePairs(rest, d, open, close)
    ensures ReplacePairs(a + "\n" + b, d, open, close) == head + ReplacePairs(rest + "\n" + b, d, open, close)
  {
    var t := a + "\n" + b;
    var u := a[|d|..];
    var j := CloseAt(u, d).value;
    rest := u[j + |d|..];
    head := open + u[..j] + close;
    HitBeforeBreak(a, b, d);
    PairsHitAt(t, d, open, close, j, u[..j], rest + "\n" + b);
    PairsHitAt(a, d, open, close, j, u[..j], rest);
  }

  /** A span starts before a line break exactly when it starts in the line alone. */
  lemma {:induction false} NoSpanBeforeBreak(a: string, b: string, d: string)
    requires |d| > 0 && '\n' !in d
    ensures var t := a + "\n" + b;
      (StartsWith(t, d) && CloseAt(t[|d|..], d).Some?) <==> (StartsWith(a, d) && CloseAt(a[|d|..], d).Some?)
  {
    var t := a + "\n" + b;
    StartsWithBeforeBreak(a, b, d);
    if StartsWith(a, d) {
      assert t[|d|..] == a[|d|..] + "\n" + b;
      CloseAtBreak(a[|d|..], b, d);
    }
  }

  /** Where no span opens, the scan moves one character on, with the line break still after the rest. */
  lemma {:induction false} SkipBeforeBreak(a: string, b: string, d: string)
    requires |d| > 0 && '\n' !in d && |a| > 0
    requires !(StartsWith(a, d) && CloseAt(a[|d|..], d).Some?)
    ensures var t := a + "\n" + b;
      && !(StartsWith(t, d) && CloseAt(t[|d|..], d).Some?)
      && |t| > 0 && t[0] == a[0] && t[1..] == a[1..] + "\n" + b
  {
    var t := a + "\n" + b;
    NoSpanBeforeBreak(a, b, d);
    assert t[1..] == a[1..] + "\n" + b;
  }

  lemma {:induction false} PairsBreakSkip(a: string, b: string, d: string, open: string, close: string)
    requires |d| > 0 && '\n' !in d && |a| > 0
    requires !(StartsWith(a, d) && CloseAt(a[|d|..], d).Some?)
    ensures ReplacePairs(a + "\n" + b, d, open, close)
      == ReplacePairs(a, d, open, close) + "\n" + ReplacePairs(b, d, open, close)
    decreases |a|, 0
  {
    var t := a + "\n" + b;
    var x := [a[0]];
    PairsBreak(a[1..], b, d, open, close);
    SkipBeforeBreak(a, b, d);
    PairsSkip(t, d, open, close);
    PairsSkip(a, d, open, close);
    ConcatStep(ReplacePairs(t, d, open, close), ReplacePairs(a[1..] + "\n" + b, d, open, close),
      ReplacePairs(a, d, open, close), x, ReplacePairs(a[1..], d, open, close), "\n", ReplacePairs(b, d, open, close));
  }

  /** Text free of the delimiter's first character passes through unchanged. */
  lemma {:induction false} PairsPlainPrefix(m: string, rest: string, d: string, open: string, close: string)
    requires |d| > 0 && d[0] !in m
    ensures ReplacePairs(m + rest, d, open, close) == m + ReplacePairs(rest, d, open, close)
    decreases |m|
  {
    if |m| == 0 {
      assert m + rest == rest;
    } else {
      var t := m + rest;
      assert t[0] == m[0];
      assert !StartsWith(t, d);
      assert t[1..] == m[1..] + rest;
      PairsPlainPrefix(m[1..], rest, d, open, close);
    }
  }

  /** The lazy match closes at the first delimiter after the opening one. */
  lemma {:induction false} CloseAtPlain(x: string, d: string, rest: string)
    requires |d| > 0 && d[0] !in x && SingleLine(x)
    ensures CloseAt(x + d + rest, d) == Some(|x|)
    decreases |x|
  {
    var u := x + d + rest;
    if |x| == 0 {
      assert u == d + rest;
      assert u[..|d|] == d;
    } else {
      assert u[0] == x[0];
      assert !StartsWith(u, d);
      assert u[1..] == x[1..] + d + rest;
      CloseAtPlain(x[1..], d, rest);
    }
  }

  /** A delimited span on one line becomes the tagged span, and the scan goes on after it. */
  lemma {:induction false} PairsSpan(x: string, rest: string, d: string, open: string, close: string)
    requires |d| > 0 && d[0] !in x && SingleLine(x)
    ensures ReplacePairs(d + x + d + rest, d, open, close) == open + x + close + ReplacePairs(rest, d, open, close)
  {
    var t := d + x + d + rest;
    assert t[..|d|] == d;
    var u := t[|d|..];
    assert u == x + d + rest;
    CloseAtPlain(x, d, rest);
    assert u[..|x|] == x;
    assert u[|x| + |d|..] == rest;
  }

  // ---------------------------------------------------------------------
  // What the formatting does

  /** Neither a star nor a line break. */
  predicate Plain(s: string) {
    '*' !in s && '\n' !in s
  }

  lemma {:induction false} PlainAppend(a: string, b: string)
    requires Plain(a) && Plain(b)
    ensures Plain(a + b)
  {
  }

  lemma {:induction false} StrongOpenPlain()
    ensures Plain(StrongOpen)
  {
    var a, b := "<strong class=\"", "\">";
    assert Plain(a) && Plain(b);
    assert Plain(StrongClass);
    PlainAppend(a, StrongClass);
    PlainAppend(a + StrongClass, b);
  }

  lemma {:induction false} EmOpenPlain()
    ensures Plain(EmOpen)
  {
    var a, b := "<em class=\"", "\">";
    assert Plain(a) && Plain(b);
    assert Plain(EmClass);
    PlainAppend(a, EmClass);
    PlainAppend(a + EmClass, b);
  }

  lemma {:induction false} ClosingTagsPlain()
    ensures Plain(StrongClose) && Plain(EmClose) && Plain(LineBreak)
  {
  }

  /** The tags bring in neither stars nor line breaks. */
  lemma {:induction false} TagsPlain()
    ensures Plain(StrongOpen) && Plain(StrongClose) && Plain(EmOpen) && Plain(EmClose) && Plain(LineBreak)
  {
    StrongOpenPlain();
    EmOpenPlain();
    ClosingTagsPlain();
  }

  /** The rendered reply is one line: every line break became a `<br />`. */
  lemma {:induction false} FormatNoNewline(text: string)
    ensures '\n' !in FormatGeminiResponse(text)
  {
    var bold := ReplacePairs(text, "**", StrongOpen, StrongClose);
    var italic := ReplacePairs(bold, "*", EmOpen, EmClose);
    TagsPlain();
    ReplaceAllRemovesChar(italic, '\n', LineBreak);
  }

  /** The newline pass, as a character replacement. */
  function Breaks(s: string): string {
    ReplaceChar(s, '\n', LineBreak)
  }

  /**
   * The lines of a reply are formatted one by one and joined with `<br />`:
   * no bold or italic span reaches across a line break.
   */
  lemma {:induction false} FormatLines(a: string, b: string)
    ensures FormatGeminiResponse(a + "\n" + b)
      == FormatGeminiResponse(a) + LineBreak + FormatGeminiResponse(b)
  {
    PairsBreak(a, b, "**", StrongOpen, StrongClose);
    var ba, bb := ReplacePairs(a, "**", StrongOpen, StrongClose), ReplacePairs(b, "**", StrongOpen, StrongClose);
    PairsBreak(ba, bb, "*", EmOpen, EmClose);
    var ia, ib := ReplacePairs(ba, "*", EmOpen, EmClose), ReplacePairs(bb, "*", EmOpen, EmClose);
    ReplaceCharMatches(ia + "\n" + ib, '\n', LineBreak);
    ReplaceCharMatches(ia, '\n', LineBreak);
    ReplaceCharMatches(ib, '\n', LineBreak);
    ReplaceCharAppend(ia + "\n", ib, '\n', LineBreak);
    ReplaceCharAppend(ia, "\n", '\n', LineBreak);
    assert Breaks("\n") == LineBreak;
  }

  /** Text with no star and no line break is shown as it is. */
  lemma {:induction false} FormatPlain(text: string)
    requires '*' !in text && '\n' !in text
    ensures FormatGeminiResponse(text) == text
  {
    assert text + "" == text;
    PairsPlainPrefix(text, "", "**", StrongOpen, StrongClose);
    PairsPlainPrefix(text, "", "*", EmOpen, EmClose);
    ReplaceCharMatches(text, '\n', LineBreak);
    ReplaceCharAbsent(text, '\n', LineBreak);
  }

  /**
   * `**x**` becomes a bold span and formatting goes on after its closing
   * stars: the match is lazy, so two bold spans on a line stay two.
   */
  lemma {:induction false} FormatBoldSpan(x: string, rest: string)
    requires '*' !in x && SingleLine(x)
    ensures FormatGeminiResponse("**" + x + "**" + rest) == StrongOpen + x + StrongClose + FormatGeminiResponse(rest)
  {
    TagsPlain();
    var span := StrongOpen + x + StrongClose;
    PairsSpan(x, rest, "**", StrongOpen, StrongClose);
    var br := ReplacePairs(rest, "**", StrongOpen, StrongClose);
    PairsPlainPrefix(span, br, "*", EmOpen, EmClose);
    var ir := ReplacePairs(br, "*", EmOpen, EmClose);
    assert '\n' !in x by { assert forall k :: 0 <= k < |x| ==> x[k] != '\n'; }
    ReplaceCharMatches(span + ir, '\n', LineBreak);
    ReplaceCharMatches(ir, '\n', LineBreak);
    ReplaceCharAppend(span, ir, '\n', LineBreak);
    ReplaceCharAbsent(span, '\n', LineBreak);
  }

  /** A star not followed by another passes the bold pass as it is. */
  lemma {:induction false} BoldPassLoneStar(rest: string)
    requires rest == "" || rest[0] != '*'
    ensures ReplacePairs("*" + rest, "**", StrongOpen, StrongClose)
      == "*" + ReplacePairs(rest, "**", StrongOpen, StrongClose)
  {
    var u := "*" + rest;
    assert !StartsWith(u, "**") by { if |u| >= 2 { assert u[..2][1] == rest[0]; } }
    PairsSkip(u, "**", StrongOpen, StrongClose);
    assert u[1..] == rest;
  }

  /** A star span that is not a bold one survives the bold pass. */
  lemma {:induction false} BoldPassKeepsStarSpan(x: string, rest: string)
    requires x != "" && '*' !in x && (rest == "" || rest[0] != '*')
    ensures ReplacePairs("*" + x + "*" + rest, "**", StrongOpen, StrongClose)
      == "*" + x + "*" + ReplacePairs(rest, "**", StrongOpen, StrongClose)
  {
    var t := "*" + x + "*" + rest;
    assert t == "*" + (x + ("*" + rest));
    assert x[0] != '*';
    BoldPassLoneStar(x + ("*" + rest));
    PairsPlainPrefix(x, "*" + rest, "**", StrongOpen, StrongClose);
    BoldPassLoneStar(rest);
  }

  /** `*x*` becomes an italic span, and formatting goes on after it. */
  lemma {:induction false} FormatItalicSpan(x: string, rest: string)
    requires x != "" && '*' !in x && SingleLine(x) && (rest == "" || rest[0] != '*')
    ensures FormatGeminiResponse("*" + x + "*" + rest) == EmOpen + x + EmClose + FormatGeminiResponse(rest)
  {
    TagsPlain();
    BoldPassKeepsStarSpan(x, rest);
    var br := ReplacePairs(rest, "**", StrongOpen, StrongClose);
    assert "*" + x + "*" + rest == "*" + x + "*" + rest;
    PairsSpan(x, br, "*", EmOpen, EmClose);
    var span := EmOpen + x + EmClose;
    var ir := ReplacePairs(br, "*", EmOpen, EmClose);
    assert '\n' !in x by { assert forall k :: 0 <= k < |x| ==> x[k] != '\n'; }
    ReplaceCharMatches(span + ir, '\n', LineBreak);
    ReplaceCharMatches(ir, '\n', LineBreak);
    ReplaceCharAppend(span, ir, '\n', LineBreak);
    ReplaceCharAbsent(span, '\n', LineBreak);
  }

  // ---------------------------------------------------------------------
  // The chat (lines 20-69)

  /** Line 33: the greeting of an empty transcript. */
  const Welcome: string :=
    "**Welcome, future entrepreneur!** I'm absolutely *thrilled* to help you brainstorm your startup idea. **Let's build something incredible together!** \n\nWhat **problem** are you passionate about solving? Tell me about the challenge that keeps you up at night - the one you *know* you can tackle better than anyone else!"

  /** Line 63: the reply shown when the model could not be reached. */
  const ErrorReply: string :=
    "**No worries!** Even the best entrepreneurs face technical hiccups. *Let's try that again* - your idea is too important to let a small glitch stop us!"

  /** Lines 29-37: when the chat opens on an empty transcript, the model greets first. */
  function Greet(messages: seq<ChatMessage>): (r: seq<ChatMessage>)
    ensures |r| >= 1
    ensures |messages| > 0 ==> r == messages
    ensures |messages| == 0 ==> r[0].role == Ai
  {
    if |messages| == 0 then [ChatMessage(Ai, Welcome)] else messages
  }

  datatype ChatState = ChatState(messages: seq<ChatMessage>, input: string, isLoading: bool)

  /** Line 40: a send does something only with text in the box and no answer pending. */
  predicate CanSend(s: ChatState) {
    |Trim(s.input)| > 0 && !s.isLoading
  }

  /** Lines 42-50: the user's message is appended trimmed, the box cleared, and the chat waits. */
  function BeginSend(s: ChatState): (r: ChatState)
    requires CanSend(s)
    ensures r.messages == s.messages + [ChatMessage(User, Trim(s.input))]
    ensures r.input == "" && r.isLoading
  {
    ChatState(s.messages + [ChatMessage(User, Trim(s.input))], "", true)
  }

  /**
   * Lines 54-65: the text of the reply appended: the service's response when
   * it succeeded with one, the apology otherwise.
   */
  function ReplyText(ex: Exchange): (r: string)
    ensures r != ""
    ensures ex.Answered? && ex.candidate.Some? && ex.candidate.value != "" ==> r == ex.candidate.value
    ensures ex.Answered? && (ex.candidate.None? || ex.candidate.value == "") ==> r == DefaultReply
    ensures !ex.Answered? ==> r == ErrorReply
  {
    var result := SendGeminiMessage(ex);
    if result.Ok? && result.value != "" then result.value else ErrorReply
  }

  /** Lines 52-68: the reply is appended after the user's message and the chat is free again. */
  function FinishSend(s: ChatState, ex: Exchange): (r: ChatState)
    ensures r.messages == s.messages + [ChatMessage(Ai, ReplyText(ex))]
    ensures r.input == s.input && !r.isLoading
  {
    s.(messages := s.messages + [ChatMessage(Ai, ReplyText(ex))], isLoading := false)
  }

  /**
   * The model's REST endpoint as the chat calls it (line 52): given the
   * transcript and the new message, how the exchange ended.
   */
  type Service = (seq<ChatMessage>, string) -> Exchange

  /**
   * `handleSend` from start to finish, with nothing typed meanwhile. The
   * service is asked with the `messages` of the render that handled the
   * click, which do not yet hold the new message, and with the trimmed text.
   */
  function Send(s: ChatState, ask: Service): (r: ChatState)
    ensures !CanSend(s) ==> r == s
    ensures CanSend(s) ==>
      && |r.messages| == |s.messages| + 2
      && r.messages[..|s.messages|] == s.messages
      && r.messages[|s.messages|] == ChatMessage(User, Trim(s.input))
      && r.messages[|s.messages| + 1] == ChatMessage(Ai, ReplyText(ask(s.messages, Trim(s.input))))
      && r.input == "" && !r.isLoading
  {
    if CanSend(s) then FinishSend(BeginSend(s), ask(s.messages, Trim(s.input))) else s
  }

  /** While an answer is pending nothing more can be sent: each send gets exactly one reply. */
  lemma {:induction false} PendingBlocksSend(s: ChatState, ask: Service)
    requires CanSend(s)
    ensures !CanSend(BeginSend(s))
    ensures var r := BeginSend(s); Send(r, ask) == r
  {
  }

  /** The message sent is never blank and has nothing left to trim. */
  lemma {:induction false} SentMessageTrimmed(s: ChatState, ask: Service)
    requires CanSend(s)
    ensures var m := Send(s, ask).messages[|s.messages|].content;
      m != "" && Trim(m) == m
  {
    TrimOfTrimmed(Trim(s.input));
  }

  /**
   * A transcript the chat itself wrote alternates: the model speaks first
   * and last, and the user in between.
   */
  predicate Alternating(messages: seq<ChatMessage>) {
    && |messages| % 2 == 1
    && forall i :: 0 <= i < |messages| ==> messages[i].role == (if i % 2 == 0 then Ai else User)
  }

  lemma {:induction false} GreetingAlternates()
    ensures Alternating(Greet([]))
  {
  }

  lemma {:induction false} SendKeepsAlternating(s: ChatState, ask: Service)
    requires Alternating(s.messages)
    ensures Alternating(Send(s, ask).messages)
  {
    if CanSend(s) {
      AlternatingExtend(s.messages, Send(s, ask).messages);
    }
  }

  /** A user message and then a model reply after an alternating transcript keep it alternating. */
  lemma {:induction false} AlternatingExtend(ms: seq<ChatMessage>, r: seq<ChatMessage>)
    requires Alternating(ms)
    requires |r| == |ms| + 2 && r[..|ms|] == ms && r[|ms|].role == User && r[|ms| + 1].role == Ai
    ensures Alternating(r)
  {
    var n := |ms|;
    forall i | 0 <= i < |r|
      ensures r[i].role == (if i % 2 == 0 then Ai else User)
    {
      if i < n {
        assert r[i] == r[..n][i];
      }
    }
  }


  /** The user typing into the box. */
  function Type(s: ChatState, text: string): (r: ChatState)
    ensures r.input == text && r.messages == s.messages && r.isLoading == s.isLoading
  {
    s.(input := text)
  }

  /** A conversation: each turn types a text and sends it to that turn's service. */
  function Converse(s: ChatState, turns: seq<(string, Service)>): ChatState
    decreases |turns|
  {
    if |turns| == 0 then s else Converse(Send(Type(s, turns[0].0), turns[0].1), turns[1..])
  }

  /** However the conversation goes, the transcript keeps alternating. */
  lemma {:induction false} ConverseKeepsAlternating(s: ChatState, turns: seq<(string, Service)>)
    requires Alternating(s.messages)
    ensures Alternating(Converse(s, turns).messages)
    decreases |turns|
  {
    if |turns| > 0 {
      var t := Type(s, turns[0].0);
      SendKeepsAlternating(t, turns[0].1);
      ConverseKeepsAlternating(Send(t, turns[0].1), turns[1..]);
    }
  }
}
