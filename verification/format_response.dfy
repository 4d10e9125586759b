/**
 * `src/utils/formatResponse.ts`: `formatAIResponse` turns an AI reply into
 * one display block per line. The React elements it builds are represented
 * by the `Block` datatype: which kind of block, and the text it shows.
 */
module FormatResponse {
  import opened Wrappers
  import opened Seqs
  import opened Text
  import opened Numbers

  /** A run of text inside a line that contains `**`. */
  datatype Piece = Plain(text: string) | Bold(text: string)

  /** What one input line becomes. */
  datatype Block =
    | Spacer
    | Pieces(pieces: seq<Piece>)
    | Bullet(text: string)
    | Numbered(number: string, text: string)
    | EmojiHeading(text: string)
    | Paragraph(text: string)

  /**
   * The bullet literal of line 38. In this file it reads as the three
   * characters U+00E2 U+20AC U+00A2 (the UTF-8 bytes of `•` taken one by one).
   */
  const BulletMark: string := "â€¢"

  /**
   * The character class of line 69, read the same way: the individual
   * characters of the mis-encoded emoji.
   */
  predicate IsEmojiMark(c: char) {
    || c == 'ğ' || c == 'Ÿ' || c == '”' || c == '§' || c == '“'
    || c == '±' || c == '¯' || c == '’' || c == '¡' || c == 'š'
    || c == '€' || c == 'â' || c == '¨' || c == 'Š' || c == '›'
    || c == ' ' || c == 'ï' || c == '¸'
  }

  /** Lines 21-29: odd-indexed parts are bold, even-indexed parts are kept only when non-empty. */
  function BoldPieces(parts: seq<string>, odd: bool): (r: seq<Piece>)
    ensures |r| <= |parts|
  {
    if |parts| == 0 then [] else HeadPiece(parts[0], odd) + BoldPieces(parts[1..], !odd)
  }

  /** The piece one part gives: bold at an odd index, plain text at an even one unless empty. */
  function HeadPiece(part: string, odd: bool): (r: seq<Piece>)
    ensures |r| <= 1
  {
    if odd then [Bold(part)] else if part != "" then [Plain(part)] else []
  }

  /** Length of the longest prefix without a line terminator: how far a greedy `.+` reaches. */
  function LineRun(s: string): (n: nat)
    ensures n <= |s|
    ensures forall i :: 0 <= i < n ==> !IsLineTerminator(s[i])
    ensures n < |s| ==> IsLineTerminator(s[n])
  {
    if |s| == 0 || IsLineTerminator(s[0]) then 0 else 1 + LineRun(s[1..])
  }

  /**
   * `/^(\d+)\.\s+(.+)/` on a line without trailing whitespace (line 53 only
   * sees trimmed lines): the number and the rest of the line up to any line
   * terminator. Because the line does not end in whitespace, the greedy
   * `\s+` never has to give characters back to `.+`.
   */
  function NumberedMatch(t: string): (r: Option<(string, string)>)
    requires |t| == 0 || !IsSpace(t[|t| - 1])
    ensures r.Some? ==> |r.value.0| >= 1 && AllDigits(r.value.0) && |r.value.1| >= 1
  {
    var d := DigitRun(t);
    if d == 0 || d >= |t| || t[d] != '.' then None
    else
      var w := SpaceRun(t[d + 1..]);
      if w == 0 then None
      else
        var p := d + 1 + w;
        assert IsSpace(t[d + w]) by {
          assert t[d + 1..][w - 1] == t[d + w];
        }
        assert !IsLineTerminator(t[p]) by {
          assert t[p] == t[d + 1..][w];
        }
        Some((t[..d], t[p..p + LineRun(t[p..])]))
  }

  /** Lines 8-85 for one line, branches in the source's order. */
  function FormatLine(line: string): (r: Block)
    ensures r.Spacer? <==> AllSpace(line)
    ensures r.Paragraph? || r.EmojiHeading? ==> r.text == Trim(line)
    ensures r.Bullet? ==> |Trim(line)| >= 2 && r.text == Trim(line)[2..]
  {
    var t := Trim(line);
    if t == "" then Spacer
    else if Contains(t, "**") then Pieces(BoldPieces(SplitOn(t, "**"), false))
    else if StartsWith(t, "- ") || StartsWith(t, BulletMark + " ") then Bullet(t[2..])
    else
      match NumberedMatch(t)
      case Some((number, text)) => Numbered(number, text)
      case None => if IsEmojiMark(t[0]) then EmojiHeading(t) else Paragraph(t)
  }

  /** `formatAIResponse`: one block per `\n`-separated line, in order. */
  function FormatAIResponse(text: string): (r: seq<Block>)
    ensures |r| == |Split(text, '\n')|
  {
    Map(FormatLine, Split(text, '\n'))
  }

  // ---------------------------------------------------------------------
  // What the formatter guarantees

  /** There is exactly one block per line: one more than there are line breaks. */
  lemma {:induction false} FormatAIResponseCount(text: string)
    ensures |FormatAIResponse(text)| == Occurrences(text, '\n') + 1
    ensures forall i :: 0 <= i < |FormatAIResponse(text)| ==> FormatAIResponse(text)[i] == FormatLine(Split(text, '\n')[i])
  {
    SplitCount(text, '\n');
  }

  /** The text a piece stands for, with its markers put back. */
  function Render(p: Piece): string {
    match p
    case Plain(x) => x
    case Bold(x) => "**" + x + "**"
  }

  function RenderAll(ps: seq<Piece>): string {
    if |ps| == 0 then "" else Render(ps[0]) + RenderAll(ps[1..])
  }

  lemma {:induction false} RenderAllAppend(a: seq<Piece>, b: seq<Piece>)
    ensures RenderAll(a + b) == RenderAll(a) + RenderAll(b)
  {
    if |a| > 0 {
      assert (a + b)[1..] == a[1..] + b;
      RenderAllAppend(a[1..], b);
    } else {
      assert a + b == b;
    }
  }

  lemma {:induction false} RenderHeadPiece(part: string, odd: bool)
    ensures RenderAll(HeadPiece(part, odd)) == if odd then "**" + part + "**" else part
  {
    if odd {
      assert RenderAll([Bold(part)]) == Render(Bold(part)) + RenderAll([]);
    } else if part != "" {
      assert RenderAll([Plain(part)]) == Render(Plain(part)) + RenderAll([]);
    }
  }

  /** The pieces of parts starting at an even index, rendered. */
  lemma {:induction false} RenderPiecesStep(parts: seq<string>, odd: bool)
    requires |parts| >= 1
    ensures RenderAll(BoldPieces(parts, odd)) ==
      (if odd then "**" + parts[0] + "**" else parts[0]) + RenderAll(BoldPieces(parts[1..], !odd))
  {
    RenderAllAppend(HeadPiece(parts[0], odd), BoldPieces(parts[1..], !odd));
    RenderHeadPiece(parts[0], odd);
  }

  /**
   * Putting the markers back around the bold pieces rebuilds the parts
   * joined by `**`. Dropping empty plain parts loses nothing; the only
   * difference is one extra closing `**` when the last part is bold, that
   * is, when the markers were unbalanced.
   */
  lemma {:induction false} RenderBoldPieces(parts: seq<string>, odd: bool)
    requires |parts| >= 1
    ensures RenderAll(BoldPieces(parts, odd)) ==
      (if odd then "**" else "") + Join(parts, "**") + (if (|parts| % 2 == 1) == odd then "**" else "")
  {
    RenderPiecesStep(parts, odd);
    if |parts| == 1 {
      assert BoldPieces(parts[1..], !odd) == [];
    } else {
      var j := Join(parts[1..], "**");
      var oc := |parts| % 2 == 1;
      RenderBoldPieces(parts[1..], !odd);
      ParityPred(|parts|);
      BoldAssemble(RenderAll(BoldPieces(parts, odd)), RenderAll(BoldPieces(parts[1..], !odd)), Join(parts, "**"), parts[0], j, odd, oc, |parts[1..]| % 2 == 1);
    }
  }

  /** The step of `RenderBoldPieces` with the rendered text, its rest and the joined parts named. */
  lemma {:induction false} BoldAssemble(r: string, rest: string, join: string, x: string, j: string, odd: bool, oc: bool, restOdd: bool)
    requires r == (if odd then "**" + x + "**" else x) + rest
    requires restOdd == !oc
    requires rest == (if !odd then "**" else "") + j + (if restOdd == !odd then "**" else "")
    requires join == x + "**" + j
    ensures r == (if odd then "**" else "") + join + (if oc == odd then "**" else "")
  {
    RenderCons(x, j, odd, oc);
  }

  /** The string step of `RenderBoldPieces`: one more part in front of the rendered rest. */
  lemma {:induction false} RenderCons(x: string, j: string, odd: bool, oddCount: bool)
    ensures var tail := if (!oddCount) == !odd then "**" else "";
      (if odd then "**" + x + "**" else x) + ((if !odd then "**" else "") + j + tail) ==
      (if odd then "**" else "") + (x + "**" + j) + (if oddCount == odd then "**" else "")
  {
    var tail := if oddCount == odd then "**" else "";
    if odd {
      assert "**" + x + "**" + ("" + j + tail) == "**" + (x + "**" + j) + tail;
    } else {
      assert x + ("**" + j + tail) == "" + (x + "**" + j) + tail;
    }
  }

  /** Which pieces a `**` line is shown as. */
  lemma {:induction false} FormatLinePieces(line: string)
    requires FormatLine(line).Pieces?
    ensures FormatLine(line).pieces == BoldPieces(SplitOn(Trim(line), "**"), false)
  {
  }

  /**
   * A line with `**` is shown as pieces that, with their markers put back,
   * give the trimmed line exactly when its markers are balanced (an even
   * number of `**`), and the line plus one closing `**` otherwise.
   */
  lemma {:induction false} BoldLineRoundTrip(line: string)
    requires FormatLine(line).Pieces?
    ensures var parts := SplitOn(Trim(line), "**");
      RenderAll(FormatLine(line).pieces) == Trim(line) + (if |parts| % 2 == 0 then "**" else "")
  {
    FormatLinePieces(line);
    BoldTextRoundTrip(Trim(line));
  }

  /** The pieces of any text, rendered, give the text back, with one `**` more when the markers are unbalanced. */
  lemma {:induction false} BoldTextRoundTrip(t: string)
    ensures var parts := SplitOn(t, "**");
      RenderAll(BoldPieces(parts, false)) == t + (if |parts| % 2 == 0 then "**" else "")
  {
    var parts := SplitOn(t, "**");
    RenderBoldPieces(parts, false);
    JoinSplitOn(t, "**");
    assert "" + Join(parts, "**") == t;
  }

  /** The bold pieces are exactly the odd-indexed parts, in order. */
  function BoldTexts(ps: seq<Piece>): seq<string> {
    if |ps| == 0 then [] else (if ps[0].Bold? then [ps[0].text] else []) + BoldTexts(ps[1..])
  }

  /** Every second part, starting with the first (`odd`) or the second (`!odd`). */
  function OddParts(parts: seq<string>, odd: bool): seq<string> {
    if |parts| == 0 then [] else (if odd then [parts[0]] else []) + OddParts(parts[1..], !odd)
  }

  lemma {:induction false} BoldPiecesBold(parts: seq<string>, odd: bool)
    ensures BoldTexts(BoldPieces(parts, odd)) == OddParts(parts, odd)
  {
    if |parts| > 0 {
      var head := HeadPiece(parts[0], odd);
      BoldPiecesBold(parts[1..], !odd);
      BoldTextsAppend(head, BoldPieces(parts[1..], !odd));
      assert BoldTexts(head) == if odd then [parts[0]] else [];
    }
  }

  lemma {:induction false} BoldTextsAppend(a: seq<Piece>, b: seq<Piece>)
    ensures BoldTexts(a + b) == BoldTexts(a) + BoldTexts(b)
  {
    if |a| > 0 {
      assert (a + b)[1..] == a[1..] + b;
      BoldTextsAppend(a[1..], b);
    } else {
      assert a + b == b;
    }
  }

  /** The bold texts of a line are its odd-indexed `**`-parts, empty ones included. */
  lemma {:induction false} BoldLineBoldParts(line: string)
    requires FormatLine(line).Pieces?
    ensures BoldTexts(FormatLine(line).pieces) == OddParts(SplitOn(Trim(line), "**"), false)
  {
    FormatLinePieces(line);
    BoldPiecesBold(SplitOn(Trim(line), "**"), false);
  }

  /** Bold wins over bullet: a `- ` line with `**` in it becomes pieces. */
  lemma {:induction false} BoldBeforeBullet(x: string)
    requires Contains(Trim("- " + x), "**")
    ensures FormatLine("- " + x).Pieces?
  {
  }

  /** A line without whitespace at its ends shows up unchanged, whatever branch it takes. */
  lemma {:induction false} FormatLineTrimmed(line: string)
    requires |line| > 0 && !IsSpace(line[0]) && !IsSpace(line[|line| - 1])
    ensures FormatLine(line).Paragraph? ==> FormatLine(line).text == line
    ensures FormatLine(line).Bullet? ==> FormatLine(line).text == line[2..]
  {
    TrimOfTrimmed(line);
  }

  /**
   * `n. text` is read back as the number `n` and the text, provided the
   * text has no `**`, no line terminator, and no whitespace at its ends.
   */
  lemma {:induction false} NumberedRoundTrip(n: nat, text: string)
    requires |text| > 0 && !IsSpace(text[0]) && !IsSpace(text[|text| - 1])
    requires forall i :: 0 <= i < |text| ==> !IsLineTerminator(text[i])
    requires !Contains(". " + text, "**")
    ensures FormatLine(Decimal(n) + ". " + text) == Numbered(Decimal(n), text)
  {
    var num := Decimal(n);
    var t := num + ". " + text;
    assert t == num + (". " + text);
    NumberedLineTrimmed(num, text);
    NumberedMatchOf(num, text);
    NoMarkerAfterDigits(num, ". " + text);
    NotBulletAfterDigit(t);
    FormatLineNumbered(t);
  }

  lemma {:induction false} NumberedLineTrimmed(num: string, text: string)
    requires |num| >= 1 && AllDigits(num)
    requires |text| > 0 && !IsSpace(text[|text| - 1])
    ensures Trim(num + ". " + text) == num + ". " + text
  {
    var t := num + ". " + text;
    assert t[0] == num[0];
    assert t[|t| - 1] == text[|text| - 1];
    TrimOfTrimmed(t);
  }

  /**
   * The bullet test matches the mis-encoded mark as written, and then
   * `substring(2)` drops only two of the mark's three characters: `â€¢ x`
   * becomes the bullet `¢ x`.
   */
  lemma {:induction false} MisEncodedBullet(x: string)
    requires |x| > 0 && !IsSpace(x[|x| - 1]) && '*' !in x
    ensures FormatLine(BulletMark + " " + x) == Bullet("¢ " + x)
  {
    var t := BulletMark + " " + x;
    assert t[|t| - 1] == x[|x| - 1];
    TrimOfTrimmed(t);
    assert '*' !in t by {
      assert forall i :: 0 <= i < |x| ==> t[i + 4] == x[i];
    }
    NotContainsWithoutFirst(t, "**");
    assert t[..4] == BulletMark + " ";
    assert t[2..] == "¢ " + x;
  }

  /** A real `•` (U+2022) is never taken for a bullet. */
  lemma {:induction false} RealBulletNotBullet(x: string)
    ensures !FormatLine("\U{2022} " + x).Bullet?
  {
    var line := "\U{2022} " + x;
    var t := Trim(line);
    assert SpaceRun(line) == 0;
    assert t[0] == '\U{2022}';
    if |t| >= 2 {
      assert t[..2][0] == t[0];
    }
    if |t| >= 4 {
      assert t[..4][0] == t[0];
    }
  }

  /** A line that starts with a digit is no bullet. */
  lemma {:induction false} NotBulletAfterDigit(t: string)
    requires |t| >= 1 && IsDigit(t[0])
    ensures !StartsWith(t, "- ") && !StartsWith(t, BulletMark + " ")
  {
    if |t| >= 2 {
      assert t[..2][0] == t[0];
    }
    if |t| >= 4 {
      assert t[..4][0] == t[0];
    }
  }

  /** A trimmed line that is neither blank, bold nor a bullet goes to the numbered pattern first. */
  lemma {:induction false} FormatLineNumbered(t: string)
    requires t != "" && Trim(t) == t && !Contains(t, "**")
    requires !StartsWith(t, "- ") && !StartsWith(t, BulletMark + " ")
    requires NumberedMatch(t).Some?
    ensures FormatLine(t) == Numbered(NumberedMatch(t).value.0, NumberedMatch(t).value.1)
  {
  }

  /** The numbered pattern on `digits. text`. */
  lemma {:induction false} NumberedMatchOf(num: string, text: string)
    requires |num| >= 1 && AllDigits(num)
    requires |text| > 0 && !IsSpace(text[0]) && !IsSpace(text[|text| - 1])
    requires forall i :: 0 <= i < |text| ==> !IsLineTerminator(text[i])
    ensures NumberedMatch(num + ". " + text) == Some((num, text))
  {
    var t := num + ". " + text;
    NumberedPieces(num, text);
    LineRunAll(text);
    NumberedMatchParts(t, |num|);
  }

  /** The pieces of `num + ". " + text` as the match sees them. */
  lemma {:induction false} NumberedPieces(num: string, text: string)
    requires |num| >= 1 && AllDigits(num)
    requires |text| > 0 && !IsSpace(text[0])
    ensures var t := num + ". " + text; var d := |num|;
      && DigitRun(t) == d && t[d] == '.' && SpaceRun(t[d + 1..]) == 1
      && t[..d] == num && t[d + 2..] == text
  {
    var t := num + ". " + text;
    var d := |num|;
    assert t == num + (". " + text);
    DigitRunOfDigits(num, ". " + text);
    assert t[d + 1..] == " " + text;
    SpaceRunOfSpaces(" ", text);
    assert t[d + 2..] == text;
  }

  /** A digit run, a dot and exactly one space, followed by a rest without line terminators. */
  lemma {:induction false} NumberedMatchParts(t: string, d: nat)
    requires |t| > 0 && !IsSpace(t[|t| - 1])
    requires 1 <= d && d + 2 <= |t| && DigitRun(t) == d && t[d] == '.' && SpaceRun(t[d + 1..]) == 1
    requires LineRun(t[d + 2..]) == |t| - (d + 2)
    ensures NumberedMatch(t) == Some((t[..d], t[d + 2..]))
  {
    assert t[d + 2..d + 2 + LineRun(t[d + 2..])] == t[d + 2..];
  }

  lemma {:induction false} LineRunAll(s: string)
    requires forall i :: 0 <= i < |s| ==> !IsLineTerminator(s[i])
    ensures LineRun(s) == |s|
  {
    if |s| > 0 {
      LineRunAll(s[1..]);
    }
  }

  /** No `**` can start inside a run of digits. */
  lemma {:induction false} NoMarkerAfterDigits(num: string, rest: string)
    requires AllDigits(num) && !Contains(rest, "**")
    ensures !Contains(num + rest, "**")
  {
    if Contains(num + rest, "**") {
      var i :| 0 <= i <= |num + rest| && OccursAt(num + rest, "**", i);
      var s := num + rest;
      assert s[i] == s[i..i + 2][0] == '*';
      assert i >= |num|;
      assert s[i..i + 2] == rest[i - |num|..i - |num| + 2];
      assert OccursAt(rest, "**", i - |num|);
    }
  }
}
