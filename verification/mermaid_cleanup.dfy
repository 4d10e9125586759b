/**
 * The regular-expression cleanup that both flowchart normalisers apply to
 * diagram text returned by the language model (src/lib/featureFlowcharts.ts
 * and src/lib/gemini.ts). Each function models one `replace` call with the
 * matching rules of JavaScript regular expressions: leftmost match, greedy
 * quantifiers with backtracking, and a global scan that resumes after each
 * match.
 */
module MermaidCleanup {
  import opened Text
  import opened Seqs

  /** The keyword every Mermaid flowchart declaration starts with. */
  const Keyword: string := "flowchart"

  /** The declaration line synthesised when the model omits one. */
  const Header: string := "flowchart TD"

  /** The edge arrow. */
  const Arrow: string := "-->"

  // ---------------------------------------------------------------------
  // Whole-text stage

  /** The characters that `\s` does not match: the text as far as spacing is ignored. */
  function Visible(s: string): string {
    Filter((c: char) => !IsSpace(c), s)
  }

  lemma {:induction false} VisibleAppend(a: string, b: string)
    ensures Visible(a + b) == Visible(a) + Visible(b)
  {
    FilterAppend((c: char) => !IsSpace(c), a, b);
  }

  lemma {:induction false} VisibleOfSpaces(a: string)
    requires AllSpace(a)
    ensures Visible(a) == ""
  {
    if |a| > 0 {
      VisibleOfSpaces(a[1..]);
    }
  }

  /**
   * How many characters a `[\r\n]`-terminated match of `\s*[\r\n]` takes
   * from the start of `s`: the greedy `\s*` backs off to the last line break
   * inside the leading whitespace. Zero when there is none.
   */
  function BlankMatch(s: string): (n: nat)
    ensures n <= SpaceRun(s) && n <= |s|
    ensures n > 0 ==> s[n - 1] == '\n' || s[n - 1] == '\r'
    ensures forall i :: n <= i < SpaceRun(s) ==> s[i] != '\n' && s[i] != '\r'
  {
    LastBreak(s, SpaceRun(s))
  }

  function LastBreak(s: string, n: nat): (k: nat)
    requires n <= |s|
    ensures k <= n
    ensures k > 0 ==> s[k - 1] == '\n' || s[k - 1] == '\r'
    ensures forall i :: k <= i < n ==> s[i] != '\n' && s[i] != '\r'
  {
    if n == 0 then 0
    else if s[n - 1] == '\n' || s[n - 1] == '\r' then n
    else LastBreak(s, n - 1)
  }

  /**
   * `s.replace(/^\s*[\r\n]/gm, '')`, scanning from a position that is a line
   * start exactly when `atLineStart` holds: under the `m` flag `^` matches at
   * the start of the text and after any line terminator.
   */
  function DropBlankLines(s: string, atLineStart: bool): (r: string)
    ensures Visible(r) == Visible(s)
    decreases |s|
  {
    if |s| == 0 then s
    else if atLineStart && BlankMatch(s) > 0 then
      var n := BlankMatch(s);
      assert Visible(s) == Visible(s[n..]) by {
        assert s == s[..n] + s[n..];
        assert AllSpace(s[..n]) by {
          assert s[..n] == s[..SpaceRun(s)][..n];
        }
        VisibleAppend(s[..n], s[n..]);
        VisibleOfSpaces(s[..n]);
      }
      DropBlankLines(s[n..], true)
    else
      assert s == [s[0]] + s[1..];
      VisibleAppend([s[0]], s[1..]);
      var r := [s[0]] + DropBlankLines(s[1..], IsLineTerminator(s[0]));
      VisibleAppend([s[0]], DropBlankLines(s[1..], IsLineTerminator(s[0])));
      r
  }

  /** Lines 62-68 of featureFlowcharts.ts (and 55-61 of lib/gemini.ts): trim, drop code fences and blank lines, trim. */
  function StripFences(raw: string): string {
    var unfenced := ReplaceAll(ReplaceAll(Trim(raw), "```mermaid", ""), "```", "");
    Trim(DropBlankLines(unfenced, true))
  }

  /** No line break inside: the text is one line. */
  predicate SingleLine(s: string) {
    forall i :: 0 <= i < |s| ==> s[i] != '\n'
  }

  /** The pieces `split('\n')` yields are single lines. */
  lemma {:induction false} SplitLines(text: string)
    ensures forall i :: 0 <= i < |Split(text, '\n')| ==> SingleLine(Split(text, '\n')[i])
  {
    var parts := Split(text, '\n');
    forall i | 0 <= i < |parts|
      ensures SingleLine(parts[i])
    {
      assert '\n' !in parts[i];
    }
  }

  predicate NonBlank(l: string) {
    |l| > 0
  }

  /** Line 64/71: split into lines, trim each, keep the non-empty ones. */
  function NonEmptyLines(text: string): seq<string> {
    Filter(NonBlank, Map(Trim, Split(text, '\n')))
  }

  /** A single line with nothing left to trim. */
  predicate TrimmedLine(l: string) {
    SingleLine(l) && Trim(l) == l
  }

  lemma {:induction false} TrimLine(l: string)
    requires SingleLine(l)
    ensures TrimmedLine(Trim(l))
  {
    assert All((c: char) => c != '\n', l);
    TrimAll(l, (c: char) => c != '\n');
    TrimOfTrimmed(Trim(l));
  }

  lemma {:induction false} TrimLines(parts: seq<string>)
    requires forall i :: 0 <= i < |parts| ==> SingleLine(parts[i])
    ensures All(TrimmedLine, Map(Trim, parts))
  {
    var trimmed := Map(Trim, parts);
    forall i | 0 <= i < |trimmed|
      ensures TrimmedLine(trimmed[i])
    {
      TrimLine(parts[i]);
    }
  }

  /** Every line `NonEmptyLines` yields is a non-empty, trimmed, single line. */
  lemma {:induction false} NonEmptyLinesShape(text: string)
    ensures var lines := NonEmptyLines(text);
      forall i :: 0 <= i < |lines| ==> NonBlank(lines[i]) && SingleLine(lines[i]) && Trim(lines[i]) == lines[i]
  {
    var parts := Split(text, '\n');
    SplitLines(text);
    TrimLines(parts);
    FilterAll(NonBlank, TrimmedLine, Map(Trim, parts));
    var lines := NonEmptyLines(text);
    forall i | 0 <= i < |lines|
      ensures NonBlank(lines[i]) && SingleLine(lines[i]) && Trim(lines[i]) == lines[i]
    {
      assert TrimmedLine(lines[i]);
    }
  }

  /** Lines 73-76: put the declaration first unless the first line already is one. */
  function WithHeader(lines: seq<string>): (r: seq<string>)
    ensures |r| >= 1 && StartsWith(r[0], Keyword)
    ensures r == lines || r == [Header] + lines
    ensures r == [Header] + lines <==> |lines| == 0 || !StartsWith(lines[0], Keyword)
  {
    if |lines| == 0 || !StartsWith(lines[0], Keyword) then [Header] + lines else lines
  }

  /** Lines 62-76 (lib/gemini.ts 55-69): the trimmed non-empty lines of the unfenced text, headed by a declaration. */
  function HeadedLines(raw: string): seq<string> {
    WithHeader(NonEmptyLines(StripFences(raw)))
  }

  // ---------------------------------------------------------------------
  // Per-line stage

  /** The class `[""'']` of the source, whose four members are two straight double and two straight single quotes. */
  predicate IsQuote(c: char) {
    c == '"' || c == '\''
  }

  predicate NoQuote(s: string) {
    forall i :: 0 <= i < |s| ==> !IsQuote(s[i])
  }

  /** `.replace(/[""'']/g, '')` */
  function RemoveQuotes(s: string): (r: string)
    ensures NoQuote(r)
    ensures NoQuote(s) ==> r == s
  {
    var keep := (c: char) => !IsQuote(c);
    assert NoQuote(s) ==> Filter(keep, s) == s by {
      if NoQuote(s) {
        FilterKeepsAll(keep, s);
      }
    }
    Filter(keep, s)
  }

  /** `.replace(/\s+/g, ' ')`: every run of whitespace becomes one plain space. */
  function CollapseSpaces(s: string): (r: string)
    ensures Visible(r) == Visible(s)
    ensures forall i :: 0 <= i < |r| ==> IsSpace(r[i]) ==> r[i] == ' '
    ensures forall i :: 0 <= i < |r| - 1 ==> !(r[i] == ' ' && r[i + 1] == ' ')
    ensures |s| > 0 ==> |r| > 0 && (IsSpace(r[0]) <==> IsSpace(s[0]))
    decreases |s|
  {
    if |s| == 0 then s
    else if IsSpace(s[0]) then
      var w := SpaceRun(s);
      var rest := CollapseSpaces(s[w..]);
      assert Visible(s) == Visible(s[w..]) by {
        assert s == s[..w] + s[w..];
        VisibleAppend(s[..w], s[w..]);
        VisibleOfSpaces(s[..w]);
      }
      VisibleAppend(" ", rest);
      " " + rest
    else
      var rest := CollapseSpaces(s[1..]);
      assert s == [s[0]] + s[1..];
      VisibleAppend([s[0]], s[1..]);
      VisibleAppend([s[0]], rest);
      [s[0]] + rest
  }

  /** `.replace(/-->/g, ' --> ')`: every arrow gets a space on both sides, whatever was there before. */
  function PadArrows(s: string): (r: string)
    ensures !Contains(s, Arrow) ==> r == s
  {
    ReplaceAll(s, Arrow, " --> ")
  }

  /**
   * `.replace(/\|\s*([^|]+)\s*\|/g, '|$1|')`. From an opening `|`, the greedy
   * `\s*` takes the leading blanks and the greedy `[^|]+` then takes the rest
   * of the caption up to the closing `|`, so the second `\s*` always matches
   * nothing: leading blanks are dropped and trailing ones stay. A caption made
   * only of blanks keeps its last one, and `||` is not a match.
   */
  function TrimPipeLabels(s: string): (r: string)
    decreases |s|
  {
    if |s| == 0 then s
    else if s[0] == '|' && PipeLabelEnd(s[1..]) > 0 then
      var p := PipeLabelEnd(s[1..]);
      var caption := s[1..1 + p];
      var w := SpaceRun(caption);
      var kept := if w < |caption| then caption[w..] else caption[|caption| - 1..];
      "|" + kept + "|" + TrimPipeLabels(s[p + 2..])
    else
      [s[0]] + TrimPipeLabels(s[1..])
  }

  /** The length of the caption before the next `|`, when there is a next `|`; otherwise 0. */
  function PipeLabelEnd(s: string): (p: nat)
    ensures p > 0 ==> p < |s| && s[p] == '|' && '|' !in s[..p]
  {
    if '|' in s then IndexOfPipe(s) else 0
  }

  function IndexOfPipe(s: string): (p: nat)
    requires '|' in s
    ensures p < |s| && s[p] == '|' && '|' !in s[..p]
  {
    if s[0] == '|' then 0
    else
      var p := IndexOfPipe(s[1..]);
      assert s[..p + 1] == [s[0]] + s[1..][..p];
      p + 1
  }

  /** The brackets that open a node shape: `[`, `{` and `(`. */
  predicate IsBracket(c: char) {
    c == '[' || c == '{' || c == '('
  }

  /** Length of the ID token `[A-Z]\d*` starting `s`: its first character and the digits after it. */
  function IdLen(s: string): (n: nat)
    requires |s| > 0
    ensures 1 <= n <= |s| && AllDigits(s[1..n])
    ensures n < |s| ==> !IsDigit(s[n])
  {
    var d := DigitRun(s[1..]);
    assert s[1..1 + d] == s[1..][..d];
    1 + d
  }

  /** Where the whitespace after that ID token ends: how far `[A-Z]\d*\s*` reaches. */
  function GapEnd(s: string): (n: nat)
    requires |s| > 0
    ensures IdLen(s) <= n <= |s| && AllSpace(s[IdLen(s)..n])
    ensures n < |s| ==> !IsSpace(s[n])
  {
    var k := IdLen(s);
    var w := SpaceRun(s[k..]);
    assert s[k..k + w] == s[k..][..w];
    k + w
  }

  lemma {:induction false} IdLenUnique(s: string, n: nat)
    requires 1 <= n <= |s| && AllDigits(s[1..n])
    requires n < |s| ==> !IsDigit(s[n])
    ensures IdLen(s) == n
  {
    assert s[1..] == s[1..n] + s[n..];
    DigitRunOfDigits(s[1..n], s[n..]);
  }

  lemma {:induction false} GapEndUnique(s: string, n: nat)
    requires |s| > 0
    requires IdLen(s) <= n <= |s| && AllSpace(s[IdLen(s)..n])
    requires n < |s| ==> !IsSpace(s[n])
    ensures GapEnd(s) == n
  {
    var k := IdLen(s);
    assert s[k..] == s[k..n] + s[n..];
    SpaceRunOfSpaces(s[k..n], s[n..]);
  }

  /**
   * `s` starts with a match of `[A-Z]\d*\s+open`: an uppercase ID token
   * separated by whitespace from the bracket that follows it.
   */
  predicate GapAt(s: string, open: char) {
    |s| > 0 && IsUpper(s[0]) && IdLen(s) < GapEnd(s) < |s| && s[GapEnd(s)] == open
  }

  /** Whether `([A-Z]\d*)\s*open` matches at the start of `s`, given that `s[0]` is uppercase. */
  predicate GlueMatch(s: string, open: char)
    requires |s| > 0
  {
    GapEnd(s) < |s| && s[GapEnd(s)] == open
  }

  /** No position of `s` starts an ID token separated from a following `open` by whitespace. */
  predicate Glued(s: string, open: char)
    decreases |s|
  {
    |s| == 0 || (!GapAt(s, open) && Glued(s[1..], open))
  }

  predicate NoUpper(s: string) {
    forall i :: 0 <= i < |s| ==> !IsUpper(s[i])
  }

  /**
   * `.replace(/([A-Z]\d*)\s*\[/g, '$1[')` and its `{` and `(` siblings: the
   * whitespace between an ID token and the bracket is deleted.
   */
  function GlueIds(s: string, open: char): (r: string)
    requires IsBracket(open)
    ensures |s| > 0 ==> |r| > 0 && r[0] == s[0]
    ensures |s| == 0 ==> r == s
    decreases |s|
  {
    if |s| == 0 then s
    else if IsUpper(s[0]) && GlueMatch(s, open) then
      s[..IdLen(s)] + [open] + GlueIds(s[GapEnd(s) + 1..], open)
    else
      [s[0]] + GlueIds(s[1..], open)
  }

  /** Lines 82-91 of featureFlowcharts.ts: the cleanup applied to every non-declaration line. */
  function CleanLine(line: string): string {
    var t := Trim(TrimPipeLabels(PadArrows(CollapseSpaces(RemoveQuotes(line)))));
    GlueIds(GlueIds(GlueIds(t, '['), '{'), '(')
  }

  /** Lines 72-75 of lib/gemini.ts: the cleanup of the older normaliser, applied to every line. */
  function CleanLineBasic(line: string): string {
    Trim(CollapseSpaces(RemoveQuotes(line)))
  }

  // ---------------------------------------------------------------------
  // What the per-line cleanup guarantees

  lemma {:induction false} GluedAppend(a: string, b: string, open: char)
    requires NoUpper(a) && Glued(b, open)
    ensures Glued(a + b, open)
    decreases |a|
  {
    if |a| > 0 {
      assert (a + b)[0] == a[0];
      assert !IsUpper(a[0]);
      assert !GapAt(a + b, open);
      assert (a + b)[1..] == a[1..] + b;
      GluedAppend(a[1..], b, open);
      assert Glued((a + b)[1..], open);
    } else {
      assert a + b == b;
    }
  }

  lemma {:induction false} GluedSuffix(s: string, k: nat, open: char)
    requires Glued(s, open) && k <= |s|
    ensures Glued(s[k..], open)
    decreases k
  {
    if k > 0 {
      assert s[k..] == s[1..][k - 1..];
      GluedSuffix(s[1..], k - 1, open);
    }
  }

  lemma {:induction false} NoUpperSlice(s: string, i: nat, j: nat)
    requires NoUpper(s) && i <= j <= |s|
    ensures NoUpper(s[i..j])
  {
    assert forall x :: 0 <= x < j - i ==> s[i..j][x] == s[i + x];
  }

  /** Where no ID token starts, gluing moves on by one character. */
  lemma {:induction false} GlueIdsSkip(s: string, open: char)
    requires IsBracket(open) && |s| > 0 && !IsUpper(s[0])
    ensures GlueIds(s, open) == [s[0]] + GlueIds(s[1..], open)
  {
  }

  lemma {:induction false} GlueIdsNoUpper(a: string, b: string, open: char)
    requires IsBracket(open) && NoUpper(a)
    ensures GlueIds(a + b, open) == a + GlueIds(b, open)
    decreases |a|
  {
    if |a| == 0 {
      assert a + b == b;
    } else {
      NoUpperSlice(a, 1, |a|);
      assert a[1..|a|] == a[1..];
      GlueIdsNoUpper(a[1..], b, open);
      GlueIdsNoUpperStep(a, b, open);
    }
  }

  lemma {:induction false} GlueIdsNoUpperStep(a: string, b: string, open: char)
    requires IsBracket(open) && |a| > 0 && !IsUpper(a[0])
    requires GlueIds(a[1..] + b, open) == a[1..] + GlueIds(b, open)
    ensures GlueIds(a + b, open) == a + GlueIds(b, open)
  {
    var g := GlueIds(b, open);
    var t := a[1..] + b;
    assert [a[0]] + a[1..] == a;
    ConcatAssoc([a[0]], a[1..], b);
    assert a + b == [a[0]] + t;
    GlueIdsCons(a[0], t, open);
    assert GlueIds(a + b, open) == [a[0]] + GlueIds(t, open);
    ConcatAssoc([a[0]], a[1..], g);
  }

  lemma {:induction false} GlueIdsCons(x: char, rest: string, open: char)
    requires IsBracket(open) && !IsUpper(x)
    ensures GlueIds([x] + rest, open) == [x] + GlueIds(rest, open)
  {
    var s := [x] + rest;
    assert s[0] == x;
    assert s[1..] == rest;
    GlueIdsSkip(s, open);
  }

  /** Gluing leaves a prefix without ID tokens untouched. */
  lemma {:induction false} GlueIdsPrefix(t: string, k: nat, open: char)
    requires IsBracket(open) && k <= |t| && NoUpper(t[..k])
    ensures GlueIds(t, open) == t[..k] + GlueIds(t[k..], open)
  {
    assert t == t[..k] + t[k..];
    GlueIdsNoUpper(t[..k], t[k..], open);
  }

  /** Two texts that agree up to and including the end of the leading ID token's gap have the same gap. */
  lemma {:induction false} GapAgree(r: string, s: string, other: char)
    requires |s| > 0 && |r| > 0
    requires GapEnd(s) <= |r| && r[..GapEnd(s)] == s[..GapEnd(s)]
    requires GapEnd(s) < |s| <==> GapEnd(s) < |r|
    requires GapEnd(s) < |s| ==> r[GapEnd(s)] == s[GapEnd(s)]
    ensures GapAt(r, other) <==> GapAt(s, other)
  {
    var n := IdLen(s);
    var m := GapEnd(s);
    assert 1 <= n <= m <= |r| && m <= |s|;
    assert r[1..n] == s[1..n] by {
      assert r[1..n] == r[..m][1..n];
      assert s[1..n] == s[..m][1..n];
    }
    if n < m {
      assert r[n] == r[..m][n];
      assert s[n] == s[..m][n];
    }
    IdLenUnique(r, n);
    assert r[n..m] == s[n..m] by {
      assert r[n..m] == r[..m][n..m];
      assert s[n..m] == s[..m][n..m];
    }
    GapEndUnique(r, m);
    if m > 0 {
      assert r[0] == r[..m][0];
      assert s[0] == s[..m][0];
    }
  }

  /**
   * Where no glue match starts at `s[0]`, the glued text keeps the shape of
   * whatever ID token starts there, so it has a gap before any bracket
   * exactly when `s` has one.
   */
  lemma {:induction false} GlueIdsKeepsGap(s: string, open: char, other: char)
    requires IsBracket(open) && |s| > 0
    requires !(IsUpper(s[0]) && GlueMatch(s, open))
    ensures GapAt([s[0]] + GlueIds(s[1..], open), other) <==> GapAt(s, other)
  {
    if IsUpper(s[0]) {
      GlueIdsKeepsPrefix(s, open);
      GapAgree([s[0]] + GlueIds(s[1..], open), s, other);
    }
  }

  /** Gluing from just past an ID token keeps everything up to and including the end of its gap. */
  lemma {:induction false} GlueIdsKeepsPrefix(s: string, open: char)
    requires IsBracket(open) && |s| > 0 && IsUpper(s[0])
    ensures var r := [s[0]] + GlueIds(s[1..], open);
      var m := GapEnd(s);
      && m <= |r| && r[..m] == s[..m]
      && (m < |s| <==> m < |r|)
      && (m < |s| ==> r[m] == s[m])
  {
    var m := GapEnd(s);
    var t := s[1..];
    GapNoUpper(s);
    assert t[..m - 1] == s[1..m];
    GlueIdsPrefix(t, m - 1, open);
    var g := GlueIds(t[m - 1..], open);
    assert s[..m] == [s[0]] + t[..m - 1];
    assert m < |s| ==> |g| > 0 && g[0] == s[m];
  }

  /** The digits and blanks after an ID token hold no uppercase letter. */
  lemma {:induction false} GapNoUpper(s: string)
    requires |s| > 0
    ensures NoUpper(s[1..GapEnd(s)])
  {
    var n := IdLen(s);
    var m := GapEnd(s);
    assert forall i :: 0 <= i < n - 1 ==> !IsUpper(s[1..n][i]);
    assert forall i :: 0 <= i < m - n ==> !IsUpper(s[n..m][i]);
    assert s[1..m] == s[1..n] + s[n..m];
  }

  /** A glued match leaves an ID token directly followed by its bracket, so no gap starts there. */
  lemma {:induction false} MatchedGlued(s: string, rest: string, open: char, other: char)
    requires IsBracket(open) && |s| > 0 && IsUpper(s[0])
    requires Glued(rest, other)
    ensures Glued(s[..IdLen(s)] + [open] + rest, other)
  {
    var n := IdLen(s);
    var r := s[..n] + [open] + rest;
    assert r[1..n] == s[1..n];
    IdLenUnique(r, n);
    GapEndUnique(r, n);
    assert !GapAt(r, other);
    var digits := s[1..n];
    assert NoUpper(digits + [open]) by {
      forall i | 0 <= i < n
        ensures !IsUpper((digits + [open])[i])
      {
        if i < n - 1 {
          assert IsDigit(digits[i]);
        }
      }
    }
    GluedAppend(digits + [open], rest, other);
    assert r[1..] == (digits + [open]) + rest;
  }

  /** After `GlueIds(_, open)` no ID token is separated from a following `open` by whitespace. */
  lemma {:induction false} GlueIdsGlued(s: string, open: char)
    requires IsBracket(open)
    ensures Glued(GlueIds(s, open), open)
    decreases |s|
  {
    if |s| == 0 {
      return;
    }
    if IsUpper(s[0]) && GlueMatch(s, open) {
      GlueIdsGlued(s[GapEnd(s) + 1..], open);
      MatchedGlued(s, GlueIds(s[GapEnd(s) + 1..], open), open, open);
    } else {
      GlueIdsGlued(s[1..], open);
      GlueIdsKeepsGap(s, open, open);
    }
  }

  /** Gluing one kind of bracket never separates an ID token from another kind. */
  lemma {:induction false} GlueIdsPreserves(s: string, open: char, other: char)
    requires IsBracket(open) && Glued(s, other)
    ensures Glued(GlueIds(s, open), other)
    decreases |s|
  {
    if |s| == 0 {
      return;
    }
    if IsUpper(s[0]) && GlueMatch(s, open) {
      GluedSuffix(s, GapEnd(s) + 1, other);
      GlueIdsPreserves(s[GapEnd(s) + 1..], open, other);
      MatchedGlued(s, GlueIds(s[GapEnd(s) + 1..], open), open, other);
    } else {
      GlueIdsPreserves(s[1..], open, other);
      GlueIdsKeepsGap(s, open, other);
    }
  }

  /** No ID token is separated by whitespace from a following `[`, `{` or `(`. */
  predicate GluedIds(s: string) {
    Glued(s, '[') && Glued(s, '{') && Glued(s, '(')
  }

  lemma {:induction false} CollapseSpacesAll(s: string, p: char -> bool)
    requires All(p, s) && p(' ')
    ensures All(p, CollapseSpaces(s))
    decreases |s|
  {
    if |s| > 0 {
      if IsSpace(s[0]) {
        CollapseSpacesAll(s[SpaceRun(s)..], p);
      } else {
        CollapseSpacesAll(s[1..], p);
      }
    }
  }

  lemma {:induction false} TrimPipeLabelsAll(s: string, p: char -> bool)
    requires All(p, s)
    ensures All(p, TrimPipeLabels(s))
    decreases |s|
  {
    if |s| > 0 {
      if s[0] == '|' && PipeLabelEnd(s[1..]) > 0 {
        AllSuffix(p, s, PipeLabelEnd(s[1..]) + 2);
        TrimPipeLabelsAll(s[PipeLabelEnd(s[1..]) + 2..], p);
        TrimPipeLabelsAllHit(s, p);
      } else {
        AllSuffix(p, s, 1);
        TrimPipeLabelsAll(s[1..], p);
        TrimPipeLabelsAllSkip(s, p);
      }
    }
  }

  lemma {:induction false} TrimPipeLabelsAllSkip(s: string, p: char -> bool)
    requires |s| > 0 && !(s[0] == '|' && PipeLabelEnd(s[1..]) > 0) && All(p, s)
    requires All(p, TrimPipeLabels(s[1..]))
    ensures All(p, TrimPipeLabels(s))
  {
    assert All(p, [s[0]]);
    AllAppend(p, [s[0]], TrimPipeLabels(s[1..]));
  }

  /** A trimmed caption is a piece of the caption, so it keeps whatever held of the text. */
  lemma {:induction false} TrimPipeLabelsAllHit(s: string, p: char -> bool)
    requires |s| > 0 && s[0] == '|' && PipeLabelEnd(s[1..]) > 0 && All(p, s)
    requires All(p, TrimPipeLabels(s[PipeLabelEnd(s[1..]) + 2..]))
    ensures All(p, TrimPipeLabels(s))
  {
    var q := PipeLabelEnd(s[1..]);
    var caption := s[1..1 + q];
    var w := SpaceRun(caption);
    var kept := if w < |caption| then caption[w..] else caption[|caption| - 1..];
    var bar := "|";
    assert All(p, bar) by { assert bar[0] == s[0]; }
    assert All(p, kept) by {
      AllSlice(p, s, 1, 1 + q);
      var start := if w < |caption| then w else |caption| - 1;
      AllSlice(p, caption, start, |caption|);
      assert kept == caption[start..|caption|];
    }
    var rest := TrimPipeLabels(s[q + 2..]);
    assert TrimPipeLabels(s) == bar + kept + bar + rest;
    AllAppend(p, bar, kept);
    AllAppend(p, bar + kept, bar);
    AllAppend(p, bar + kept + bar, rest);
  }

  lemma {:induction false} GlueIdsAll(s: string, open: char, p: char -> bool)
    requires IsBracket(open) && All(p, s)
    ensures All(p, GlueIds(s, open))
    decreases |s|
  {
    if |s| > 0 {
      if IsUpper(s[0]) && GlueMatch(s, open) {
        AllSuffix(p, s, GapEnd(s) + 1);
        GlueIdsAll(s[GapEnd(s) + 1..], open, p);
        GlueIdsAllHit(s, open, p);
      } else {
        AllSuffix(p, s, 1);
        GlueIdsAll(s[1..], open, p);
        GlueIdsAllSkip(s, open, p);
      }
    }
  }

  lemma {:induction false} GlueIdsAllSkip(s: string, open: char, p: char -> bool)
    requires IsBracket(open) && |s| > 0 && !(IsUpper(s[0]) && GlueMatch(s, open)) && All(p, s)
    requires All(p, GlueIds(s[1..], open))
    ensures All(p, GlueIds(s, open))
  {
    assert All(p, [s[0]]);
    AllAppend(p, [s[0]], GlueIds(s[1..], open));
  }

  lemma {:induction false} GlueIdsAllHit(s: string, open: char, p: char -> bool)
    requires IsBracket(open) && |s| > 0 && IsUpper(s[0]) && GlueMatch(s, open) && All(p, s)
    requires All(p, GlueIds(s[GapEnd(s) + 1..], open))
    ensures All(p, GlueIds(s, open))
  {
    GluedHeadAll(s, open, p);
    AllAppend(p, s[..IdLen(s)] + [open], GlueIds(s[GapEnd(s) + 1..], open));
    GlueIdsMatchAll(s, open, p);
  }

  /** The ID token and its bracket are characters of the text. */
  lemma {:induction false} GluedHeadAll(s: string, open: char, p: char -> bool)
    requires |s| > 0 && GlueMatch(s, open) && All(p, s)
    ensures All(p, s[..IdLen(s)] + [open])
  {
    AllSlice(p, s, 0, IdLen(s));
    assert p(s[GapEnd(s)]);
    AllAppend(p, s[..IdLen(s)], [open]);
  }

  lemma {:induction false} GlueIdsMatchAll(s: string, open: char, p: char -> bool)
    requires IsBracket(open) && |s| > 0 && IsUpper(s[0]) && GlueMatch(s, open)
    requires All(p, s[..IdLen(s)] + [open] + GlueIds(s[GapEnd(s) + 1..], open))
    ensures All(p, GlueIds(s, open))
  {
  }

  /** Every character a cleaned line holds either satisfies `p` or is part of the padding around arrows. */
  lemma {:induction false} CleanLineAll(line: string, p: char -> bool)
    requires All(p, RemoveQuotes(line)) && All(p, " --> ")
    ensures All(p, CleanLine(line))
  {
    assert p(" --> "[0]);
    var c := CollapseSpaces(RemoveQuotes(line));
    CollapseSpacesAll(RemoveQuotes(line), p);
    ReplaceAllAll(c, Arrow, " --> ", p);
    var l := TrimPipeLabels(PadArrows(c));
    TrimPipeLabelsAll(PadArrows(c), p);
    TrimAll(l, p);
    GlueIdsAll(Trim(l), '[', p);
    GlueIdsAll(GlueIds(Trim(l), '['), '{', p);
    GlueIdsAll(GlueIds(GlueIds(Trim(l), '['), '{'), '(', p);
  }

  /** A cleaned line has no quote characters and no ID token separated from its bracket. */
  lemma {:induction false} CleanLineShape(line: string)
    ensures NoQuote(CleanLine(line)) && GluedIds(CleanLine(line))
  {
    var notQuote := (c: char) => !IsQuote(c);
    CleanLineAll(line, notQuote);
    var t := Trim(TrimPipeLabels(PadArrows(CollapseSpaces(RemoveQuotes(line)))));
    var g1 := GlueIds(t, '[');
    var g2 := GlueIds(g1, '{');
    GlueIdsGlued(t, '[');
    GlueIdsPreserves(g1, '{', '[');
    GlueIdsGlued(g1, '{');
    GlueIdsPreserves(g2, '(', '[');
    GlueIdsPreserves(g2, '(', '{');
    GlueIdsGlued(g2, '(');
  }

  /** Cleaning never introduces a line break into a line. */
  lemma {:induction false} CleanLineNoBreak(line: string)
    requires SingleLine(line)
    ensures SingleLine(CleanLine(line))
  {
    var notBreak := (c: char) => c != '\n';
    FilterAll((c: char) => !IsQuote(c), notBreak, line);
    CleanLineAll(line, notBreak);
  }

  // ---------------------------------------------------------------------
  // Text the cleanup leaves alone

  /** Whitespace that is already single plain spaces. */
  predicate SingleSpaced(s: string) {
    && (forall i :: 0 <= i < |s| ==> IsSpace(s[i]) ==> s[i] == ' ')
    && (forall i :: 0 <= i < |s| - 1 ==> !(IsSpace(s[i]) && IsSpace(s[i + 1])))
  }

  /** Collapsing changes nothing once whitespace is single plain spaces. */
  lemma {:induction false} CollapseSpacesFixed(s: string)
    requires SingleSpaced(s)
    ensures CollapseSpaces(s) == s
    decreases |s|
  {
    if |s| > 0 {
      assert SingleSpaced(s[1..]) by {
        assert forall i :: 0 <= i < |s| - 1 ==> s[1..][i] == s[i + 1];
      }
      CollapseSpacesFixed(s[1..]);
      if IsSpace(s[0]) {
        assert SpaceRun(s) == 1 by {
          if |s| > 1 {
            assert !IsSpace(s[1]);
          }
        }
      }
    }
  }

  /** Collapsing is idempotent: its output is already single-spaced. */
  lemma {:induction false} CollapseSpacesIdempotent(s: string)
    ensures CollapseSpaces(CollapseSpaces(s)) == CollapseSpaces(s)
  {
    CollapseSpacesFixed(CollapseSpaces(s));
  }

  /** Without a `|` there is no label to trim. */
  lemma {:induction false} TrimPipeLabelsNoPipe(s: string)
    requires '|' !in s
    ensures TrimPipeLabels(s) == s
    decreases |s|
  {
    if |s| > 0 {
      TrimPipeLabelsNoPipe(s[1..]);
    }
  }

  /** Without the bracket there is nothing to glue. */
  lemma {:induction false} GlueIdsNoBracket(s: string, open: char)
    requires IsBracket(open) && open !in s
    ensures GlueIds(s, open) == s
    decreases |s|
  {
    if |s| > 0 {
      GlueIdsNoBracket(s[1..], open);
    }
  }

  /** A quote-free, single-spaced, trimmed line without labels or brackets comes out of the cleanup as its arrows padded. */
  lemma {:induction false} CleanLinePlain(line: string)
    requires PlainLine(line) && PlainEnds(PadArrows(line))
    ensures CleanLine(line) == PadArrows(line)
  {
    var q := RemoveQuotes(line);
    assert q == line;
    CollapseSpacesFixed(line);
    var c := CollapseSpaces(q);
    assert c == line;
    var p := PadArrows(c);
    assert p == PadArrows(line);
    TrimPipeLabelsNoPipe(p);
    var l := TrimPipeLabels(p);
    assert l == p;
    TrimOfTrimmed(p);
    var t := Trim(l);
    assert t == p;
    GlueIdsNoBracket(p, '[');
    var g1 := GlueIds(t, '[');
    assert g1 == p;
    GlueIdsNoBracket(p, '{');
    var g2 := GlueIds(g1, '{');
    assert g2 == p;
    GlueIdsNoBracket(p, '(');
    assert CleanLine(line) == GlueIds(g2, '(');
  }

  /** An edge `p-->q` between two one-letter IDs is padded once. */
  lemma {:induction false} PadArrowsEdge(p: char, q: char)
    requires IsUpper(p) && IsUpper(q)
    ensures PadArrows([p] + "-->" + [q]) == [p] + " --> " + [q]
  {
    var s := [p] + "-->" + [q];
    assert s[..3] != Arrow by {
      assert s[0] == p;
    }
    ReplaceAllSkip(s, Arrow, " --> ");
    var s1 := s[1..];
    assert s1 == Arrow + [q];
    assert s1[..3] == Arrow;
    ReplaceAllHit(s1, Arrow, " --> ");
    assert s1[3..] == [q];
    ReplaceAllShort([q], Arrow, " --> ");
  }

  /** The same edge already padded is padded again: the arrow ends up two blanks away from each ID. */
  lemma {:induction false} PadArrowsPaddedEdge(p: char, q: char)
    requires IsUpper(p) && IsUpper(q)
    ensures PadArrows([p] + " --> " + [q]) == [p] + "  -->  " + [q]
  {
    var rep := " --> ";
    var t3 := [' ', q];
    var t2 := ['-', '-', '>', ' ', q];
    var t1 := [' ', '-', '-', '>', ' ', q];
    var s := [p, ' ', '-', '-', '>', ' ', q];
    assert [p] + " --> " + [q] == s;
    ReplaceAllShort(t3, Arrow, rep);
    assert t2[..3] == Arrow && t2[3..] == t3;
    ReplaceAllHit(t2, Arrow, rep);
    assert t1[..3] != Arrow by {
      assert t1[0] == ' ';
    }
    assert t1[1..] == t2;
    ReplaceAllSkip(t1, Arrow, rep);
    assert s[..3] != Arrow by {
      assert s[0] == p;
    }
    assert s[1..] == t1;
    ReplaceAllSkip(s, Arrow, rep);
    assert [p] + ([' '] + (rep + t3)) == [p] + "  -->  " + [q];
  }

  /** The facts `CleanLinePlain` needs, for a line and its padded form. */
  predicate PlainLine(line: string) {
    && NoQuote(line) && SingleSpaced(line)
    && (|line| == 0 || (!IsSpace(line[0]) && !IsSpace(line[|line| - 1])))
    && '|' !in line && '[' !in line && '{' !in line && '(' !in line
  }

  predicate PlainEnds(line: string) {
    && (|line| == 0 || (!IsSpace(line[0]) && !IsSpace(line[|line| - 1])))
    && '|' !in line && '[' !in line && '{' !in line && '(' !in line
  }

  lemma {:induction false} EdgePlain(p: char, q: char)
    requires IsUpper(p) && IsUpper(q)
    ensures PlainLine([p] + "-->" + [q])
  {
    assert [p] + "-->" + [q] == [p, '-', '-', '>', q];
  }

  lemma {:induction false} PaddedEdgePlain(p: char, q: char)
    requires IsUpper(p) && IsUpper(q)
    ensures PlainLine([p] + " --> " + [q])
  {
    assert [p] + " --> " + [q] == [p, ' ', '-', '-', '>', ' ', q];
  }

  lemma {:induction false} DoublePaddedEdgeEnds(p: char, q: char)
    requires IsUpper(p) && IsUpper(q)
    ensures PlainEnds([p] + "  -->  " + [q])
  {
    assert [p] + "  -->  " + [q] == [p, ' ', ' ', '-', '-', '>', ' ', ' ', q];
  }

  /** A single edge `p-->q` between one-letter IDs comes out of the line cleanup as `p --> q`. */
  lemma {:induction false} CleanLineEdge(p: char, q: char)
    requires IsUpper(p) && IsUpper(q)
    ensures CleanLine([p] + "-->" + [q]) == [p] + " --> " + [q]
  {
    EdgePlain(p, q);
    PaddedEdgePlain(p, q);
    PadArrowsEdge(p, q);
    CleanLinePlain([p] + "-->" + [q]);
  }

  /** Cleaning `p --> q` again pads its arrow a second time, so the line cleanup is not idempotent. */
  lemma {:induction false} CleanLinePaddedEdge(p: char, q: char)
    requires IsUpper(p) && IsUpper(q)
    ensures CleanLine([p] + " --> " + [q]) == [p] + "  -->  " + [q]
    ensures CleanLine(CleanLine([p] + "-->" + [q])) != CleanLine([p] + "-->" + [q])
  {
    PaddedEdgePlain(p, q);
    DoublePaddedEdgeEnds(p, q);
    PadArrowsPaddedEdge(p, q);
    CleanLinePlain([p] + " --> " + [q]);
    CleanLineEdge(p, q);
    assert |[p] + "  -->  " + [q]| != |[p] + " --> " + [q]|;
  }
}
