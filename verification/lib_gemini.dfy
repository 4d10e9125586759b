/**
 * `src/lib/gemini.ts`: the older diagram generator. It shares the
 * whole-text cleanup and the header rule with the feature flowcharts, but
 * cleans every line only of quotes and surplus whitespace, and filters no
 * line by shape. The model's reply is a parameter: `Ok(text)` when
 * `generateContent` produced text, `Err` when anything threw.
 */
module LibGemini {
  import opened Wrappers
  import opened Seqs
  import opened Text
  import opened MermaidCleanup

  /** `generateIdeasResponse` (lines 13-29): the reply as is, or one generic error. */
  function GenerateIdeasResponse(reply: Result<string>): (r: Result<string>)
    ensures reply.Ok? ==> r == reply
    ensures reply.Err? ==> r == Err("Failed to generate response")
  {
    match reply
    case Ok(text) => Ok(text)
    case Err(_) => Err("Failed to generate response")
  }

  /** Lines 64-77: split, trim, drop empty lines, add the header if missing, clean each line, join. */
  function NormalizeBasic(raw: string): string {
    Join(Map(CleanLineBasic, HeadedLines(raw)), "\n")
  }

  /** Lines 81-84: the diagram returned when anything fails, a declaration and three indented edges. */
  const FallbackDiagram: string :=
    "flowchart TD" + "\n" + "    A[User Input] --> B[Process]" + "\n" + "    B --> C[Generate]" + "\n" + "    C --> D[Display]"

  /** `generateFlowChart`: never fails; a failure yields the fixed four-line diagram. */
  function GenerateFlowChart(reply: Result<string>): (r: string)
    ensures reply.Err? ==> r == FallbackDiagram
  {
    match reply
    case Ok(text) => NormalizeBasic(text)
    case Err(_) => FallbackDiagram
  }

  /** Lines 67-69: the header is synthesised when there is no first line or it is not a declaration. */
  predicate HeaderAdded(lines: seq<string>) {
    |lines| == 0 || !StartsWith(lines[0], Keyword)
  }

  /** What line 74 leaves: no quotes, whitespace as single plain spaces, nothing to trim. */
  predicate BasicLine(l: string) {
    NoQuote(l) && SingleSpaced(l) && Trim(l) == l
  }

  lemma {:induction false} SingleSpacedSlice(s: string, lo: nat, hi: nat)
    requires lo <= hi <= |s| && SingleSpaced(s)
    ensures SingleSpaced(s[lo..hi])
  {
    var t := s[lo..hi];
    assert forall i :: 0 <= i < |t| ==> t[i] == s[lo + i];
  }

  /** Single-spaced text has no line break, since a break is whitespace but not a plain space. */
  lemma {:induction false} SingleSpacedSingleLine(s: string)
    requires SingleSpaced(s)
    ensures SingleLine(s)
  {
    forall i | 0 <= i < |s|
      ensures s[i] != '\n'
    {
      if s[i] == '\n' {
        assert IsSpace(s[i]);
      }
    }
  }

  lemma {:induction false} CollapsedSingleSpaced(s: string)
    ensures SingleSpaced(CollapseSpaces(s))
  {
  }

  lemma {:induction false} CollapsedNoQuote(s: string)
    requires NoQuote(s)
    ensures NoQuote(CollapseSpaces(s))
  {
    var keep := (ch: char) => !IsQuote(ch);
    assert All(keep, s);
    CollapseSpacesAll(s, keep);
  }

  lemma {:induction false} TrimmedBasic(c: string)
    requires NoQuote(c) && SingleSpaced(c)
    ensures BasicLine(Trim(c)) && SingleLine(Trim(c))
  {
    TrimNoQuote(c);
    TrimSingleSpaced(c);
    TrimOfTrimmed(Trim(c));
    SingleSpacedSingleLine(Trim(c));
  }

  lemma {:induction false} TrimNoQuote(c: string)
    requires NoQuote(c)
    ensures NoQuote(Trim(c))
  {
    var keep := (ch: char) => !IsQuote(ch);
    assert All(keep, c);
    TrimAll(c, keep);
    assert All(keep, Trim(c));
  }

  lemma {:induction false} TrimSingleSpaced(c: string)
    requires SingleSpaced(c)
    ensures SingleSpaced(Trim(c))
  {
    SingleSpacedSlice(c, SpaceRun(c), SpaceRun(c) + |Trim(c)|);
  }

  /** Every cleaned line is free of quotes, single-spaced, trimmed, and one line. */
  lemma {:induction false} CleanLineBasicShape(line: string)
    ensures BasicLine(CleanLineBasic(line)) && SingleLine(CleanLineBasic(line))
  {
    var q := RemoveQuotes(line);
    CollapsedNoQuote(q);
    CollapsedSingleSpaced(q);
    TrimmedBasic(CollapseSpaces(q));
  }

  /** Removing quotes does not disturb a quote-free prefix. */
  lemma {:induction false} RemoveQuotesPrefix(a: string, b: string)
    requires NoQuote(a)
    ensures RemoveQuotes(a + b) == a + RemoveQuotes(b)
  {
    var keep := (ch: char) => !IsQuote(ch);
    FilterAppend(keep, a, b);
    FilterKeepsAll(keep, a);
  }

  lemma {:induction false} CollapseSpacesKeep(x: char, t: string)
    requires !IsSpace(x)
    ensures CollapseSpaces([x] + t) == [x] + CollapseSpaces(t)
  {
    assert ([x] + t)[1..] == t;
  }

  /** Collapsing does not disturb a prefix without whitespace. */
  lemma {:induction false} CollapseSpacesPrefix(a: string, b: string)
    requires NoSpace(a)
    ensures CollapseSpaces(a + b) == a + CollapseSpaces(b)
    decreases |a|
  {
    if |a| == 0 {
      assert a + b == b;
    } else {
      var x, t := a[0], a[1..];
      assert NoSpace(t) && !IsSpace(x);
      calc {
        CollapseSpaces(a + b);
        == { assert a + b == [x] + (t + b); }
        CollapseSpaces([x] + (t + b));
        == { CollapseSpacesKeep(x, t + b); }
        [x] + CollapseSpaces(t + b);
        == { CollapseSpacesPrefix(t, b); }
        [x] + (t + CollapseSpaces(b));
        == { ConcatAssoc([x], t, CollapseSpaces(b)); assert [x] + t == a; }
        a + CollapseSpaces(b);
      }
    }
  }

  /** Trimming keeps a prefix that begins and ends with a non-space character. */
  lemma {:induction false} TrimKeepsPrefix(p: string, b: string)
    requires |p| > 0 && !IsSpace(p[0]) && !IsSpace(p[|p| - 1])
    ensures StartsWith(Trim(p + b), p)
  {
    var t := TrimEnd(b);
    var m := p + t;
    assert p + b == "" + m + b[|t|..];
    TrimUnique("", m, b[|t|..]);
    assert m[..|p|] == p;
  }

  /** A declaration line is still a declaration line once cleaned. */
  lemma {:induction false} CleanLineBasicKeepsKeyword(line: string)
    requires StartsWith(line, Keyword)
    ensures StartsWith(CleanLineBasic(line), Keyword)
  {
    var rest := line[|Keyword|..];
    assert line == Keyword + rest;
    RemoveQuotesPrefix(Keyword, rest);
    CollapseSpacesPrefix(Keyword, RemoveQuotes(rest));
    TrimKeepsPrefix(Keyword, CollapseSpaces(RemoveQuotes(rest)));
  }

  /**
   * The diagram's lines are exactly the cleaned input lines, none filtered
   * out and in order: one per non-empty input line, plus the synthesised
   * header when the first line was not a declaration. The first line is a
   * declaration and every line is clean.
   */
  lemma {:induction false} NormalizeBasicLines(raw: string)
    ensures Split(NormalizeBasic(raw), '\n') == Map(CleanLineBasic, HeadedLines(raw))
    ensures |Split(NormalizeBasic(raw), '\n')| ==
      |NonEmptyLines(StripFences(raw))| + (if HeaderAdded(NonEmptyLines(StripFences(raw))) then 1 else 0)
    ensures StartsWith(Split(NormalizeBasic(raw), '\n')[0], Keyword)
    ensures forall i :: 0 <= i < |Split(NormalizeBasic(raw), '\n')| ==> BasicLine(Split(NormalizeBasic(raw), '\n')[i])
  {
    var headed := HeadedLines(raw);
    var cleaned := Map(CleanLineBasic, headed);
    forall i | 0 <= i < |cleaned|
      ensures BasicLine(cleaned[i]) && '\n' !in cleaned[i]
    {
      CleanLineBasicShape(headed[i]);
    }
    SplitJoin(cleaned, '\n');
    CleanLineBasicKeepsKeyword(headed[0]);
  }

  /**
   * Empty lines are dropped before the cleaning, so a line of nothing but
   * quotes survives the filter and comes out empty.
   */
  lemma {:induction false} QuoteOnlyLine(line: string)
    requires |line| > 0 && forall i :: 0 <= i < |line| ==> IsQuote(line[i])
    ensures NonBlank(Trim(line)) && CleanLineBasic(Trim(line)) == ""
  {
    assert !IsSpace(line[0]) && !IsSpace(line[|line| - 1]);
    TrimOfTrimmed(line);
    var keep := (ch: char) => !IsQuote(ch);
    FilterNone(keep, line);
  }

  /** Whatever the reply, the first line of the diagram is a declaration. */
  lemma {:induction false} GenerateFlowChartHeaded(reply: Result<string>)
    ensures StartsWith(Split(GenerateFlowChart(reply), '\n')[0], Keyword)
  {
    if reply.Ok? {
      NormalizeBasicLines(reply.value);
    } else {
      FallbackLines();
      assert FallbackParts[0] == Header;
    }
  }

  /** The four lines of the fallback diagram. */
  const FallbackParts: seq<string> :=
    [Header, "    A[User Input] --> B[Process]", "    B --> C[Generate]", "    C --> D[Display]"]

  lemma {:induction false} FallbackJoin()
    ensures Join(FallbackParts, "\n") == FallbackDiagram
  {
    var l1, l2, l3 := FallbackParts[1], FallbackParts[2], FallbackParts[3];
    JoinCons(l2, [l3], "\n");
    assert [l2] + [l3] == [l2, l3];
    JoinCons(l1, [l2, l3], "\n");
    assert [l1] + [l2, l3] == [l1, l2, l3];
    JoinCons(Header, [l1, l2, l3], "\n");
    assert [Header] + [l1, l2, l3] == FallbackParts;
  }

  /** The fallback diagram: a declaration and three indented edges. */
  lemma {:induction false} FallbackLines()
    ensures Split(FallbackDiagram, '\n') == FallbackParts
  {
    FallbackJoin();
    forall i | 0 <= i < |FallbackParts|
      ensures '\n' !in FallbackParts[i]
    {
    }
    SplitJoin(FallbackParts, '\n');
  }
}
