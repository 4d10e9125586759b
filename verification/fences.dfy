/**
 * Removal of Markdown code fences from a model reply, as the two regular
 * expressions of the application do it:
 *
 *  - `/```mermaid\n?/g` followed by `/```\n?/g` in `generateFlowchartFromChatLog`
 *    (`src/services/gemini.ts`, line 112);
 *  - `/```json\n?|\n?```/g` in `suggestFeatures`
 *    (`src/lib/featureFlowcharts.ts`, line 243).
 *
 * Both are global replacements by the empty string, followed by `trim()`.
 * The regex engine scans left to right, tries the alternatives in order at
 * each position, takes the optional newline greedily and resumes after the
 * match; the functions below follow that scan.
 */
module Fences {
  import opened Seqs
  import opened Text

  predicate NoBacktick(s: string) {
    forall i :: 0 <= i < |s| ==> s[i] != '`'
  }

  /** `s.replace(/mark\n?/g, '')` */
  function RemoveFence(s: string, mark: string): (r: string)
    requires |mark| > 0
    ensures |r| <= |s|
    decreases |s|
  {
    if |s| == 0 then ""
    else if StartsWith(s, mark) then
      var rest := s[|mark|..];
      if |rest| > 0 && rest[0] == '\n' then RemoveFence(rest[1..], mark) else RemoveFence(rest, mark)
    else [s[0]] + RemoveFence(s[1..], mark)
  }

  /** Removal only deletes: every property all the characters had survives. */
  lemma {:induction false} RemoveFenceAll(s: string, mark: string, p: char -> bool)
    requires |mark| > 0 && All(p, s)
    ensures All(p, RemoveFence(s, mark))
    decreases |s|
  {
    if |s| > 0 {
      if StartsWith(s, mark) {
        var rest := s[|mark|..];
        if |rest| > 0 && rest[0] == '\n' {
          RemoveFenceAll(rest[1..], mark, p);
        } else {
          RemoveFenceAll(rest, mark, p);
        }
      } else {
        RemoveFenceAll(s[1..], mark, p);
      }
    }
  }

  /** Text without backticks passes through a backtick-led mark untouched. */
  lemma {:induction false} RemoveFencePlain(a: string, b: string, mark: string)
    requires |mark| > 0 && mark[0] == '`' && NoBacktick(a)
    ensures RemoveFence(a + b, mark) == a + RemoveFence(b, mark)
  {
    if |a| > 0 {
      assert (a + b)[0] == a[0];
      assert (a + b)[1..] == a[1..] + b;
      RemoveFencePlain(a[1..], b, mark);
    } else {
      assert a + b == b;
    }
  }

  /** An opening mark with its line break disappears entirely. */
  lemma {:induction false} RemoveFenceOpening(mark: string, b: string)
    requires |mark| > 0
    ensures RemoveFence(mark + "\n" + b, mark) == RemoveFence(b, mark)
  {
    var s := mark + "\n" + b;
    assert StartsWith(s, mark);
    assert s[|mark|..] == "\n" + b;
    assert s[|mark|..][1..] == b;
  }

  /** A string cannot start with a pattern whose first or second character it lacks. */
  lemma {:induction false} NotStartsWith(s: string, pat: string)
    requires |pat| >= 2 && |s| >= 1
    requires s[0] != pat[0] || (|s| >= 2 && s[1] != pat[1])
    ensures !StartsWith(s, pat)
  {
    if |pat| <= |s| {
      assert s[..|pat|][0] == s[0] && s[..|pat|][1] == s[1];
    }
  }

  /** Three backticks in a row start at `i`. */
  predicate TripleAt(s: string, i: int)
    requires 0 <= i <= |s| - 3
  {
    s[i] == '`' && s[i + 1] == '`' && s[i + 2] == '`'
  }

  /** No run of three backticks anywhere: no code fence is left. */
  predicate NoTriple(s: string) {
    forall i :: 0 <= i <= |s| - 3 ==> !TripleAt(s, i)
  }

  /** A slice of fence-free text is fence-free. */
  lemma {:induction false} NoTripleSlice(s: string, lo: nat, hi: nat)
    requires lo <= hi <= |s| && NoTriple(s)
    ensures NoTriple(s[lo..hi])
  {
    var t := s[lo..hi];
    forall i | 0 <= i <= |t| - 3
      ensures !TripleAt(t, i)
    {
      assert t[i] == s[lo + i] && t[i + 1] == s[lo + i + 1] && t[i + 2] == s[lo + i + 2];
      assert !TripleAt(s, lo + i);
    }
  }

  /** A character that is kept heads the rest of the result. */
  lemma {:induction false} RemoveFenceKeep(s: string, mark: string)
    requires |mark| > 0 && |s| > 0 && !StartsWith(s, mark)
    ensures RemoveFence(s, mark) == [s[0]] + RemoveFence(s[1..], mark)
  {
  }

  /**
   * After `/```\n?/g` no three backticks are left in a row: a kept backtick
   * is never followed by two more, or the match would have started there.
   * The second result says what the output can start with, which is what
   * the induction needs.
   */
  lemma {:induction false} RemoveFenceNoTriple(s: string)
    ensures NoTriple(RemoveFence(s, "```"))
    ensures |s| >= 2 && s[0] == '`' && s[1] == '`' && !StartsWith(s, "```") ==>
      RemoveFence(s, "```") == s[..2] + RemoveFence(s[2..], "```")
    ensures |s| >= 1 && s[0] == '`' && !StartsWith(s, "```") ==>
      |RemoveFence(s, "```")| >= 1 && RemoveFence(s, "```")[0] == '`' &&
      (|RemoveFence(s, "```")| < 2 || RemoveFence(s, "```")[1] != '`' || s[1] == '`')
    decreases |s|
  {
    var mark := "```";
    var r := RemoveFence(s, mark);
    if |s| > 0 {
      if StartsWith(s, mark) {
        var rest := s[|mark|..];
        if |rest| > 0 && rest[0] == '\n' {
          RemoveFenceNoTriple(rest[1..]);
        } else {
          RemoveFenceNoTriple(rest);
        }
      } else {
        var t := RemoveFence(s[1..], mark);
        RemoveFenceNoTriple(s[1..]);
        RemoveFenceKeep(s, mark);
        assert r == [s[0]] + t;
        if |s| >= 2 && s[0] == '`' && s[1] == '`' {
          assert !StartsWith(s[1..], mark);
          RemoveFenceKeep(s[1..], mark);
          assert s[1..][1..] == s[2..];
          assert r == s[..2] + RemoveFence(s[2..], mark);
        }
        forall i | 0 <= i <= |r| - 3
          ensures !TripleAt(r, i)
        {
          if i > 0 {
            assert r[i] == t[i - 1] && r[i + 1] == t[i] && r[i + 2] == t[i + 1];
            assert !TripleAt(t, i - 1);
          } else if s[0] == '`' && t[0] == '`' {
            assert s[1] == '`';
            assert |s| >= 3 ==> s[2] != '`';
            var u := RemoveFence(s[2..], mark);
            assert r == s[..2] + u;
            if |s| >= 3 {
              RemoveFenceKeep(s[2..], mark);
              assert u[0] == s[2];
            }
          }
        }
      }
    }
  }

  /** Line 112 of `src/services/gemini.ts`: both fence marks removed, then `trim()`. */
  function StripMermaidFences(text: string): string {
    Trim(RemoveFence(RemoveFence(text, "```mermaid"), "```"))
  }

  /** No code fence survives in the diagram text handed back. */
  lemma {:induction false} StripMermaidFencesNoTriple(text: string)
    ensures NoTriple(StripMermaidFences(text))
  {
    var u := RemoveFence(RemoveFence(text, "```mermaid"), "```");
    RemoveFenceNoTriple(RemoveFence(text, "```mermaid"));
    TrimNoTriple(u);
  }

  lemma {:induction false} TrimNoTriple(u: string)
    requires NoTriple(u)
    ensures NoTriple(Trim(u))
  {
    NoTripleSlice(u, SpaceRun(u), SpaceRun(u) + |Trim(u)|);
  }

  /** A mark longer than the text cannot match. */
  lemma {:induction false} RemoveFenceShort(s: string, mark: string)
    requires |mark| > |s|
    ensures RemoveFence(s, mark) == s
    decreases |s|
  {
    if |s| > 0 {
      RemoveFenceKeep(s, mark);
      RemoveFenceShort(s[1..], mark);
    }
  }

  /** The closing fence alone vanishes. */
  lemma {:induction false} RemoveFenceClosing()
    ensures RemoveFence("```", "```") == ""
  {
    assert StartsWith("```", "```");
    assert "```"[3..] == "";
  }

  /** Text without backticks is only trimmed. */
  lemma {:induction false} StripMermaidFencesPlain(text: string)
    requires NoBacktick(text)
    ensures StripMermaidFences(text) == Trim(text)
  {
    RemoveFencePlain(text, "", "```mermaid");
    RemoveFencePlain(text, "", "```");
    assert text + "" == text;
  }

  lemma {:induction false} RemoveMermaidMarkBlock(body: string)
    requires NoBacktick(body)
    ensures RemoveFence("```mermaid\n" + body + "\n```", "```mermaid") == body + "\n```"
  {
    var tail := body + "\n```";
    assert "```mermaid\n" + body + "\n```" == "```mermaid" + "\n" + tail;
    RemoveFenceOpening("```mermaid", tail);
    assert tail == (body + "\n") + "```";
    RemoveFencePlain(body + "\n", "```", "```mermaid");
    RemoveFenceShort("```", "```mermaid");
  }

  lemma {:induction false} RemoveClosingMark(body: string)
    requires NoBacktick(body)
    ensures RemoveFence(body + "\n```", "```") == body + "\n"
  {
    assert body + "\n```" == (body + "\n") + "```";
    RemoveFencePlain(body + "\n", "```", "```");
    RemoveFenceClosing();
  }

  /** A fenced block gives back exactly its body, trimmed. */
  lemma {:induction false} StripMermaidFencesBlock(body: string)
    requires NoBacktick(body)
    ensures StripMermaidFences("```mermaid\n" + body + "\n```") == Trim(body)
  {
    RemoveMermaidMarkBlock(body);
    RemoveClosingMark(body);
    TrimTrailingSpace(body, "\n");
  }

  /** `s.replace(/```json\n?|\n?```/g, '')`: the first alternative wins where both could match. */
  function RemoveJsonFence(s: string): (r: string)
    ensures |r| <= |s|
    decreases |s|
  {
    if |s| == 0 then ""
    else if StartsWith(s, "```json") then
      if |s| > 7 && s[7] == '\n' then RemoveJsonFence(s[8..]) else RemoveJsonFence(s[7..])
    else if StartsWith(s, "\n```") then RemoveJsonFence(s[4..])
    else if StartsWith(s, "```") then RemoveJsonFence(s[3..])
    else [s[0]] + RemoveJsonFence(s[1..])
  }

  /** A character that is neither a backtick nor a newline before one is kept. */
  lemma {:induction false} RemoveJsonFenceKeep(a: string, b: string)
    requires |a| > 0 && NoBacktick(a) && (|b| == 0 || b[0] != '`')
    ensures RemoveJsonFence(a + b) == [a[0]] + RemoveJsonFence(a[1..] + b)
  {
    var s := a + b;
    assert s[0] == a[0];
    assert |s| >= 2 ==> s[1] != '`';
    NotStartsWith(s, "```json");
    NotStartsWith(s, "```");
    if |s| >= 2 {
      NotStartsWith(s, "\n```");
    }
    assert s[1..] == a[1..] + b;
  }

  /** Text without backticks passes through, provided what follows it cannot complete a `\n```` match. */
  lemma {:induction false} RemoveJsonFencePlain(a: string, b: string)
    requires NoBacktick(a) && (|b| == 0 || b[0] != '`')
    ensures RemoveJsonFence(a + b) == a + RemoveJsonFence(b)
    decreases |a|
  {
    if |a| == 0 {
      assert a + b == b;
    } else {
      RemoveJsonFenceKeep(a, b);
      RemoveJsonFencePlain(a[1..], b);
      ConsPrefix(a, RemoveJsonFence(b));
    }
  }

  /** Line 243 of `src/lib/featureFlowcharts.ts`: the fences removed, then `trim()`. */
  function StripJsonFences(text: string): string {
    Trim(RemoveJsonFence(text))
  }

  lemma {:induction false} StripJsonFencesPlain(text: string)
    requires NoBacktick(text)
    ensures StripJsonFences(text) == Trim(text)
  {
    RemoveJsonFencePlain(text, "");
    assert text + "" == text;
  }

  /** A fenced JSON block gives back exactly its body, trimmed. */
  lemma {:induction false} StripJsonFencesBlock(body: string)
    requires NoBacktick(body)
    ensures StripJsonFences("```json\n" + body + "\n```") == Trim(body)
  {
    var s := "```json\n" + body + "\n```";
    assert StartsWith(s, "```json") && s[7] == '\n';
    assert s[8..] == body + "\n```";
    RemoveJsonFencePlain(body, "\n```");
    assert StartsWith("\n```", "\n```");
    assert "\n```"[4..] == "";
    assert RemoveJsonFence("\n```") == "";
    assert body + "" == body;
  }
}
