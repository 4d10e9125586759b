/**
 * The JavaScript string primitives the application leans on: `trim`,
 * `startsWith`, `includes`, `split`, `join` and `replace` with a literal
 * global pattern. Strings are sequences of UTF-16 code units in the source;
 * here they are `seq<char>`, sequences of code points. Lengths and indices
 * agree on text without characters above U+FFFF.
 */
module Text {
  import opened Wrappers
  import opened Seqs

  /** ECMAScript WhiteSpace and LineTerminator: what `\s` matches and what `trim()` removes. */
  predicate IsSpace(c: char) {
    || c == '\t' || c == '\n' || c == '\U{000B}' || c == '\U{000C}' || c == '\r' || c == ' '
    || c == '\U{00A0}' || c == '\U{1680}' || ('\U{2000}' <= c <= '\U{200A}')
    || c == '\U{2028}' || c == '\U{2029}' || c == '\U{202F}' || c == '\U{205F}'
    || c == '\U{3000}' || c == '\U{FEFF}'
  }

  /** ECMAScript LineTerminator: what `.` does not match and after which a multiline `^` matches. */
  predicate IsLineTerminator(c: char) {
    c == '\n' || c == '\r' || c == '\U{2028}' || c == '\U{2029}'
  }

  /** `\d` */
  predicate IsDigit(c: char) {
    '0' <= c <= '9'
  }

  /** `[A-Z]` */
  predicate IsUpper(c: char) {
    'A' <= c <= 'Z'
  }

  predicate AllSpace(s: string) {
    forall i :: 0 <= i < |s| ==> IsSpace(s[i])
  }

  predicate NoSpace(s: string) {
    forall i :: 0 <= i < |s| ==> !IsSpace(s[i])
  }

  predicate AllDigits(s: string) {
    forall i :: 0 <= i < |s| ==> IsDigit(s[i])
  }

  /** Length of the longest all-whitespace prefix: how far a greedy `\s*` reaches. */
  function SpaceRun(s: string): (n: nat)
    ensures n <= |s| && AllSpace(s[..n])
    ensures n < |s| ==> !IsSpace(s[n])
  {
    if |s| == 0 || !IsSpace(s[0]) then 0 else 1 + SpaceRun(s[1..])
  }

  /** Length of the longest all-digit prefix: how far a greedy `\d*` reaches. */
  function DigitRun(s: string): (n: nat)
    ensures n <= |s| && AllDigits(s[..n])
    ensures n < |s| ==> !IsDigit(s[n])
  {
    if |s| == 0 || !IsDigit(s[0]) then 0 else 1 + DigitRun(s[1..])
  }

  lemma {:induction false} SpaceRunOfSpaces(a: string, b: string)
    requires AllSpace(a) && (|b| == 0 || !IsSpace(b[0]))
    ensures SpaceRun(a + b) == |a|
  {
    if |a| > 0 {
      assert (a + b)[1..] == a[1..] + b;
      SpaceRunOfSpaces(a[1..], b);
    } else {
      assert a + b == b;
    }
  }

  lemma {:induction false} DigitRunOfDigits(a: string, b: string)
    requires AllDigits(a) && (|b| == 0 || !IsDigit(b[0]))
    ensures DigitRun(a + b) == |a|
  {
    if |a| > 0 {
      assert (a + b)[1..] == a[1..] + b;
      DigitRunOfDigits(a[1..], b);
    } else {
      assert a + b == b;
    }
  }

  /** `s.trimStart()` */
  function TrimStart(s: string): (r: string)
    ensures |r| <= |s| && r == s[|s| - |r|..] && AllSpace(s[..|s| - |r|])
    ensures |r| > 0 ==> !IsSpace(r[0])
  {
    s[SpaceRun(s)..]
  }

  /** `s.trimEnd()` */
  function TrimEnd(s: string): (r: string)
    ensures |r| <= |s| && r == s[..|r|] && AllSpace(s[|r|..])
    ensures |r| > 0 ==> !IsSpace(r[|r| - 1])
  {
    if |s| == 0 || !IsSpace(s[|s| - 1]) then s else TrimEnd(s[..|s| - 1])
  }

  /** `s.trim()`: the slice left once leading and trailing whitespace is cut off. */
  function Trim(s: string): (r: string)
    ensures |r| > 0 ==> !IsSpace(r[0]) && !IsSpace(r[|r| - 1])
    ensures SpaceRun(s) + |r| <= |s|
    ensures r == s[SpaceRun(s)..SpaceRun(s) + |r|]
    ensures AllSpace(s[..SpaceRun(s)]) && AllSpace(s[SpaceRun(s) + |r|..])
    ensures |r| == 0 <==> AllSpace(s)
  {
    var t := TrimStart(s);
    var r := TrimEnd(t);
    assert |r| == 0 ==> AllSpace(s) by {
      if |r| == 0 {
        assert |t| == 0;
        assert s[..|s|] == s;
      }
    }
    r
  }

  /** Trimming never introduces a character. */
  lemma {:induction false} TrimChars(s: string, c: char)
    requires c in Trim(s)
    ensures c in s
  {
    var r := Trim(s);
    var i :| 0 <= i < |r| && r[i] == c;
    assert s[SpaceRun(s) + i] == c;
  }

  /** A string that starts and ends with a non-space character is its own trim. */
  lemma {:induction false} TrimOfTrimmed(s: string)
    requires |s| == 0 || (!IsSpace(s[0]) && !IsSpace(s[|s| - 1]))
    ensures Trim(s) == s
  {
  }

  /** Trailing whitespace is what `trimEnd` removes, and nothing before it. */
  lemma {:induction false} TrimEndOfSpaces(m: string, b: string)
    requires AllSpace(b)
    requires |m| == 0 || !IsSpace(m[|m| - 1])
    ensures TrimEnd(m + b) == m
    decreases |b|
  {
    if |b| == 0 {
      assert m + b == m;
    } else {
      var b' := b[..|b| - 1];
      assert (m + b)[..|m + b| - 1] == m + b';
      assert (m + b)[|m + b| - 1] == b[|b| - 1];
      TrimEndOfSpaces(m, b');
    }
  }

  /**
   * `trim()` is determined by where the non-space text lies: whatever the
   * whitespace around it, the trim of `a + m + b` is `m`.
   */
  lemma {:induction false} TrimUnique(a: string, m: string, b: string)
    requires AllSpace(a) && AllSpace(b)
    requires |m| == 0 || (!IsSpace(m[0]) && !IsSpace(m[|m| - 1]))
    ensures Trim(a + m + b) == m
  {
    var s := a + m + b;
    if |m| == 0 {
      assert s == a + b;
      AllSpaceAppend(a, b);
      assert Trim(s) == "";
    } else {
      assert s == a + (m + b);
      SpaceRunOfSpaces(a, m + b);
      assert TrimStart(s) == m + b;
      TrimEndOfSpaces(m, b);
    }
  }

  lemma {:induction false} AllSpaceAppend(a: string, b: string)
    requires AllSpace(a) && AllSpace(b)
    ensures AllSpace(a + b)
  {
    forall i | 0 <= i < |a + b|
      ensures IsSpace((a + b)[i])
    {
      if i < |a| {
        assert (a + b)[i] == a[i];
      } else {
        assert (a + b)[i] == b[i - |a|];
      }
    }
  }

  /** Extra whitespace at the end does not change the trim. */
  lemma {:induction false} TrimTrailingSpace(s: string, tail: string)
    requires AllSpace(tail)
    ensures Trim(s + tail) == Trim(s)
  {
    var n := SpaceRun(s);
    var t := s[n..];
    var m := TrimEnd(t);
    var b := t[|m|..];
    assert t == m + b;
    assert s + tail == s[..n] + m + (b + tail);
    AllSpaceAppend(b, tail);
    TrimUnique(s[..n], m, b + tail);
  }

  /** `s.startsWith(p)` */
  predicate StartsWith(s: string, p: string) {
    |p| <= |s| && s[..|p|] == p
  }

  /** `pat` occurs in `s` at index `i`. */
  predicate OccursAt(s: string, pat: string, i: int) {
    0 <= i && i + |pat| <= |s| && s[i..i + |pat|] == pat
  }

  /** `s.includes(pat)` */
  predicate Contains(s: string, pat: string) {
    exists i :: 0 <= i <= |s| && OccursAt(s, pat, i)
  }

  lemma {:induction false} OccursShift(s: string, pat: string, j: nat)
    requires |s| >= 1
    ensures OccursAt(s[1..], pat, j) <==> OccursAt(s, pat, j + 1)
  {
    if j + |pat| <= |s| - 1 {
      assert s[1..][j..j + |pat|] == s[j + 1..j + 1 + |pat|];
    }
  }

  /** A one-character pattern occurs exactly where that character does. */
  lemma {:induction false} ContainsChar(s: string, c: char)
    ensures Contains(s, [c]) <==> c in s
  {
    if c in s {
      var i :| 0 <= i < |s| && s[i] == c;
      assert OccursAt(s, [c], i);
    }
    if Contains(s, [c]) {
      var i :| 0 <= i <= |s| && OccursAt(s, [c], i);
      assert s[i..i + 1] == [c];
      assert s[i] == c;
    }
  }

  /** `s.indexOf(pat)`, with `None` for -1. */
  function FirstOccurrence(s: string, pat: string): (r: Option<nat>)
    requires |pat| > 0
    ensures r.Some? ==> r.value + |pat| <= |s|
    decreases |s|
  {
    if |s| < |pat| then None
    else if s[..|pat|] == pat then Some(0)
    else
      match FirstOccurrence(s[1..], pat)
      case None => None
      case Some(k) => Some(k + 1)
  }

  /** `indexOf` finds an occurrence, the leftmost one, and reports none exactly when there is none. */
  lemma {:induction false} FirstOccurrenceSpec(s: string, pat: string)
    requires |pat| > 0
    ensures var r := FirstOccurrence(s, pat);
      && (r.Some? ==> OccursAt(s, pat, r.value))
      && (r.Some? ==> forall j :: 0 <= j < r.value ==> !OccursAt(s, pat, j))
      && (r.None? <==> !Contains(s, pat))
    decreases |s|
  {
    if |s| < |pat| {
    } else if s[..|pat|] == pat {
      assert OccursAt(s, pat, 0);
    } else {
      FirstOccurrenceSpec(s[1..], pat);
      match FirstOccurrence(s[1..], pat)
      case None =>
        if Contains(s, pat) {
          var j :| 0 <= j <= |s| && OccursAt(s, pat, j);
          OccursShift(s, pat, j - 1);
        }
      case Some(k) =>
        OccursShift(s, pat, k);
        forall j | 0 < j < k + 1
          ensures !OccursAt(s, pat, j)
        {
          OccursShift(s, pat, j - 1);
        }
    }
  }

  /** `s.split(sep)` for a non-empty literal separator. */
  function SplitOn(s: string, sep: string): (r: seq<string>)
    requires |sep| > 0
    ensures |r| >= 1
    decreases |s|
  {
    match FirstOccurrence(s, sep)
    case None => [s]
    case Some(k) => [s[..k]] + SplitOn(s[k + |sep|..], sep)
  }

  /** `s.split(c)` for a one-character separator such as `'\n'`. */
  function Split(s: string, c: char): (r: seq<string>)
    ensures |r| >= 1
    ensures forall i :: 0 <= i < |r| ==> c !in r[i]
  {
    SplitOnChar(s, c);
    SplitOn(s, [c])
  }

  lemma {:induction false} SplitOnChar(s: string, c: char)
    ensures forall i :: 0 <= i < |SplitOn(s, [c])| ==> c !in SplitOn(s, [c])[i]
    decreases |s|
  {
    FirstOccurrenceSpec(s, [c]);
    match FirstOccurrence(s, [c])
    case None =>
      if c in s {
        var i :| 0 <= i < |s| && s[i] == c;
        assert OccursAt(s, [c], i);
      }
    case Some(k) =>
      SplitOnChar(s[k + 1..], c);
      if c in s[..k] {
        var i :| 0 <= i < k && s[..k][i] == c;
        assert OccursAt(s, [c], i);
      }
  }

  /** `parts.join(sep)` */
  function Join(parts: seq<string>, sep: string): string {
    if |parts| == 0 then ""
    else if |parts| == 1 then parts[0]
    else parts[0] + sep + Join(parts[1..], sep)
  }

  lemma {:induction false} JoinCons(a: string, rest: seq<string>, sep: string)
    requires |rest| >= 1
    ensures Join([a] + rest, sep) == a + sep + Join(rest, sep)
  {
    assert ([a] + rest)[1..] == rest;
  }

  /** Every element with `t` put in front. */
  function PrefixEach(t: string, xs: seq<string>): (r: seq<string>)
    ensures |r| == |xs|
    ensures forall i :: 0 <= i < |xs| ==> r[i] == t + xs[i]
  {
    if |xs| == 0 then [] else [t + xs[0]] + PrefixEach(t, xs[1..])
  }

  /**
   * A separator `c` followed by `t` is the separator `c` with `t` moved to
   * the front of every part: `a, b` is `a` `,` ` b`.
   */
  lemma {:induction false} JoinWiderSep(xs: seq<string>, c: char, t: string)
    requires |xs| >= 1
    ensures t + Join(xs, [c] + t) == Join(PrefixEach(t, xs), [c])
  {
    if |xs| > 1 {
      JoinWiderSep(xs[1..], c, t);
      var ys := PrefixEach(t, xs);
      assert ys[1..] == PrefixEach(t, xs[1..]);
      assert Join(ys, [c]) == ys[0] + [c] + Join(ys[1..], [c]);
    }
  }

  /** Joining what `split` produced gives the original text back. */
  lemma {:induction false} JoinSplitOn(s: string, sep: string)
    requires |sep| > 0
    ensures Join(SplitOn(s, sep), sep) == s
    decreases |s|
  {
    match FirstOccurrence(s, sep)
    case None =>
    case Some(k) =>
      FirstOccurrenceSpec(s, sep);
      var rest := s[k + |sep|..];
      var tail := SplitOn(rest, sep);
      JoinSplitOn(rest, sep);
      var parts := [s[..k]] + tail;
      assert SplitOn(s, sep) == parts;
      assert parts[1..] == tail;
      assert Join(parts, sep) == s[..k] + sep + Join(tail, sep);
      assert s == s[..k] + sep + rest;
  }

  lemma {:induction false} JoinSplit(s: string, c: char)
    ensures Join(Split(s, c), [c]) == s
  {
    JoinSplitOn(s, [c]);
  }

  /** The first occurrence of `c` in `a + [c] + b` is right after `a` when `a` lacks `c`. */
  lemma {:induction false} FirstOccurrenceAfter(a: string, b: string, c: char)
    requires c !in a
    ensures FirstOccurrence(a + [c] + b, [c]) == Some(|a|)
  {
    var s := a + [c] + b;
    assert OccursAt(s, [c], |a|);
    FirstOccurrenceSpec(s, [c]);
    var r := FirstOccurrence(s, [c]);
    assert r.value <= |a|;
    assert s[r.value] == c by { assert s[r.value..r.value + 1] == [c]; }
    assert r.value >= |a| ==> r.value == |a|;
  }

  /** Splitting what `join` produced recovers the parts, provided no part holds the separator. */
  lemma {:induction false} SplitJoin(parts: seq<string>, c: char)
    requires |parts| >= 1
    requires forall i :: 0 <= i < |parts| ==> c !in parts[i]
    ensures Split(Join(parts, [c]), c) == parts
  {
    if |parts| == 1 {
      ContainsChar(parts[0], c);
      FirstOccurrenceSpec(parts[0], [c]);
    } else {
      var rest := Join(parts[1..], [c]);
      assert Join(parts, [c]) == parts[0] + [c] + rest;
      FirstOccurrenceAfter(parts[0], rest, c);
      assert (parts[0] + [c] + rest)[|parts[0]| + 1..] == rest;
      assert (parts[0] + [c] + rest)[..|parts[0]|] == parts[0];
      SplitJoin(parts[1..], c);
      assert parts == [parts[0]] + parts[1..];
    }
  }

  /** The first occurrence of `c` is a `c`, and nothing before it is. */
  lemma {:induction false} FirstOccurrenceChar(s: string, c: char, k: nat)
    requires FirstOccurrence(s, [c]) == Some(k)
    ensures k < |s| && s[k] == c && c !in s[..k]
  {
    FirstOccurrenceSpec(s, [c]);
    assert s[k..k + 1] == [c];
    if c in s[..k] {
      var j :| 0 <= j < k && s[..k][j] == c;
      assert s[j..j + 1] == [c];
      assert OccursAt(s, [c], j);
    }
  }

  /** Splitting on `c` commutes with concatenation around one `c`: each side keeps its own pieces. */
  lemma {:induction false} SplitAround(a: string, b: string, c: char)
    ensures Split(a + [c] + b, c) == Split(a, c) + Split(b, c)
  {
    SplitOnAround(a, b, c);
  }

  lemma {:induction false} SplitOnAround(a: string, b: string, c: char)
    ensures SplitOn(a + [c] + b, [c]) == SplitOn(a, [c]) + SplitOn(b, [c])
    decreases |a|
  {
    var fo := FirstOccurrence(a, [c]);
    if fo.None? {
      SplitOnNoSep(a, b, c);
    } else {
      var k := fo.value;
      FirstOccurrenceChar(a, c, k);
      var a1, a2 := a[..k], a[k + 1..];
      assert a == a1 + [c] + a2;
      SplitOnAround(a2, b, c);
      SplitOnStep(a1, a2, b, c);
    }
  }

  lemma {:induction false} SplitOnStep(a1: string, a2: string, b: string, c: char)
    requires c !in a1
    requires SplitOn(a2 + [c] + b, [c]) == SplitOn(a2, [c]) + SplitOn(b, [c])
    ensures SplitOn(a1 + [c] + a2 + [c] + b, [c]) == SplitOn(a1 + [c] + a2, [c]) + SplitOn(b, [c])
  {
    var rest := a2 + [c] + b;
    calc {
      SplitOn(a1 + [c] + a2 + [c] + b, [c]);
      { assert a1 + [c] + a2 + [c] + b == a1 + [c] + rest; }
      SplitOn(a1 + [c] + rest, [c]);
      { SplitOnFirst(a1, rest, c); }
      [a1] + SplitOn(rest, [c]);
      [a1] + (SplitOn(a2, [c]) + SplitOn(b, [c]));
      ([a1] + SplitOn(a2, [c])) + SplitOn(b, [c]);
      { SplitOnFirst(a1, a2, c); }
      SplitOn(a1 + [c] + a2, [c]) + SplitOn(b, [c]);
    }
  }

  /** When `a` has no `c`, the first piece of `a + [c] + rest` is `a`. */
  lemma {:induction false} SplitOnFirst(a: string, rest: string, c: char)
    requires c !in a
    ensures SplitOn(a + [c] + rest, [c]) == [a] + SplitOn(rest, [c])
  {
    var s := a + [c] + rest;
    FirstOccurrenceAfter(a, rest, c);
    assert s[..|a|] == a;
    assert s[|a| + 1..] == rest;
  }

  lemma {:induction false} SplitOnNoSep(a: string, b: string, c: char)
    requires FirstOccurrence(a, [c]).None?
    ensures SplitOn(a + [c] + b, [c]) == SplitOn(a, [c]) + SplitOn(b, [c])
  {
    ContainsChar(a, c);
    FirstOccurrenceSpec(a, [c]);
    SplitOnFirst(a, b, c);
  }

  /** How many times `c` occurs in `s`. */
  function Occurrences(s: string, c: char): nat {
    if |s| == 0 then 0 else (if s[0] == c then 1 else 0) + Occurrences(s[1..], c)
  }

  lemma {:induction false} OccurrencesAppend(a: string, b: string, c: char)
    ensures Occurrences(a + b, c) == Occurrences(a, c) + Occurrences(b, c)
  {
    if |a| > 0 {
      assert (a + b)[1..] == a[1..] + b;
      OccurrencesAppend(a[1..], b, c);
    } else {
      assert a + b == b;
    }
  }

  lemma {:induction false} OccurrencesNone(s: string, c: char)
    requires c !in s
    ensures Occurrences(s, c) == 0
  {
    if |s| > 0 {
      OccurrencesNone(s[1..], c);
    }
  }

  /** Text without the separator is a single piece. */
  lemma {:induction false} SplitWithout(s: string, c: char)
    requires c !in s
    ensures Split(s, c) == [s]
  {
    JoinSplit(s, c);
  }

  /** `split(c)` yields one piece more than there are separators. */
  lemma {:induction false} SplitCount(s: string, c: char)
    ensures |Split(s, c)| == Occurrences(s, c) + 1
    decreases |s|
  {
    if c in s {
      var i :| 0 <= i < |s| && s[i] == c;
      var a, b := s[..i], s[i + 1..];
      assert s == a + [c] + b;
      SplitAround(a, b, c);
      SplitCount(a, c);
      SplitCount(b, c);
      OccurrencesAppend(a + [c], b, c);
      OccurrencesAppend(a, [c], c);
    } else {
      SplitWithout(s, c);
      OccurrencesNone(s, c);
    }
  }

  /** `s.replace(/pat/g, rep)` for a literal pattern: occurrences are replaced left to right without overlap. */
  function ReplaceAll(s: string, pat: string, rep: string): (r: string)
    requires |pat| > 0
    ensures !Contains(s, pat) ==> r == s
    decreases |s|
  {
    if |s| < |pat| then s
    else if s[..|pat|] == pat then
      assert OccursAt(s, pat, 0);
      rep + ReplaceAll(s[|pat|..], pat, rep)
    else
      var tail := ReplaceAll(s[1..], pat, rep);
      assert !Contains(s, pat) ==> !Contains(s[1..], pat) by {
        if Contains(s[1..], pat) {
          var j :| 0 <= j <= |s| - 1 && OccursAt(s[1..], pat, j);
          OccursShift(s, pat, j);
        }
      }
      [s[0]] + tail
  }

  lemma {:induction false} ReplaceAllSkip(s: string, pat: string, rep: string)
    requires |pat| > 0 && |s| >= |pat| && s[..|pat|] != pat
    ensures ReplaceAll(s, pat, rep) == [s[0]] + ReplaceAll(s[1..], pat, rep)
  {
  }

  lemma {:induction false} ReplaceAllHit(s: string, pat: string, rep: string)
    requires |pat| > 0 && |s| >= |pat| && s[..|pat|] == pat
    ensures ReplaceAll(s, pat, rep) == rep + ReplaceAll(s[|pat|..], pat, rep)
  {
  }

  lemma {:induction false} ReplaceAllShort(s: string, pat: string, rep: string)
    requires |pat| > 0 && |s| < |pat|
    ensures ReplaceAll(s, pat, rep) == s
  {
  }

  /** Replacement introduces only what the replacement text brings in. */
  lemma {:induction false} ReplaceAllAll(s: string, pat: string, rep: string, p: char -> bool)
    requires |pat| > 0 && All(p, s) && All(p, rep)
    ensures All(p, ReplaceAll(s, pat, rep))
    decreases |s|
  {
    if |s| < |pat| {
    } else if s[..|pat|] == pat {
      ReplaceAllAll(s[|pat|..], pat, rep, p);
    } else {
      ReplaceAllAll(s[1..], pat, rep, p);
    }
  }

  /** Trimming keeps every property all the characters had. */
  lemma {:induction false} TrimAll(s: string, p: char -> bool)
    requires All(p, s)
    ensures All(p, Trim(s))
  {
    var r := Trim(s);
    forall i | 0 <= i < |r|
      ensures p(r[i])
    {
      assert r[i] == s[SpaceRun(s) + i];
    }
  }

  /** Every occurrence of a one-character pattern is gone once it is replaced by text without it. */
  lemma {:induction false} ReplaceAllRemovesChar(s: string, c: char, rep: string)
    requires c !in rep
    ensures c !in ReplaceAll(s, [c], rep)
    decreases |s|
  {
    if |s| >= 1 {
      ReplaceAllRemovesChar(s[1..], c, rep);
      if s[..1] == [c] {
      } else {
        assert s[0] != c by { assert s[..1] == [s[0]]; }
      }
    }
  }

  /** Replacing a single character, one character at a time. */
  lemma {:induction false} ReplaceCharCons(x: char, rest: string, c: char, rep: string)
    ensures ReplaceAll([x] + rest, [c], rep) == (if x == c then rep else [x]) + ReplaceAll(rest, [c], rep)
  {
    var t := [x] + rest;
    assert t[..1] == [x];
    assert t[1..] == rest;
    if x == c {
      ReplaceAllHit(t, [c], rep);
    } else {
      ReplaceAllSkip(t, [c], rep);
    }
  }

  /** Every `c` replaced by `rep`, character by character. */
  function ReplaceChar(s: string, c: char, rep: string): string
    decreases |s|
  {
    if |s| == 0 then "" else (if s[0] == c then rep else [s[0]]) + ReplaceChar(s[1..], c, rep)
  }

  /** For a one-character pattern, the global replace is the character-by-character one. */
  lemma {:induction false} ReplaceCharMatches(s: string, c: char, rep: string)
    ensures ReplaceAll(s, [c], rep) == ReplaceChar(s, c, rep)
    decreases |s|
  {
    if |s| == 0 {
      ReplaceAllShort(s, [c], rep);
    } else {
      ReplaceCharMatches(s[1..], c, rep);
      assert s == [s[0]] + s[1..];
      ReplaceCharCons(s[0], s[1..], c, rep);
    }
  }

  /** Text without the character is left as it is. */
  lemma {:induction false} ReplaceCharAbsent(s: string, c: char, rep: string)
    requires c !in s
    ensures ReplaceChar(s, c, rep) == s
    decreases |s|
  {
    if |s| > 0 {
      ReplaceCharAbsent(s[1..], c, rep);
      assert s == [s[0]] + s[1..];
    }
  }

  /** Replacing a single character works piece by piece: a match never spans the seam. */
  lemma {:induction false} ReplaceCharAppend(a: string, b: string, c: char, rep: string)
    ensures ReplaceChar(a + b, c, rep) == ReplaceChar(a, c, rep) + ReplaceChar(b, c, rep)
    decreases |a|
  {
    if |a| == 0 {
      assert a + b == b;
    } else {
      var h := if a[0] == c then rep else [a[0]];
      calc {
        ReplaceChar(a + b, c, rep);
        { assert (a + b)[0] == a[0]; assert (a + b)[1..] == a[1..] + b; }
        h + ReplaceChar(a[1..] + b, c, rep);
        { ReplaceCharAppend(a[1..], b, c, rep); }
        h + (ReplaceChar(a[1..], c, rep) + ReplaceChar(b, c, rep));
        (h + ReplaceChar(a[1..], c, rep)) + ReplaceChar(b, c, rep);
      }
    }
  }

  /** The decimal digit character of `d`. */
  function DigitChar(d: nat): (c: char)
    requires d < 10
    ensures IsDigit(c)
  {
    ['0', '1', '2', '3', '4', '5', '6', '7', '8', '9'][d]
  }

  /** The value of a decimal digit character. */
  function DigitValue(c: char): (d: nat)
    requires IsDigit(c)
    ensures d < 10
  {
    (c as int - '0' as int) as nat
  }

  lemma {:induction false} DigitValueOfChar(d: nat)
    requires d < 10
    ensures DigitValue(DigitChar(d)) == d
  {
  }

  /** `${n}` for a natural number: its decimal notation without leading zeros. */
  function Decimal(n: nat): (r: string)
    ensures |r| >= 1 && AllDigits(r)
  {
    if n < 10 then [DigitChar(n)] else Decimal(n / 10) + [DigitChar(n % 10)]
  }

  /** Reading a string of decimal digits as a number. */
  function DecimalValue(s: string): nat
    requires AllDigits(s)
  {
    if |s| == 0 then 0 else DecimalValue(s[..|s| - 1]) * 10 + DigitValue(s[|s| - 1])
  }

  /** Reading back the decimal notation of `n` gives `n`. */
  lemma {:induction false} DecimalRoundTrip(n: nat)
    ensures DecimalValue(Decimal(n)) == n
  {
    DigitValueOfChar(n % 10);
    if n >= 10 {
      var r := Decimal(n);
      assert r[..|r| - 1] == Decimal(n / 10);
      DecimalRoundTrip(n / 10);
    }
  }

  /** Different numbers have different decimal notations. */
  lemma {:induction false} DecimalInjective(m: nat, n: nat)
    requires Decimal(m) == Decimal(n)
    ensures m == n
  {
    DecimalRoundTrip(m);
    DecimalRoundTrip(n);
  }

  /** A pattern whose first character is absent cannot occur. */
  lemma {:induction false} NotContainsWithoutFirst(s: string, pat: string)
    requires |pat| > 0 && pat[0] !in s
    ensures !Contains(s, pat)
  {
  }
}
