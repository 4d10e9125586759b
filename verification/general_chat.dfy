/**
 * `ai/src/services/gemini-general.ts`: the general chat mode. The model is
 * told to end its reply with a tag such as `[SUGGEST_MODE:coach]`; the
 * service reads the first such tag as the suggested mode and removes it
 * from the message. The model's reply is a parameter (`Err` when the call
 * threw).
 */
module GeneralChat {
  import opened Wrappers
  import opened Text

  /** The five chat modes, `'therapist' | 'friend' | 'coach' | 'moderator' | 'general'`. */
  datatype Mode = Therapist | Friend | Coach | Moderator | General

  function ModeName(m: Mode): string {
    match m
    case Therapist => "therapist"
    case Friend => "friend"
    case Coach => "coach"
    case Moderator => "moderator"
    case General => "general"
  }

  /** Everything up to the mode name in a tag. */
  const TagOpen: string := "[SUGGEST_MODE:"

  /** The tag that suggests `m`. */
  function Tag(m: Mode): (r: string)
    ensures |r| == |TagOpen| + |ModeName(m)| + 1 && r[0] == '['
    ensures r[|TagOpen|] == ModeName(m)[0]
  {
    TagOpen + ModeName(m) + "]"
  }

  /**
   * The mode whose tag starts at `i`. The regex alternatives are tried in
   * the order of line 63; at most one of them can match at a position,
   * since the five names start with different letters.
   */
  function TagAt(s: string, i: nat): (r: Option<Mode>)
    ensures r.Some? ==> OccursAt(s, Tag(r.value), i)
    ensures r.None? ==> forall m: Mode :: !OccursAt(s, Tag(m), i)
  {
    if OccursAt(s, Tag(Therapist), i) then Some(Therapist)
    else if OccursAt(s, Tag(Friend), i) then Some(Friend)
    else if OccursAt(s, Tag(Coach), i) then Some(Coach)
    else if OccursAt(s, Tag(Moderator), i) then Some(Moderator)
    else if OccursAt(s, Tag(General), i) then Some(General)
    else None
  }

  /** The leftmost position at or after `from` where a tag starts: where `match` finds it. */
  function FirstTag(s: string, from: nat): (r: Option<nat>)
    ensures r.Some? ==> from <= r.value <= |s| && TagAt(s, r.value).Some?
    ensures r.Some? ==> forall j :: from <= j < r.value ==> TagAt(s, j).None?
    ensures r.None? ==> forall j :: from <= j <= |s| ==> TagAt(s, j).None?
    decreases |s| + 1 - from
  {
    if from > |s| then None
    else if TagAt(s, from).Some? then Some(from)
    else FirstTag(s, from + 1)
  }

  /** What `sendGeneralMessage` returns. */
  datatype GeneralReply = GeneralReply(message: string, suggestedMode: Mode)

  /** Lines 63-77: take the first tag's mode and delete that one tag; without a tag, keep the text as is. */
  function ParseReply(fullText: string): (r: GeneralReply)
    ensures FirstTag(fullText, 0).None? ==> r == GeneralReply(fullText, General)
  {
    match FirstTag(fullText, 0)
    case None => GeneralReply(fullText, General)
    case Some(i) =>
      var m := TagAt(fullText, i).value;
      GeneralReply(Trim(fullText[..i] + fullText[i + |Tag(m)|..]), m)
  }

  /** `sendGeneralMessage`: any failure becomes the one generic error of line 80. */
  function SendGeneralMessage(reply: Result<string>): (r: Result<GeneralReply>)
    ensures reply.Ok? <==> r.Ok?
    ensures reply.Err? ==> r.error == "Failed to get response from General Chat mode"
  {
    match reply
    case Ok(text) => Ok(ParseReply(text))
    case Err(_) => Err("Failed to get response from General Chat mode")
  }

  // ---------------------------------------------------------------------
  // What the parser guarantees

  predicate NoOpenBracket(s: string) {
    forall i :: 0 <= i < |s| ==> s[i] != '['
  }

  /** A tag can only start at a `[`. */
  lemma {:induction false} NoTagAt(s: string, j: nat)
    requires j < |s| && s[j] != '['
    ensures TagAt(s, j).None?
  {
  }

  /** Two tags at the same position are the same tag. */
  lemma {:induction false} TagsDiffer(s: string, i: nat, m: Mode, n: Mode)
    requires OccursAt(s, Tag(m), i) && OccursAt(s, Tag(n), i)
    ensures m == n
  {
    var k := |TagOpen|;
    assert s[i..i + |Tag(m)|][k] == s[i + k] == s[i..i + |Tag(n)|][k];
    assert Tag(m)[k] == ModeName(m)[0];
    assert Tag(n)[k] == ModeName(n)[0];
  }

  /** The tag of `m` is recognised as `m`. */
  lemma {:induction false} TagAtTag(s: string, i: nat, m: Mode)
    requires OccursAt(s, Tag(m), i)
    ensures TagAt(s, i) == Some(m)
  {
    var r := TagAt(s, i);
    if r.Some? {
      TagsDiffer(s, i, r.value, m);
    }
  }

  /** The scan stops at the first position holding a tag. */
  lemma {:induction false} FirstTagAt(s: string, from: nat, k: nat)
    requires from <= k <= |s| && TagAt(s, k).Some?
    requires forall j :: from <= j < k ==> TagAt(s, j).None?
    ensures FirstTag(s, from) == Some(k)
    decreases k - from
  {
    if from < k {
      FirstTagAt(s, from + 1, k);
    }
  }

  /** No tag starts before position `k`: `match` has nothing to find there. */
  predicate NoTagBefore(s: string, k: nat) {
    forall j :: 0 <= j < k ==> TagAt(s, j).None?
  }

  /**
   * Text with a tag: the reply's mode is that of the first tag, that one tag
   * is cut out and the rest is trimmed. Whatever comes before it (a `[` that
   * opens a link, say) and everything after it, a second tag included, stays
   * in the message.
   */
  lemma {:induction false} ParseTagged(a: string, m: Mode, b: string)
    requires NoTagBefore(a + Tag(m) + b, |a|)
    ensures ParseReply(a + Tag(m) + b) == GeneralReply(Trim(a + b), m)
  {
    var s := a + Tag(m) + b;
    assert s[|a|..|a| + |Tag(m)|] == Tag(m);
    TagAtTag(s, |a|, m);
    FirstTagAt(s, 0, |a|);
    assert s[..|a|] == a;
    assert s[|a| + |Tag(m)|..] == b;
  }

  /** The common case: no `[` at all before the tag. */
  lemma {:induction false} ParseTaggedPlain(a: string, m: Mode, b: string)
    requires NoOpenBracket(a)
    ensures ParseReply(a + Tag(m) + b) == GeneralReply(Trim(a + b), m)
  {
    var s := a + Tag(m) + b;
    forall j | 0 <= j < |a|
      ensures TagAt(s, j).None?
    {
      assert s[j] == a[j];
      NoTagAt(s, j);
    }
    ParseTagged(a, m, b);
  }

  /** A markdown link before the tag does not hide it. */
  lemma {:induction false} ParseTaggedAfterLink(m: Mode, b: string)
    ensures ParseReply("See [here](x) " + Tag(m) + b) == GeneralReply(Trim("See [here](x) " + b), m)
  {
    var a := "See [here](x) ";
    var s := a + Tag(m) + b;
    forall j | 0 <= j < |a|
      ensures TagAt(s, j).None?
    {
      if s[j] != '[' {
        NoTagAt(s, j);
      } else {
        assert j == 4;
        NameLetterMismatch(s, j, m);
      }
    }
    ParseTagged(a, m, b);
  }

  /** A reply with no tag at all keeps its text, untrimmed, and suggests `general`. */
  lemma {:induction false} ParseUntagged(s: string)
    requires NoOpenBracket(s)
    ensures ParseReply(s) == GeneralReply(s, General)
  {
    forall j | 0 <= j <= |s|
      ensures TagAt(s, j).None?
    {
      if j < |s| {
        NoTagAt(s, j);
      }
    }
  }

  /** No tag starts where no `[` is. */
  lemma {:induction false} NoTagBetween(s: string, lo: nat, hi: nat)
    requires lo <= hi <= |s| && NoOpenBracket(s[lo..hi])
    ensures forall j :: lo <= j < hi ==> TagAt(s, j).None?
  {
    forall j | lo <= j < hi
      ensures TagAt(s, j).None?
    {
      assert s[j] == s[lo..hi][j - lo];
      NoTagAt(s, j);
    }
  }

  /** No tag starts where the character after its opening differs from the mode name's first letter. */
  lemma {:induction false} NameLetterMismatch(s: string, j: nat, m: Mode)
    requires j + |TagOpen| < |s| && s[j + |TagOpen|] != ModeName(m)[0]
    ensures !OccursAt(s, Tag(m), j)
  {
    if j + |Tag(m)| <= |s| {
      assert s[j..j + |Tag(m)|][|TagOpen|] != Tag(m)[|TagOpen|];
    }
  }

  /** The capitalised name differs from every real one right after the tag's opening. */
  lemma {:induction false} CapitalisedAt(s: string, j: nat)
    requires OccursAt(s, "[SUGGEST_MODE:Coach]", j)
    ensures TagAt(s, j).None?
  {
    assert s[j + |TagOpen|] == s[j..j + 20][|TagOpen|] == 'C';
    forall m: Mode
      ensures !OccursAt(s, Tag(m), j)
    {
      NameLetterMismatch(s, j, m);
    }
  }

  /** A single `[` that opens no tag leaves the reply untouched. */
  lemma {:induction false} UntaggedAround(a: string, t: string, b: string)
    requires NoOpenBracket(a) && |t| > 0 && NoOpenBracket(t[1..] + b)
    requires TagAt(a + t + b, |a|).None?
    ensures ParseReply(a + t + b) == GeneralReply(a + t + b, General)
  {
    var s := a + t + b;
    assert s[0..|a|] == a;
    NoTagBetween(s, 0, |a|);
    assert s[|a| + 1..|s|] == t[1..] + b;
    NoTagBetween(s, |a| + 1, |s|);
    NoTagBut(s, |a|);
  }

  /** With no tag before or after position `k`, and none at `k` either, the text is returned as it came. */
  lemma {:induction false} NoTagBut(s: string, k: nat)
    requires k < |s| && TagAt(s, k).None?
    requires forall j :: 0 <= j < k ==> TagAt(s, j).None?
    requires forall j :: k + 1 <= j < |s| ==> TagAt(s, j).None?
    ensures ParseReply(s) == GeneralReply(s, General)
  {
    forall j | 0 <= j < |s|
      ensures TagAt(s, j).None?
    {
      if j < k {
      } else if j > k {
      }
    }
    NoTagAnywhere(s);
  }

  /** With no tag anywhere, the text is returned as it came. */
  lemma {:induction false} NoTagAnywhere(s: string)
    requires forall j :: 0 <= j < |s| ==> TagAt(s, j).None?
    ensures ParseReply(s) == GeneralReply(s, General)
  {
    assert TagAt(s, |s|).None?;
  }

  /** Matching is case-sensitive: a capitalised name is not a tag and stays in the message. */
  lemma {:induction false} CapitalisedNotRecognised(a: string, b: string)
    requires NoOpenBracket(a) && NoOpenBracket(b)
    ensures ParseReply(a + "[SUGGEST_MODE:Coach]" + b) == GeneralReply(a + "[SUGGEST_MODE:Coach]" + b, General)
  {
    var t := "[SUGGEST_MODE:Coach]";
    var s := a + t + b;
    assert s[|a|..|a| + |t|] == t;
    CapitalisedAt(s, |a|);
    assert NoOpenBracket(t[1..] + b);
    UntaggedAround(a, t, b);
  }
}
