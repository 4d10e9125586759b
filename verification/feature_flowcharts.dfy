/**
 * `src/lib/featureFlowcharts.ts`: per-feature and whole-app flowcharts
 * generated by the language model and normalised into Mermaid text, and the
 * feature suggestions derived from the idea. The model's reply is a
 * parameter: `Ok(text)` when `generateContent` produced text, `Err` when it
 * threw.
 */
module FeatureFlowcharts {
  import opened Wrappers
  import opened Seqs
  import opened Text
  import opened MermaidCleanup
  import opened Fences

  /**
   * The `Feature` record of lines 3-9. An absent `isGenerated` is falsy
   * wherever it is read, so it is `false` here.
   */
  datatype Feature = Feature(id: string, name: string, description: string, flowchart: Option<string>, isGenerated: bool)

  /** `type: 'user' | 'ai'` of a chat-history entry. */
  datatype Speaker = User | Ai

  datatype HistoryEntry = HistoryEntry(kind: Speaker, message: string)

  // ---------------------------------------------------------------------
  // Conversation context (lines 13-20, repeated in the other two generators)

  /** One history entry as a prompt line: `User: …` or `AI: …`, newline-terminated. */
  function ContextLine(m: HistoryEntry): string {
    (if m.kind == User then "User" else "AI") + ": " + m.message + "\n"
  }

  function ContextLines(history: seq<HistoryEntry>): string {
    if |history| == 0 then "" else ContextLine(history[0]) + ContextLines(history[1..])
  }

  /** The conversation block prepended to each prompt: nothing at all for an empty history. */
  function ContextPrompt(history: seq<HistoryEntry>): (r: string)
    ensures r == "" <==> |history| == 0
  {
    if |history| == 0 then "" else "\n\nConversation context:\n" + ContextLines(history) + "\n"
  }

  lemma {:induction false} ContextLinesAppend(history: seq<HistoryEntry>, m: HistoryEntry)
    ensures ContextLines(history + [m]) == ContextLines(history) + ContextLine(m)
  {
    if |history| > 0 {
      assert (history + [m])[1..] == history[1..] + [m];
      ContextLinesAppend(history[1..], m);
    } else {
      assert [m][1..] == [];
    }
  }

  /** The context lines of one more entry of the history. */
  lemma {:induction false} ContextLinesPrefix(history: seq<HistoryEntry>, i: nat)
    requires i < |history|
    ensures ContextLines(history[..i + 1]) == ContextLines(history[..i]) + ContextLine(history[i])
  {
    assert history[..i + 1] == history[..i] + [history[i]];
    ContextLinesAppend(history[..i], history[i]);
  }

  /** Lines 13-20 as written: a string built up with `+=` over `forEach`. */
  method BuildContextPrompt(history: seq<HistoryEntry>) returns (contextPrompt: string)
    ensures contextPrompt == ContextPrompt(history)
  {
    contextPrompt := "";
    if |history| > 0 {
      contextPrompt := "\n\nConversation context:\n";
      var i := 0;
      while i < |history|
        invariant 0 <= i <= |history|
        invariant contextPrompt == "\n\nConversation context:\n" + ContextLines(history[..i])
      {
        var msg := history[i];
        var line := (if msg.kind == User then "User" else "AI") + ": " + msg.message + "\n";
        ContextLinesPrefix(history, i);
        ConcatAssoc("\n\nConversation context:\n", ContextLines(history[..i]), line);
        contextPrompt := contextPrompt + line;
        i := i + 1;
      }
      assert history[..i] == history;
      contextPrompt := contextPrompt + "\n";
    }
  }

  /** The label an entry gets in the prompt, without the line break. */
  function Speaking(m: HistoryEntry): string {
    (if m.kind == User then "User" else "AI") + ": " + m.message
  }

  /**
   * With single-line messages, each history entry is exactly one line of the
   * context block, in order and labelled by its speaker.
   */
  lemma {:induction false} ContextLinesSplit(history: seq<HistoryEntry>)
    requires forall i :: 0 <= i < |history| ==> '\n' !in history[i].message
    ensures Split(ContextLines(history), '\n') == Map(Speaking, history) + [""]
  {
    if |history| == 0 {
      SplitJoin([""], '\n');
    } else {
      var m := history[0];
      ContextLinesSplit(history[1..]);
      assert '\n' !in Speaking(m);
      assert ContextLines(history) == Speaking(m) + ['\n'] + ContextLines(history[1..]);
      SplitAround(Speaking(m), ContextLines(history[1..]), '\n');
      SplitJoin([Speaking(m)], '\n');
      assert Map(Speaking, history) == [Speaking(m)] + Map(Speaking, history[1..]);
    }
  }

  // ---------------------------------------------------------------------
  // The normaliser (lines 62-101, repeated at 162-201)

  /** Line 80: declaration lines pass through untouched; every other line is cleaned. */
  function CleanOrKeep(line: string): string {
    if StartsWith(line, Keyword) then line else CleanLine(line)
  }

  /** `/^[A-Z]\d*[\[\{\(]/`: the line opens with a node ID directly followed by a shape bracket. */
  predicate IsNodeStart(line: string) {
    |line| > 0 && IsUpper(line[0]) && IdLen(line) < |line| && IsBracket(line[IdLen(line)])
  }

  /** Lines 96-99: the lines that survive the shape filter. */
  predicate IsDiagramLine(line: string) {
    StartsWith(line, Keyword) || Contains(line, Arrow) || IsNodeStart(line)
  }

  /** Lines 79-101 applied to the headed lines: clean, filter by shape, join. */
  function Finish(headed: seq<string>): string {
    Join(Filter(IsDiagramLine, Map(CleanOrKeep, headed)), "\n")
  }

  /** The normalised diagram text. */
  function Normalize(raw: string): string {
    Finish(HeadedLines(raw))
  }

  /**
   * `generateFeatureFlowchart`: a reply gives the normalised diagram, which
   * always has the normalised shape; a failure gives the one generic error.
   */
  function GenerateFeatureFlowchart(reply: Result<string>): (r: Result<string>)
    ensures reply.Ok? <==> r.Ok?
    ensures r.Ok? ==> r.value == Normalize(reply.value) && DiagramShape(Split(r.value, '\n'))
    ensures r.Err? ==> r.error == "Failed to generate feature flowchart"
  {
    match reply
    case Ok(text) =>
      NormalizeShape(text);
      Ok(Normalize(text))
    case Err(_) => Err("Failed to generate feature flowchart")
  }

  /** `generateFinalAppFlowchart`: the same normaliser with its own error text. */
  function GenerateFinalAppFlowchart(reply: Result<string>): (r: Result<string>)
    ensures reply.Ok? <==> r.Ok?
    ensures r.Ok? ==> r.value == Normalize(reply.value) && DiagramShape(Split(r.value, '\n'))
    ensures r.Err? ==> r.error == "Failed to generate final app flowchart"
  {
    match reply
    case Ok(text) =>
      NormalizeShape(text);
      Ok(Normalize(text))
    case Err(_) => Err("Failed to generate final app flowchart")
  }

  /** The two generators differ only in their error text: on a reply they give the same diagram. */
  lemma {:induction false} GeneratorsAgree(reply: Result<string>)
    ensures GenerateFeatureFlowchart(reply).Ok? <==> GenerateFinalAppFlowchart(reply).Ok?
    ensures GenerateFeatureFlowchart(reply).Ok? ==>
      GenerateFeatureFlowchart(reply).value == GenerateFinalAppFlowchart(reply).value
    ensures GenerateFeatureFlowchart(reply).Err? ==>
      GenerateFeatureFlowchart(reply).error != GenerateFinalAppFlowchart(reply).error
  {
  }

  /** Line 119: one `- name: description` line per feature. */
  function FeatureLine(f: Feature): string {
    "- " + f.name + ": " + f.description
  }

  function FeaturesDescription(features: seq<Feature>): string {
    Join(Map(FeatureLine, features), "\n")
  }

  /** Each feature is one line of the description, in order. */
  lemma {:induction false} FeaturesDescriptionLines(features: seq<Feature>)
    requires |features| >= 1
    requires forall i :: 0 <= i < |features| ==> '\n' !in features[i].name && '\n' !in features[i].description
    ensures Split(FeaturesDescription(features), '\n') == Map(FeatureLine, features)
  {
    var lines := Map(FeatureLine, features);
    forall i | 0 <= i < |lines|
      ensures '\n' !in lines[i]
    {
      assert lines[i] == "- " + features[i].name + ": " + features[i].description;
    }
    SplitJoin(lines, '\n');
  }

  // ---------------------------------------------------------------------
  // Feature suggestions (lines 243-274)

  /** One entry of the JSON array the model is asked to return. */
  datatype Suggestion = Suggestion(name: string, description: string)

  /** `feature-${n}` */
  function FeatureId(n: nat): string {
    "feature-" + Decimal(n)
  }

  /** Reads the number back out of a feature id; `None` for anything else. */
  function FeatureNumber(id: string): (r: Option<nat>)
    ensures r.Some? ==> StartsWith(id, "feature-")
  {
    if StartsWith(id, "feature-") && |id| > 8 && AllDigits(id[8..]) then Some(DecimalValue(id[8..])) else None
  }

  lemma {:induction false} FeatureNumberOfId(n: nat)
    ensures FeatureNumber(FeatureId(n)) == Some(n)
  {
    var id := FeatureId(n);
    assert id[..8] == "feature-";
    assert id[8..] == Decimal(n);
    DecimalRoundTrip(n);
  }

  /** Distinct numbers give distinct ids. */
  lemma {:induction false} FeatureIdInjective(m: nat, n: nat)
    requires FeatureId(m) == FeatureId(n)
    ensures m == n
  {
    FeatureNumberOfId(m);
    FeatureNumberOfId(n);
  }

  /** Lines 246-251: the parsed entries in order, numbered from 1, none generated yet. */
  function Numbered(xs: seq<Suggestion>): (r: seq<Feature>)
    ensures |r| == |xs|
  {
    seq(|xs|, i requires 0 <= i < |xs| => Feature(FeatureId(i + 1), xs[i].name, xs[i].description, None, false))
  }

  /**
   * What every list of suggestions looks like: feature `i` has the id
   * `feature-(i+1)`, so the ids are pairwise distinct and read back as
   * `1..n` in order, and no feature has a flowchart yet.
   */
  predicate FreshlyNumbered(fs: seq<Feature>) {
    forall i :: 0 <= i < |fs| ==> fs[i].id == FeatureId(i + 1) && !fs[i].isGenerated && fs[i].flowchart == None
  }

  lemma {:induction false} NumberedShape(xs: seq<Suggestion>)
    ensures FreshlyNumbered(Numbered(xs))
    ensures forall i :: 0 <= i < |xs| ==> Numbered(xs)[i].name == xs[i].name && Numbered(xs)[i].description == xs[i].description
  {
  }

  lemma {:induction false} FreshlyNumberedIds(fs: seq<Feature>)
    requires FreshlyNumbered(fs)
    ensures forall i, j :: 0 <= i < j < |fs| ==> fs[i].id != fs[j].id
    ensures forall i :: 0 <= i < |fs| ==> FeatureNumber(fs[i].id) == Some(i + 1)
  {
    forall i, j | 0 <= i < j < |fs|
      ensures fs[i].id != fs[j].id
    {
      if fs[i].id == fs[j].id {
        FeatureIdInjective(i + 1, j + 1);
      }
    }
    forall i | 0 <= i < |fs|
      ensures FeatureNumber(fs[i].id) == Some(i + 1)
    {
      FeatureNumberOfId(i + 1);
    }
  }

  /** Lines 255-274: the three features returned when anything goes wrong. */
  const FallbackSuggestions: seq<Suggestion> := [
    Suggestion("User Authentication", "Secure login and registration system"),
    Suggestion("Core Functionality", "Main feature that solves the primary problem"),
    Suggestion("User Dashboard", "Central hub for users to access all features")
  ]

  function FallbackFeatures(): seq<Feature> {
    [
      Feature("feature-1", "User Authentication", "Secure login and registration system", None, false),
      Feature("feature-2", "Core Functionality", "Main feature that solves the primary problem", None, false),
      Feature("feature-3", "User Dashboard", "Central hub for users to access all features", None, false)
    ]
  }

  /** The hand-written fallback is numbered exactly as a parsed reply would be. */
  lemma {:induction false} FallbackIsNumbered()
    ensures FallbackFeatures() == Numbered(FallbackSuggestions)
  {
    assert Decimal(1) == "1" && Decimal(2) == "2" && Decimal(3) == "3";
    assert FeatureId(1) == "feature-1" && FeatureId(2) == "feature-2" && FeatureId(3) == "feature-3";
  }

  /**
   * `suggestFeatures`. `reply` is the model's text (`Err` when the call
   * threw) and `parse` stands for `JSON.parse` followed by reading each
   * entry's `name` and `description`: `None` when it throws or the value is
   * not an array.
   */
  function SuggestFeatures(reply: Result<string>, parse: string -> Option<seq<Suggestion>>): (r: seq<Feature>)
    ensures reply.Err? ==> r == FallbackFeatures()
    ensures reply.Ok? && parse(StripJsonFences(reply.value)).Some? ==> |r| == |parse(StripJsonFences(reply.value)).value|
  {
    match reply
    case Err(_) => FallbackFeatures()
    case Ok(text) =>
      match parse(StripJsonFences(text))
      case None => FallbackFeatures()
      case Some(xs) => Numbered(xs)
  }

  /**
   * Whatever the model and the parser do, the suggestions carry the ids
   * `feature-1`, `feature-2`, … in order, pairwise distinct, none generated;
   * a failure anywhere gives the three fallback features.
   */
  lemma {:induction false} SuggestFeaturesNumbered(reply: Result<string>, parse: string -> Option<seq<Suggestion>>)
    ensures FreshlyNumbered(SuggestFeatures(reply, parse))
    ensures forall i, j :: 0 <= i < j < |SuggestFeatures(reply, parse)| ==>
      SuggestFeatures(reply, parse)[i].id != SuggestFeatures(reply, parse)[j].id
    ensures reply.Err? || parse(StripJsonFences(reply.value)).None? ==> |SuggestFeatures(reply, parse)| == 3
  {
    var r := SuggestFeatures(reply, parse);
    FallbackIsNumbered();
    NumberedShape(FallbackSuggestions);
    if reply.Ok? {
      NumberedShape(parse(StripJsonFences(reply.value)).GetOr([]));
    }
    FreshlyNumberedIds(r);
  }

  /** A parsed reply keeps the model's names and descriptions, in its order. */
  lemma {:induction false} SuggestFeaturesParsed(text: string, parse: string -> Option<seq<Suggestion>>, xs: seq<Suggestion>)
    requires parse(StripJsonFences(text)) == Some(xs)
    ensures |SuggestFeatures(Ok(text), parse)| == |xs|
    ensures forall i :: 0 <= i < |xs| ==>
      SuggestFeatures(Ok(text), parse)[i].name == xs[i].name &&
      SuggestFeatures(Ok(text), parse)[i].description == xs[i].description
  {
    NumberedShape(xs);
  }

  // ---------------------------------------------------------------------
  // What the normaliser guarantees

  lemma {:induction false} SingleLineNotIn(s: string)
    ensures SingleLine(s) <==> '\n' !in s
  {
  }

  lemma {:induction false} DiagramLineNonEmpty(line: string)
    requires IsDiagramLine(line)
    ensures line != ""
  {
    if Contains(line, Arrow) {
      var i :| 0 <= i <= |line| && OccursAt(line, Arrow, i);
    }
  }

  /** What the header step guarantees about the lines the rest of the pipeline sees. */
  predicate WellHeaded(headed: seq<string>) {
    |headed| >= 1 && StartsWith(headed[0], Keyword) && All(SingleLine, headed)
  }

  lemma {:induction false} WithHeaderWellHeaded(lines: seq<string>)
    requires All(SingleLine, lines)
    ensures WellHeaded(WithHeader(lines))
  {
    var r := WithHeader(lines);
    if r != lines {
      assert SingleLine(Header);
      assert r == [Header] + lines;
      forall i | 0 <= i < |r|
        ensures SingleLine(r[i])
      {
        if i > 0 {
          assert r[i] == lines[i - 1];
        }
      }
    }
  }

  lemma {:induction false} HeadedLinesWellHeaded(raw: string)
    ensures WellHeaded(HeadedLines(raw))
  {
    var text := StripFences(raw);
    NonEmptyLinesShape(text);
    WithHeaderWellHeaded(NonEmptyLines(text));
  }

  lemma {:induction false} CleanedSingle(headed: seq<string>)
    requires All(SingleLine, headed)
    ensures All(SingleLine, Map(CleanOrKeep, headed))
  {
    var cleaned := Map(CleanOrKeep, headed);
    forall i | 0 <= i < |cleaned|
      ensures SingleLine(cleaned[i])
    {
      if !StartsWith(headed[i], Keyword) {
        CleanLineNoBreak(headed[i]);
      }
    }
  }

  /** The lines of the output are exactly the surviving lines. */
  lemma {:induction false} FinishLines(headed: seq<string>)
    requires WellHeaded(headed)
    ensures Split(Finish(headed), '\n') == Filter(IsDiagramLine, Map(CleanOrKeep, headed))
  {
    var cleaned := Map(CleanOrKeep, headed);
    var lines := Filter(IsDiagramLine, cleaned);
    CleanedSingle(headed);
    FilterAll(IsDiagramLine, SingleLine, cleaned);
    assert cleaned[0] == headed[0];
    assert |lines| >= 1;
    forall i | 0 <= i < |lines|
      ensures '\n' !in lines[i]
    {
      SingleLineNotIn(lines[i]);
    }
    SplitJoin(lines, '\n');
  }

  /**
   * The output, read as lines: the first is a declaration, none is empty,
   * every line passes the shape filter, and every line that is not a
   * declaration is free of quotes and has its IDs glued to their brackets.
   */
  predicate DiagramShape(out: seq<string>) {
    && |out| >= 1 && StartsWith(out[0], Keyword)
    && (forall i :: 0 <= i < |out| ==> out[i] != "" && IsDiagramLine(out[i]))
    && (forall i :: 0 <= i < |out| ==> StartsWith(out[i], Keyword) || (NoQuote(out[i]) && GluedIds(out[i])))
  }

  lemma {:induction false} FinishShape(headed: seq<string>)
    requires WellHeaded(headed)
    ensures DiagramShape(Split(Finish(headed), '\n'))
  {
    FinishLines(headed);
    var cleaned := Map(CleanOrKeep, headed);
    var out := Filter(IsDiagramLine, cleaned);
    assert cleaned[0] == headed[0];
    assert out[0] == cleaned[0];
    forall i | 0 <= i < |out|
      ensures out[i] != ""
    {
      DiagramLineNonEmpty(out[i]);
    }
    var cleanShape := (l: string) => StartsWith(l, Keyword) || (NoQuote(l) && GluedIds(l));
    assert All(cleanShape, cleaned) by {
      forall i | 0 <= i < |cleaned|
        ensures cleanShape(cleaned[i])
      {
        if !StartsWith(headed[i], Keyword) {
          CleanLineShape(headed[i]);
        }
      }
    }
    FilterAll(IsDiagramLine, cleanShape, cleaned);
  }

  /** Whatever the reply, the normalised diagram has the shape `DiagramShape` describes. */
  lemma {:induction false} NormalizeShape(raw: string)
    ensures DiagramShape(Split(Normalize(raw), '\n'))
  {
    HeadedLinesWellHeaded(raw);
    FinishShape(HeadedLines(raw));
  }

  /**
   * Declaration lines survive verbatim, and the surviving lines keep their
   * relative order.
   */
  lemma {:induction false} FinishKeepsOrder(headed: seq<string>)
    ensures IsSubsequence(Filter(IsDiagramLine, Map(CleanOrKeep, headed)), Map(CleanOrKeep, headed))
    ensures forall i :: 0 <= i < |headed| && StartsWith(headed[i], Keyword) ==>
      headed[i] in Filter(IsDiagramLine, Map(CleanOrKeep, headed))
  {
    var cleaned := Map(CleanOrKeep, headed);
    FilterIsSubsequence(IsDiagramLine, cleaned);
    forall i | 0 <= i < |headed| && StartsWith(headed[i], Keyword)
      ensures headed[i] in Filter(IsDiagramLine, cleaned)
    {
      FilterComplete(IsDiagramLine, cleaned, i);
    }
  }

  lemma {:induction false} StripFencesBlank(raw: string)
    requires AllSpace(raw)
    ensures StripFences(raw) == ""
  {
    assert Trim(raw) == "";
  }

  lemma {:induction false} NonEmptyLinesEmpty()
    ensures NonEmptyLines("") == []
  {
    assert Split("", '\n') == [""] by {
      SplitJoin([""], '\n');
    }
    assert Map(Trim, [""]) == [""];
  }

  lemma {:induction false} FinishHeader()
    ensures Finish([Header]) == Header
  {
    assert StartsWith(Header, Keyword);
    assert Map(CleanOrKeep, [Header]) == [Header];
    assert Filter(IsDiagramLine, [Header]) == [Header];
  }

  /** A blank reply, the empty one included, normalises to the bare declaration `flowchart TD`. */
  lemma {:induction false} NormalizeBlank(raw: string)
    requires AllSpace(raw)
    ensures Normalize(raw) == Header
  {
    StripFencesBlank(raw);
    NonEmptyLinesEmpty();
    FinishHeader();
  }
}
