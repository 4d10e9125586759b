/**
 * `src/components/FeatureManager.tsx`: the roadmap of selected features,
 * each of which can have its own flowchart generated, and the final
 * whole-app flowchart. The feature list is the parent's; the component hands
 * an updated list to `onFeaturesUpdate`, which is here the `update` of an
 * outcome. The model's reply is a parameter.
 */
module FeatureManager {
  import opened Wrappers
  import opened Seqs
  import opened Text
  import opened MermaidCleanup
  import opened FeatureFlowcharts

  /** Line 30: one feature with its diagram attached. */
  function Attach(f: Feature, flowchart: string): Feature {
    f.(flowchart := Some(flowchart), isGenerated := true)
  }

  /**
   * Lines 28-32: every feature whose id is the generated one gets the
   * diagram and is marked generated; every other feature is kept as it was.
   */
  function MarkGenerated(features: seq<Feature>, id: string, flowchart: string): (r: seq<Feature>)
    ensures |r| == |features|
    ensures forall i :: 0 <= i < |r| ==>
      r[i] == (if features[i].id == id then Attach(features[i], flowchart) else features[i])
    decreases |features|
  {
    if |features| == 0 then []
    else
      var f := features[0];
      [if f.id == id then Attach(f, flowchart) else f] + MarkGenerated(features[1..], id, flowchart)
  }

  /** Line 53: `features.every(f => f.isGenerated)`. */
  predicate AllFeaturesGenerated(features: seq<Feature>)
    decreases |features|
  {
    |features| == 0 || (features[0].isGenerated && AllFeaturesGenerated(features[1..]))
  }

  /** `every` holds exactly when each feature is generated, so an empty roadmap counts as done. */
  lemma {:induction false} AllFeaturesGeneratedIff(features: seq<Feature>)
    ensures AllFeaturesGenerated(features) <==> forall i :: 0 <= i < |features| ==> features[i].isGenerated
    decreases |features|
  {
    if |features| > 0 {
      AllFeaturesGeneratedIff(features[1..]);
      assert forall i :: 1 <= i < |features| ==> features[i] == features[1..][i - 1];
    }
  }

  /** The roadmap keeps its features, in order, and only the marked ones change. */
  lemma {:induction false} MarkGeneratedKeepsIds(features: seq<Feature>, id: string, flowchart: string)
    ensures Map((f: Feature) => f.id, MarkGenerated(features, id, flowchart)) == Map((f: Feature) => f.id, features)
  {
    var r := MarkGenerated(features, id, flowchart);
    var a, b := Map((f: Feature) => f.id, r), Map((f: Feature) => f.id, features);
    assert |a| == |b|;
    forall i | 0 <= i < |a|
      ensures a[i] == b[i]
    {
      assert a[i] == r[i].id;
    }
  }

  /** Generating the same diagram again changes nothing. */
  lemma {:induction false} MarkGeneratedIdempotent(features: seq<Feature>, id: string, flowchart: string)
    ensures var once := MarkGenerated(features, id, flowchart);
      MarkGenerated(once, id, flowchart) == once
  {
    var once := MarkGenerated(features, id, flowchart);
    var twice := MarkGenerated(once, id, flowchart);
    forall i | 0 <= i < |twice|
      ensures twice[i] == once[i]
    {
    }
  }

  /** Generated features stay generated, and generating the last missing one completes the roadmap. */
  lemma {:induction false} MarkGeneratedCompletes(features: seq<Feature>, id: string, flowchart: string)
    requires forall i :: 0 <= i < |features| ==> features[i].isGenerated || features[i].id == id
    ensures AllFeaturesGenerated(MarkGenerated(features, id, flowchart))
  {
    var r := MarkGenerated(features, id, flowchart);
    AllFeaturesGeneratedIff(r);
  }

  /** What a generation attempt ends with: the list handed to `onFeaturesUpdate`, if any, and the spinner's id. */
  datatype FeatureOutcome = FeatureOutcome(update: Option<seq<Feature>>, loadingFeatureId: Option<string>)

  /**
   * `handleGenerateFeatureFlowchart` (lines 24-39) for `feature`: on success
   * the roadmap is updated with the normalised diagram; on failure nothing
   * is handed up; the spinner is cleared either way.
   */
  function HandleGenerateFeatureFlowchart(features: seq<Feature>, feature: Feature, reply: Result<string>): (r: FeatureOutcome)
    ensures r.loadingFeatureId.None?
    ensures r.update.Some? <==> reply.Ok?
    ensures r.update.Some? ==> |r.update.value| == |features|
    ensures r.update.Some? ==> forall i :: 0 <= i < |features| ==>
      && r.update.value[i].isGenerated == (features[i].isGenerated || features[i].id == feature.id)
      && (features[i].id == feature.id ==> r.update.value[i].flowchart == Some(Normalize(reply.value)))
      && (features[i].id != feature.id ==> r.update.value[i] == features[i])
  {
    match GenerateFeatureFlowchart(reply)
    case Ok(flowchart) => FeatureOutcome(Some(MarkGenerated(features, feature.id, flowchart)), None)
    case Err(_) => FeatureOutcome(None, None)
  }

  /** Every diagram attached to a feature starts with a `flowchart` declaration. */
  lemma {:induction false} AttachedDiagramDeclared(features: seq<Feature>, feature: Feature, reply: Result<string>, i: nat)
    requires reply.Ok? && i < |features| && features[i].id == feature.id
    ensures var f := HandleGenerateFeatureFlowchart(features, feature, reply).update.value[i];
      f.flowchart.Some? && StartsWith(Split(f.flowchart.value, '\n')[0], Keyword)
  {
    NormalizeShape(reply.value);
  }

  /**
   * Line 92 disables a button only while its own feature is generating, so
   * two generations can overlap. Each computes its list from the `features`
   * of the render that started it (line 28), so the later one to finish
   * hands up a list without the earlier one's diagram, and the roadmap is
   * not complete although both succeeded.
   */
  lemma {:induction false} OverlapLosesDiagram(a: Feature, b: Feature, x: string, y: string)
    requires a.id != b.id && !a.isGenerated && !b.isGenerated
    ensures var first := HandleGenerateFeatureFlowchart([a, b], a, Ok(x)).update.value;
      var second := HandleGenerateFeatureFlowchart([a, b], b, Ok(y)).update.value;
      && first[0].isGenerated && first[0].flowchart == Some(Normalize(x))
      && second[0] == a && second[1].isGenerated
      && !AllFeaturesGenerated(second)
  {
  }

  /** What the final generation ends with: the diagram handed to `onFinalFlowchart`, if any, and the busy flag. */
  datatype FinalOutcome = FinalOutcome(delivered: Option<string>, isGeneratingFinal: bool)

  /** `handleGenerateFinalFlowchart` (lines 41-51): the callback fires only on success; the flag is reset either way. */
  function HandleGenerateFinalFlowchart(reply: Result<string>): (r: FinalOutcome)
    ensures r.delivered.Some? <==> reply.Ok?
    ensures !r.isGeneratingFinal
    ensures r.delivered.Some? ==> r.delivered.value == Normalize(reply.value)
  {
    match GenerateFinalAppFlowchart(reply)
    case Ok(flowchart) => FinalOutcome(Some(flowchart), false)
    case Err(_) => FinalOutcome(None, false)
  }

  /** The final diagram delivered has the shape every normalised diagram has. */
  lemma {:induction false} FinalDiagramShape(reply: Result<string>)
    requires reply.Ok?
    ensures DiagramShape(Split(HandleGenerateFinalFlowchart(reply).delivered.value, '\n'))
  {
    NormalizeShape(reply.value);
  }
}
