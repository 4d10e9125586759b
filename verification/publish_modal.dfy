/**
 * `src/components/PublishModal.tsx`: the simulated publishing run. A timer
 * advances the stage counter once per stage until every stage is done; the
 * timer is modelled as the `Tick` its callback performs.
 */
module PublishModal {
  import opened Seqs

  datatype Stage = Stage(title: string, duration: nat)

  /** Lines 11-17: the five stages and how long each one's timer waits, in milliseconds. */
  const Stages: seq<Stage> := [
    Stage("Validating build", 1500),
    Stage("Optimizing assets", 2000),
    Stage("Running tests", 1800),
    Stage("Preparing deployment", 1500),
    Stage("Publishing to store", 2200)
  ]

  /** Line 9: the run starts at stage 0. */
  const InitialStage: nat := 0

  /**
   * Lines 19-27: while some stage is left, its timer fires and moves to the
   * next; once the last stage is done no timer is set, so nothing moves.
   */
  function Tick(stage: nat): (r: nat)
    ensures stage < |Stages| ==> r == stage + 1
    ensures stage >= |Stages| ==> r == stage
  {
    if stage < |Stages| then stage + 1 else stage
  }

  /** Line 29. */
  predicate IsComplete(stage: nat) {
    stage == |Stages|
  }

  /** The stage after `k` timer callbacks. */
  function Ticks(stage: nat, k: nat): nat {
    if k == 0 then stage else Tick(Ticks(stage, k - 1))
  }

  /** The counter moves by one per tick and stops at the number of stages. */
  lemma {:induction false} TicksBounded(k: nat)
    ensures Ticks(InitialStage, k) == if k < |Stages| then k else |Stages|
    ensures Ticks(InitialStage, k) <= |Stages|
    ensures IsComplete(Ticks(InitialStage, k)) <==> k >= |Stages|
  {
    if k > 0 {
      TicksBounded(k - 1);
    }
  }

  /** A finished run stays finished. */
  lemma {:induction false} CompleteIsFinal(stage: nat, k: nat)
    requires IsComplete(stage)
    ensures Ticks(stage, k) == stage
  {
    if k > 0 {
      CompleteIsFinal(stage, k - 1);
    }
  }

  /** Lines 62-63: how one row of the list is drawn. */
  datatype Row = Done | Current | Waiting

  function RowStatus(stage: nat, index: nat): (r: Row)
    ensures r == Done <==> index < stage
    ensures r == Current <==> index == stage
  {
    if index < stage then Done else if index == stage then Current else Waiting
  }

  /** The rows from position `from` to the last stage. */
  function RowsFrom(stage: nat, from: nat): (r: seq<Row>)
    ensures |r| == if from < |Stages| then |Stages| - from else 0
    decreases |Stages| - from
  {
    if from >= |Stages| then [] else [RowStatus(stage, from)] + RowsFrom(stage, from + 1)
  }

  /** Every row of the list, in order. */
  function Rows(stage: nat): seq<Row> {
    RowsFrom(stage, 0)
  }

  predicate IsDone(r: Row) { r == Done }
  predicate IsCurrent(r: Row) { r == Current }

  lemma {:induction false} DoneFromCount(stage: nat, from: nat)
    requires from <= |Stages|
    ensures Count(IsDone, RowsFrom(stage, from)) == if stage <= from then 0 else if stage < |Stages| then stage - from else |Stages| - from
    decreases |Stages| - from
  {
    if from < |Stages| {
      DoneFromCount(stage, from + 1);
    }
  }

  /** As many rows are done as stages have passed. */
  lemma {:induction false} DoneCountIsStage(stage: nat)
    requires stage <= |Stages|
    ensures Count(IsDone, Rows(stage)) == stage
  {
    DoneFromCount(stage, 0);
  }

  lemma {:induction false} CurrentFromCount(stage: nat, from: nat)
    requires from <= |Stages|
    ensures Count(IsCurrent, RowsFrom(stage, from)) == if from <= stage < |Stages| then 1 else 0
    decreases |Stages| - from
  {
    if from < |Stages| {
      CurrentFromCount(stage, from + 1);
    }
  }

  /** While running exactly one row is current; once complete, none is. */
  lemma {:induction false} OneCurrentRow(stage: nat)
    requires stage <= |Stages|
    ensures Count(IsCurrent, Rows(stage)) == if IsComplete(stage) then 0 else 1
  {
    CurrentFromCount(stage, 0);
  }

  /** The time the timers wait before the run reaches `stage`, in milliseconds. */
  function Elapsed(stage: nat): nat
    requires stage <= |Stages|
  {
    if stage == 0 then 0 else Elapsed(stage - 1) + Stages[stage - 1].duration
  }

  /** The timers take nine seconds in all, and every stage adds its own wait. */
  lemma {:induction false} ElapsedTotal()
    ensures Elapsed(|Stages|) == 9000
    ensures forall k :: 0 < k <= |Stages| ==> Elapsed(k) > Elapsed(k - 1)
  {
    assert Elapsed(1) == 1500;
    assert Elapsed(2) == 3500;
    assert Elapsed(3) == 5300;
    assert Elapsed(4) == 6800;
  }
}
