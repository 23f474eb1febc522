/**
 * Level progression: a level sequence spawns its current stage once, and
 * each frame with next-level requests advances every sequence by one stage
 * and spawns the stage it lands on, on top of what is already there. Every
 * stage spawn is paired with a collider request for that stage's layout.
 */
module LevelProgression {
  import opened Grid
  import opened Components
  import opened EcsWorld

  /** The stage actually used for an index: the index held inside the stage buffer. */
  function StageIndex(currentIndex: int, count: int): (r: int)
    requires count > 0
    ensures 0 <= r < count
    ensures 0 <= currentIndex < count ==> r == currentIndex
    ensures currentIndex >= count ==> r == count - 1
    ensures currentIndex < 0 ==> r == 0
  {
    Clamp(currentIndex, 0, count - 1)
  }

  /** The holder entity a stage spawn creates: the stage's spawner, at count 0, and its cells in order. */
  function HolderFor(entry: StageEntry): Holder
  {
    Holder(Some(CubeLayoutSpawner(entry.prefab, entry.origin, entry.cellSize, entry.spawnPerFrame, 0, entry.removeOnComplete)),
           entry.cells)
  }

  function ColliderRequestFor(entry: StageEntry): GenerateCollidersRequest
  {
    GenerateCollidersRequest(entry.cells, entry.colliderType, entry.mergeMode, 0)
  }

  /** The stage a sequence spawns on its first frame, unless it has started or has no stages. */
  function InitialStage(q: LevelSequence): Option<StageEntry>
  {
    if q.started != 0 || |q.stages| == 0 then None
    else Some(q.stages[StageIndex(q.currentIndex, |q.stages|)])
  }

  /** The sequence after its first frame: marked started when it spawned. */
  function Started(q: LevelSequence): LevelSequence
  {
    if q.started != 0 || |q.stages| == 0 then q else q.(started := 1)
  }

  /**
   * The index step as the source computes it: 32-bit `oldIndex + 1`, which
   * wraps, then the minimum with int.MaxValue, which cannot undo the wrap.
   */
  function NextIndexAsWritten(i: int): int
  {
    Min(Wrap32(i + 1), IntMax)
  }

  /** The index step as intended: one more, saturating at int.MaxValue. */
  function NextIndex(i: int): int
  {
    Min(i + 1, IntMax)
  }

  /** The sequence after a frame with next-level requests: its index advanced once. */
  function Advance(q: LevelSequence): LevelSequence
  {
    q.(currentIndex := NextIndex(q.currentIndex))
  }

  /** The stage an advanced sequence spawns, unless it has no stages. */
  function NextStage(q: LevelSequence): Option<StageEntry>
  {
    if |q.stages| == 0 then None else Some(q.stages[StageIndex(q.currentIndex, |q.stages|)])
  }

  function AsSeq(o: Option<StageEntry>): seq<StageEntry>
  {
    if o.Some? then [o.value] else []
  }

  /** The stages spawned by the first pass, in query order. */
  function InitialStages(qs: seq<LevelSequence>): seq<StageEntry>
  {
    if |qs| == 0 then [] else InitialStages(qs[..|qs| - 1]) + AsSeq(InitialStage(qs[|qs| - 1]))
  }

  /** The stages spawned by the next-level pass, in query order. */
  function NextStages(qs: seq<LevelSequence>): seq<StageEntry>
  {
    if |qs| == 0 then [] else NextStages(qs[..|qs| - 1]) + AsSeq(NextStage(Advance(qs[|qs| - 1])))
  }

  function StartedAll(qs: seq<LevelSequence>): (r: seq<LevelSequence>)
    ensures |r| == |qs| && forall k :: 0 <= k < |qs| ==> r[k] == Started(qs[k])
  {
    seq(|qs|, k requires 0 <= k < |qs| => Started(qs[k]))
  }

  function AdvanceAll(qs: seq<LevelSequence>): (r: seq<LevelSequence>)
    ensures |r| == |qs| && forall k :: 0 <= k < |qs| ==> r[k] == Advance(qs[k])
  {
    seq(|qs|, k requires 0 <= k < |qs| => Advance(qs[k]))
  }

  function Creations(stages: seq<StageEntry>): (r: seq<Command>)
    ensures |r| == |stages| && forall k :: 0 <= k < |stages| ==> r[k] == CreateHolder(HolderFor(stages[k]))
  {
    seq(|stages|, k requires 0 <= k < |stages| => CreateHolder(HolderFor(stages[k])))
  }

  function Requests(stages: seq<StageEntry>): (r: seq<GenerateCollidersRequest>)
    ensures |r| == |stages| && forall k :: 0 <= k < |stages| ==> r[k] == ColliderRequestFor(stages[k])
  {
    seq(|stages|, k requires 0 <= k < |stages| => ColliderRequestFor(stages[k]))
  }

  /** A spawned holder starts at count 0 and carries the stage's cells, in order. */
  lemma HolderCopiesStage(entry: StageEntry)
    ensures HolderFor(entry).cells == entry.cells
    ensures HolderFor(entry).spawner.Some? && HolderFor(entry).spawner.value.spawnedCount == 0
    ensures HolderFor(entry).spawner.value.spawnPerFrame == entry.spawnPerFrame
  {
  }

  /**
   * The initial stage spawns once per sequence: after the first pass no
   * sequence has an initial stage left to spawn.
   */
  lemma {:induction false} InitialSpawnOnce(qs: seq<LevelSequence>)
    ensures InitialStages(StartedAll(qs)) == []
  {
    if |qs| > 0 {
      assert StartedAll(qs)[..|qs| - 1] == StartedAll(qs[..|qs| - 1]);
      InitialSpawnOnce(qs[..|qs| - 1]);
    }
  }

  /** A sequence spawns one stage when it has stages and none otherwise. */
  lemma OneStagePerSequence(q: LevelSequence)
    ensures |AsSeq(NextStage(Advance(q)))| == if |q.stages| > 0 then 1 else 0
  {
  }

  /** The positions of the sequences that have stages. */
  function WithStages(qs: seq<LevelSequence>): set<int>
  {
    set k | 0 <= k < |qs| && |qs[k].stages| > 0
  }

  /** The last sequence adds its own position, when it has stages, to those of the ones before it. */
  lemma WithStagesStep(qs: seq<LevelSequence>)
    requires |qs| > 0
    ensures var n := |qs| - 1;
      && n !in WithStages(qs[..n])
      && WithStages(qs) == WithStages(qs[..n]) + (if |qs[n].stages| > 0 then {n} else {})
  {
    var n := |qs| - 1;
    forall k | 0 <= k < n
      ensures qs[..n][k] == qs[k]
    {
    }
  }

  /** Every sequence that has stages spawns exactly one stage per frame with requests. */
  lemma {:induction false} NextStagesCount(qs: seq<LevelSequence>)
    ensures |NextStages(qs)| == |WithStages(qs)|
  {
    if |qs| > 0 {
      var n := |qs| - 1;
      NextStagesCount(qs[..n]);
      OneStagePerSequence(qs[n]);
      WithStagesStep(qs);
    }
  }

  /**
   * With requests, an index below int.MaxValue moves to the next stage; at
   * or past the last stage the last stage is spawned again.
   */
  lemma AdvanceStage(q: LevelSequence)
    requires |q.stages| > 0 && IsInt32(q.currentIndex)
    ensures IsInt32(Advance(q).currentIndex)
    ensures q.currentIndex < IntMax ==> Advance(q).currentIndex == q.currentIndex + 1
    ensures 0 <= q.currentIndex < |q.stages| - 1 && q.currentIndex < IntMax ==> NextStage(Advance(q)) == Some(q.stages[q.currentIndex + 1])
    ensures q.currentIndex >= |q.stages| - 1 ==> NextStage(Advance(q)) == Some(q.stages[|q.stages| - 1])
  {
  }

  /**
   * The intended step never moves a sequence back: the index and the stage
   * it selects never decrease, and int.MaxValue stays put.
   */
  lemma NextIndexMonotone(i: int, count: int)
    requires IsInt32(i) && count > 0
    ensures IsInt32(NextIndex(i)) && NextIndex(i) >= i
    ensures i == IntMax ==> NextIndex(i) == IntMax
    ensures StageIndex(NextIndex(i), count) >= StageIndex(i, count)
  {
  }

  /**
   * As written, the step at int.MaxValue wraps to int.MinValue, so a sequence
   * of two or more stages that sat on its last stage spawns stage 0 again.
   */
  lemma NextIndexAsWrittenWraps(count: int)
    requires 2 <= count <= IntMax
    ensures NextIndexAsWritten(IntMax) == IntMin
    ensures StageIndex(IntMax, count) == count - 1
    ensures StageIndex(NextIndexAsWritten(IntMax), count) == 0
  {
    assert Wrap32(IntMax + 1) == IntMin;
  }

  /** Below int.MaxValue the written and the intended step agree. */
  lemma NextIndexAgrees(i: int)
    requires IntMin <= i < IntMax
    ensures NextIndexAsWritten(i) == NextIndex(i)
  {
    assert (i + 1 - IntMin) % 0x1_0000_0000 == i + 1 - IntMin;
  }

  lemma InitialStagesStep(q0: seq<LevelSequence>, i: int)
    requires 0 <= i < |q0|
    ensures InitialStages(q0[..i + 1]) == InitialStages(q0[..i]) + AsSeq(InitialStage(q0[i]))
  {
    assert q0[..i + 1][..i] == q0[..i];
  }

  lemma NextStagesStep(q1: seq<LevelSequence>, i: int)
    requires 0 <= i < |q1|
    ensures NextStages(q1[..i + 1]) == NextStages(q1[..i]) + AsSeq(NextStage(Advance(q1[i])))
  {
    assert q1[..i + 1][..i] == q1[..i];
  }

  lemma RecordSpawn(stages: seq<StageEntry>, entry: StageEntry)
    ensures Creations(stages + [entry]) == Creations(stages) + [CreateHolder(HolderFor(entry))]
    ensures Requests(stages + [entry]) == Requests(stages) + [ColliderRequestFor(entry)]
  {
  }

  /**
   * The first pass: every sequence that has not started and has stages spawns
   * its clamped current stage and is marked started.
   */
  method SpawnInitialStages(q0: seq<LevelSequence>)
    returns (qs: seq<LevelSequence>, ghost spawned: seq<StageEntry>, ecb: seq<Command>, reqs: seq<GenerateCollidersRequest>)
    ensures qs == StartedAll(q0) && spawned == InitialStages(q0)
    ensures ecb == Creations(spawned) && reqs == Requests(spawned)
  {
    qs := q0;
    spawned, ecb, reqs := [], [], [];
    var i := 0;
    while i < |qs|
      invariant 0 <= i <= |qs| == |q0|
      invariant forall k :: 0 <= k < i ==> qs[k] == Started(q0[k])
      invariant forall k :: i <= k < |qs| ==> qs[k] == q0[k]
      invariant spawned == InitialStages(q0[..i])
      invariant ecb == Creations(spawned) && reqs == Requests(spawned)
    {
      InitialStagesStep(q0, i);
      var q := qs[i];
      if q.started == 0 && |q.stages| > 0 {
        var entry := q.stages[Clamp(q.currentIndex, 0, |q.stages| - 1)];
        RecordSpawn(spawned, entry);
        ecb := ecb + [CreateHolder(HolderFor(entry))];
        qs := qs[i := q.(started := 1)];
        reqs := reqs + [ColliderRequestFor(entry)];
        spawned := spawned + [entry];
      }
      i := i + 1;
    }
    assert q0[..i] == q0;
    assert qs == StartedAll(q0);
  }

  /**
   * The next-level pass: every sequence's index steps once, and every
   * sequence with stages spawns the clamped stage it lands on.
   */
  method SpawnNextStages(q1: seq<LevelSequence>, ghost before: seq<StageEntry>, ecb0: seq<Command>, reqs0: seq<GenerateCollidersRequest>)
    returns (qs: seq<LevelSequence>, ghost spawned: seq<StageEntry>, ecb: seq<Command>, reqs: seq<GenerateCollidersRequest>)
    requires ecb0 == Creations(before) && reqs0 == Requests(before)
    ensures qs == AdvanceAll(q1) && spawned == before + NextStages(q1)
    ensures ecb == Creations(spawned) && reqs == Requests(spawned)
  {
    qs := q1;
    spawned, ecb, reqs := before, ecb0, reqs0;
    var i := 0;
    while i < |qs|
      invariant 0 <= i <= |qs| == |q1|
      invariant forall k :: 0 <= k < i ==> qs[k] == Advance(q1[k])
      invariant forall k :: i <= k < |qs| ==> qs[k] == q1[k]
      invariant spawned == before + NextStages(q1[..i])
      invariant ecb == Creations(spawned) && reqs == Requests(spawned)
    {
      NextStagesStep(q1, i);
      var q := qs[i];
      var oldIndex := q.currentIndex;
      q := q.(currentIndex := Min(oldIndex + 1, IntMax));
      qs := qs[i := q];
      if |q.stages| > 0 {
        var entry := q.stages[Clamp(q.currentIndex, 0, |q.stages| - 1)];
        RecordSpawn(spawned, entry);
        ecb := ecb + [CreateHolder(HolderFor(entry))];
        reqs := reqs + [ColliderRequestFor(entry)];
        spawned := spawned + [entry];
      }
      i := i + 1;
    }
    assert q1[..i] == q1;
    assert qs == AdvanceAll(q1);
  }

  /**
   * The system update. `nextRequests` is the number of NextLevelRequest
   * entities present; all of them are consumed, and they advance every
   * sequence by one stage however many there are. The holders are created
   * through the command buffer; the collider requests are returned, one per
   * spawned stage and in the same order.
   */
  method Update(world: World, nextRequests: nat) returns (colliderRequests: seq<GenerateCollidersRequest>)
    requires world.Valid()
    modifies world`sequences, world`blocks, world`holders, world`nextId
    ensures world.Valid()
    ensures var q1 := StartedAll(old(world.sequences));
      && world.sequences == (if nextRequests > 0 then AdvanceAll(q1) else q1)
      && var spawned := InitialStages(old(world.sequences)) + (if nextRequests > 0 then NextStages(q1) else []);
         && world.State() == ApplyAll(old(world.State()), Creations(spawned))
         && colliderRequests == Requests(spawned)
  {
    var qs, spawned, ecb, reqs := SpawnInitialStages(world.sequences);
    if nextRequests > 0 {
      qs, spawned, ecb, reqs := SpawnNextStages(qs, spawned, ecb, reqs);
    } else {
      assert spawned == spawned + [];
    }
    world.sequences := qs;
    colliderRequests := reqs;
    world.Playback(ecb);
  }
}
