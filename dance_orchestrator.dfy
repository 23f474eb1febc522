/**
 * The world-dance orchestrator. A single-stage start dismantles one stage at
 * once; a sequence start creates a cursor that dances stages `current..end`
 * one per interval, asking for free flight when it reaches the last one.
 * Dancing a stage enrols every cube of that stage as a participant, numbered
 * in query order, and replaces the dance-wide state.
 *
 * All structural changes go through a command buffer played back at the end
 * of the update, so every query in the update sees the world as it was when
 * the update began. In particular the clear of the dance state destroys the
 * states that existed then (the query is captured at recording), and the
 * sequences created by this update's starts only progress from the next one.
 */
module WorldDanceOrchestrator {
  import opened Grid
  import opened Components
  import opened EcsWorld

  /** The participant filter: cubes tagged with `stage`. */
  function OfStage(stage: int): Block -> bool
  {
    (b: Block) => b.stage == Some(stage)
  }

  /** The cubes of `stage`, in query order. */
  function Participants(blocks: map<Entity, Block>, n: nat, stage: int): seq<Entity>
  {
    Select(blocks, n, OfStage(stage))
  }

  /** The dismantle seed of participant `i`: the unsigned 32-bit product 0x9E3779B1 * (i + 1). */
  function Seed(i: int): (r: int)
    ensures 0 <= r < 0x1_0000_0000
  {
    (0x9E3779B1 * ((i + 1) % 0x1_0000_0000)) % 0x1_0000_0000
  }

  /**
   * Participant `i` of a dance starting at `now`: it gets its index, a
   * one-second dismantle from its current position, and loses its collider.
   */
  function Enroll(b: Block, i: int, now: real): (r: Block)
    ensures r.danceIndex == Some(i) && !r.colliderProxy
    ensures r.dismantle.Some? && r.dismantle.value.basePosition == b.cell && r.dismantle.value.startTime == now
    ensures r.(danceIndex := b.danceIndex, dismantle := b.dismantle, colliderProxy := b.colliderProxy) == b
  {
    b.(danceIndex := Some(i), dismantle := Some(DanceDismantle(now, 1.0, 1.0, 0.0, Seed(i), b.cell)), colliderProxy := false)
  }

  /** Enrols `es[i]` as participant `i`, for every `i`. */
  function EnrollAll(blocks: map<Entity, Block>, es: seq<Entity>, now: real): (r: map<Entity, Block>)
    ensures r.Keys == blocks.Keys
    decreases |es|
  {
    if es == [] then blocks
    else
      var n := |es| - 1;
      var prev := EnrollAll(blocks, es[..n], now);
      if es[n] in blocks then prev[es[n] := Enroll(blocks[es[n]], n, now)] else prev
  }

  /** Over a list without repeats, participant `i` is enrolled with index `i` and nobody else changes. */
  lemma {:induction false} EnrollAllSpec(blocks: map<Entity, Block>, es: seq<Entity>, now: real)
    requires StrictlyIncreasing(es)
    ensures forall i :: 0 <= i < |es| && es[i] in blocks ==> EnrollAll(blocks, es, now)[es[i]] == Enroll(blocks[es[i]], i, now)
    ensures forall e :: e in blocks && e !in es ==> EnrollAll(blocks, es, now)[e] == blocks[e]
    decreases |es|
  {
    if es != [] {
      var n := |es| - 1;
      var pre := es[..n];
      assert StrictlyIncreasing(pre) by {
        forall i, j | 0 <= i < j < |pre| ensures pre[i] < pre[j] {
          assert pre[i] == es[i] && pre[j] == es[j];
        }
      }
      EnrollAllSpec(blocks, pre, now);
      var r := EnrollAll(blocks, es, now);
      forall i | 0 <= i < |es| && es[i] in blocks
        ensures r[es[i]] == Enroll(blocks[es[i]], i, now)
      {
        if i < n {
          assert pre[i] == es[i] && es[i] < es[n];
        }
      }
      assert forall e :: e !in es ==> e !in pre;
    }
  }

  /**
   * Dancing a stage with participants numbers exactly the cubes of that stage:
   * each gets a dance index below the participant count, no two share one, and
   * every other cube is left as it was.
   */
  lemma EnlistNumbersStage(blocks: map<Entity, Block>, n: nat, stage: int, now: real)
    requires forall e :: e in blocks ==> e < n
    ensures var es := Participants(blocks, n, stage);
      var r := EnrollAll(blocks, es, now);
      && (forall e :: e in blocks && blocks[e].stage == Some(stage) ==>
            r[e].danceIndex.Some? && 0 <= r[e].danceIndex.value < |es| && r[e].dismantle.Some?)
      && (forall e1, e2 ::
            (e1 in blocks && e2 in blocks && blocks[e1].stage == Some(stage) && blocks[e2].stage == Some(stage) && e1 != e2)
            ==> r[e1].danceIndex != r[e2].danceIndex)
      && (forall e :: e in blocks && blocks[e].stage != Some(stage) ==> r[e] == blocks[e])
  {
    var es := Participants(blocks, n, stage);
    SelectSpec(blocks, n, OfStage(stage));
    EnrollAllSpec(blocks, es, now);
    var r := EnrollAll(blocks, es, now);
    forall e | e in blocks && blocks[e].stage == Some(stage)
      ensures exists i :: 0 <= i < |es| && es[i] == e && r[e].danceIndex == Some(i)
    {
      assert OfStage(stage)(blocks[e]);
      var i :| 0 <= i < |es| && es[i] == e;
    }
    forall e1, e2 | e1 in blocks && e2 in blocks && blocks[e1].stage == Some(stage) && blocks[e2].stage == Some(stage) && e1 != e2
      ensures r[e1].danceIndex != r[e2].danceIndex
    {
      var i1 :| 0 <= i1 < |es| && es[i1] == e1 && r[e1].danceIndex == Some(i1);
      var i2 :| 0 <= i2 < |es| && es[i2] == e2 && r[e2].danceIndex == Some(i2);
    }
  }

  /** The dance-wide state for a stage dance starting at `now`, in the dismantle phase. */
  function NewDanceState(stage: int, now: real, settings: Option<WorldDanceSettings>, count: int): (r: WorldDanceState)
    ensures r.stageIndex == stage && r.phase == 1 && r.phaseStartTime == now && r.totalParticipants == count
    ensures settings.None? ==> r.gatherHeight == 50.0 && r.planetRadius == 20.0
  {
    match settings
    case None => WorldDanceState(stage, 1, now, 50.0, 20.0, count)
    case Some(s) => WorldDanceState(stage, 1, now, s.gatherHeight, s.planetRadius, count)
  }

  /** The number of stages in the level sequence, or 0 without exactly one sequence. */
  function TotalStages(sequences: seq<LevelSequence>): nat
  {
    if |sequences| == 1 then |sequences[0].stages| else 0
  }

  /** A new sequence cursor for a start event raised at `now`. */
  function NewSequence(start: WorldDanceSequenceStart, totalStages: int, now: real): (r: WorldDanceSequenceState)
    ensures r.current == Max(0, start.startIndex) && r.current >= 0
    ensures start.endIndex >= 0 ==> r.end == start.endIndex
    ensures start.endIndex < 0 ==> r.end == Max(0, totalStages - 1)
    ensures r.interval >= 0.01 && (start.intervalSeconds >= 0.01 ==> r.interval == start.intervalSeconds)
    ensures r.nextTime == now && r.totalStages == totalStages
  {
    var end := if start.endIndex >= 0 then start.endIndex else Max(0, totalStages - 1);
    WorldDanceSequenceState(Max(0, start.startIndex), end, MaxReal(0.01, start.intervalSeconds), now, totalStages)
  }

  /** The cursors created for the pending sequence starts, in query order. */
  function NewSequences(starts: seq<WorldDanceSequenceStart>, totalStages: int, now: real): (r: seq<WorldDanceSequenceState>)
    ensures |r| == |starts| && forall k :: 0 <= k < |starts| ==> r[k] == NewSequence(starts[k], totalStages, now)
  {
    seq(|starts|, k requires 0 <= k < |starts| => NewSequence(starts[k], totalStages, now))
  }

  /** What one update does to one sequence cursor. */
  datatype SeqOutcome = SeqOutcome(next: Option<WorldDanceSequenceState>, fired: Option<int>, freeFly: bool)

  /**
   * One update of a sequence cursor at time `now`: before its next time it
   * waits; past its last stage it ends; otherwise it dances its current stage,
   * moves on by one and waits one interval, asking for free flight on the last
   * stage.
   */
  function SeqStep(s: WorldDanceSequenceState, now: real): (r: SeqOutcome)
    ensures now < s.nextTime ==> r == SeqOutcome(Some(s), None, false)
    ensures now >= s.nextTime && s.current > s.end ==> r.next.None? && r.fired.None? && !r.freeFly
    ensures now >= s.nextTime && s.current <= s.end ==>
      && r.fired == Some(s.current)
      && r.next == Some(s.(current := s.current + 1, nextTime := now + s.interval))
      && (r.freeFly <==> s.current == s.end)
  {
    if now < s.nextTime then SeqOutcome(Some(s), None, false)
    else if s.current > s.end then SeqOutcome(None, None, false)
    else SeqOutcome(Some(s.(current := s.current + 1, nextTime := now + s.interval)), Some(s.current), s.current == s.end)
  }

  /** What a cursor produces over a run of updates at the given times. */
  datatype SeqRun = SeqRun(fired: seq<int>, freeFly: nat, last: Option<WorldDanceSequenceState>)

  function RunSequence(s: Option<WorldDanceSequenceState>, times: seq<real>): SeqRun
    decreases |times|
  {
    if times == [] || s.None? then SeqRun([], 0, s)
    else
      var o := SeqStep(s.value, times[0]);
      var rest := RunSequence(o.next, times[1..]);
      SeqRun((if o.fired.Some? then [o.fired.value] else []) + rest.fired,
             (if o.freeFly then 1 else 0) + rest.freeFly, rest.last)
  }

  /** The consecutive stages `a`, `a + 1`, ..., `b - 1`. */
  function Range(a: int, b: int): (r: seq<int>)
    ensures |r| == Max(0, b - a) && forall i :: 0 <= i < |r| ==> r[i] == a + i
  {
    if b <= a then [] else seq(b - a, i => a + i)
  }

  /**
   * Whatever the update times, a cursor dances consecutive stages from its
   * current one, never past its last, each once and in increasing order; it
   * asks for free flight once, exactly when it has danced its last stage; and
   * a cursor still alive points just after the stages it danced.
   */
  lemma {:induction false} SequenceInOrder(s: WorldDanceSequenceState, times: seq<real>)
    ensures var r := RunSequence(Some(s), times);
      && r.fired == Range(s.current, s.current + |r.fired|)
      && s.current + |r.fired| <= Max(s.current, s.end + 1)
      && r.freeFly == (if s.current <= s.end && s.current + |r.fired| == s.end + 1 then 1 else 0)
      && (r.last.Some? ==> r.last.value.current == s.current + |r.fired| && r.last.value.end == s.end)
    decreases |times|
  {
    if times != [] {
      var o := SeqStep(s, times[0]);
      var r := RunSequence(Some(s), times);
      var rest := RunSequence(o.next, times[1..]);
      if o.next.Some? {
        SequenceInOrder(o.next.value, times[1..]);
      }
      if o.fired.Some? {
        assert r.fired == [s.current] + rest.fired;
      }
    }
  }

  /** A cursor that is due and not finished dances its stage in every update, so it ends after its last stage. */
  lemma {:induction false} SequenceFinishes(s: WorldDanceSequenceState, times: seq<real>)
    requires s.current <= s.end + 1 && |times| == s.end + 2 - s.current
    requires times[0] >= s.nextTime
    requires forall k :: 0 <= k < |times| - 1 ==> times[k + 1] >= times[k] + s.interval
    ensures var r := RunSequence(Some(s), times);
      && r.fired == Range(s.current, s.end + 1) && r.last.None?
      && r.freeFly == (if s.current <= s.end then 1 else 0)
    decreases |times|
  {
    var o := SeqStep(s, times[0]);
    if s.current <= s.end {
      var t := o.next.value;
      SequenceFinishes(t, times[1..]);
      assert RunSequence(Some(s), times).fired == [s.current] + RunSequence(o.next, times[1..]).fired;
    } else {
      assert RunSequence(o.next, times[1..]) == SeqRun([], 0, None);
    }
  }

  /** The effects of one update collected so far. */
  datatype Acc = Acc(blocks: map<Entity, Block>, created: seq<WorldDanceState>, freeFly: nat, destroyRequests: seq<int>)

  /** What dancing one stage does: the enrolled cubes and the new dance state, when the stage has cubes. */
  datatype Danced = Danced(blocks: map<Entity, Block>, state: Option<WorldDanceState>)

  function DanceOf(blocks: map<Entity, Block>, n: nat, target: int, now: real, settings: Option<WorldDanceSettings>): Danced
  {
    var es := Participants(blocks, n, target);
    if |es| == 0 then Danced(blocks, None)
    else Danced(EnrollAll(blocks, es, now), Some(NewDanceState(target, now, settings, |es|)))
  }

  /** A single-stage start: dance `target` at once, with free flight when it is the last stage. */
  function StartStage(a: Acc, n: nat, target: int, now: real, settings: Option<WorldDanceSettings>, totalStages: nat): Acc
  {
    var d := DanceOf(a.blocks, n, target, now, settings);
    if d.state.None? then a
    else Acc(d.blocks, a.created + [d.state.value],
             a.freeFly + (if totalStages > 0 && target == totalStages - 1 then 1 else 0), a.destroyRequests)
  }

  /** A sequence step: dance `target` and ask for its static colliders to go. */
  function TriggerStage(a: Acc, n: nat, target: int, now: real, settings: Option<WorldDanceSettings>): Acc
  {
    var d := DanceOf(a.blocks, n, target, now, settings);
    if d.state.None? then a
    else Acc(d.blocks, a.created + [d.state.value], a.freeFly, a.destroyRequests + [target])
  }

  /** The single-stage starts, handled in order. */
  function StartPass(a: Acc, n: nat, starts: seq<int>, now: real, settings: Option<WorldDanceSettings>, totalStages: nat): Acc
    decreases |starts|
  {
    if starts == [] then a
    else
      var m := |starts| - 1;
      StartStage(StartPass(a, n, starts[..m], now, settings, totalStages), n, starts[m], now, settings, totalStages)
  }

  /** The effects so far and the cursors that survive, in query order. */
  datatype Progressed = Progressed(acc: Acc, kept: seq<WorldDanceSequenceState>)

  /** One cursor's update folded into the effects. */
  function ProgressOne(p: Progressed, n: nat, s: WorldDanceSequenceState, now: real, settings: Option<WorldDanceSettings>): Progressed
  {
    var o := SeqStep(s, now);
    var a := if o.fired.Some? then TriggerStage(p.acc, n, o.fired.value, now, settings) else p.acc;
    Progressed(a.(freeFly := a.freeFly + (if o.freeFly then 1 else 0)),
               p.kept + (if o.next.Some? then [o.next.value] else []))
  }

  /** The running cursors, handled in order. */
  function ProgressPass(p: Progressed, n: nat, seqs: seq<WorldDanceSequenceState>, now: real, settings: Option<WorldDanceSettings>): Progressed
    decreases |seqs|
  {
    if seqs == [] then p
    else
      var m := |seqs| - 1;
      ProgressOne(ProgressPass(p, n, seqs[..m], now, settings), n, seqs[m], now, settings)
  }

  /** Every recorded dance state was created by a stage dance with participants, so a clear happened with it. */
  predicate CreatedOnlyByDance(a: Acc)
  {
    forall k :: 0 <= k < |a.created| ==> a.created[k].totalParticipants > 0 && a.created[k].phase == 1
  }

  /** One single-stage start records at most one dance state, created by a dance with participants. */
  lemma StartStageCreates(a: Acc, n: nat, target: int, now: real, settings: Option<WorldDanceSettings>, totalStages: nat)
    requires CreatedOnlyByDance(a)
    ensures var r := StartStage(a, n, target, now, settings, totalStages);
      CreatedOnlyByDance(r) && |a.created| <= |r.created| <= |a.created| + 1 && r.created[..|a.created|] == a.created
  {
    var r := StartStage(a, n, target, now, settings, totalStages);
    assert r.created[..|a.created|] == a.created;
  }

  /** One cursor step records at most one dance state, created by a dance with participants, and keeps at most one cursor. */
  lemma ProgressOneCreates(p: Progressed, n: nat, s: WorldDanceSequenceState, now: real, settings: Option<WorldDanceSettings>)
    requires CreatedOnlyByDance(p.acc)
    ensures var r := ProgressOne(p, n, s, now, settings);
      && CreatedOnlyByDance(r.acc) && |p.acc.created| <= |r.acc.created| <= |p.acc.created| + 1
      && r.acc.created[..|p.acc.created|] == p.acc.created
      && |r.kept| <= |p.kept| + 1
  {
    var r := ProgressOne(p, n, s, now, settings);
    assert r.acc.created[..|p.acc.created|] == p.acc.created;
  }

  lemma {:induction false} StartPassCreates(a: Acc, n: nat, starts: seq<int>, now: real, settings: Option<WorldDanceSettings>, totalStages: nat)
    requires CreatedOnlyByDance(a)
    ensures var r := StartPass(a, n, starts, now, settings, totalStages);
      CreatedOnlyByDance(r) && |a.created| <= |r.created| <= |a.created| + |starts| && r.created[..|a.created|] == a.created
    decreases |starts|
  {
    if starts != [] {
      var m := |starts| - 1;
      StartPassCreates(a, n, starts[..m], now, settings, totalStages);
      var prev := StartPass(a, n, starts[..m], now, settings, totalStages);
      StartStageCreates(prev, n, starts[m], now, settings, totalStages);
      var r := StartPass(a, n, starts, now, settings, totalStages);
      assert r == StartStage(prev, n, starts[m], now, settings, totalStages);
      assert r.created[..|a.created|] == prev.created[..|a.created|];
    }
  }

  lemma {:induction false} ProgressPassCreates(p: Progressed, n: nat, seqs: seq<WorldDanceSequenceState>, now: real, settings: Option<WorldDanceSettings>)
    requires CreatedOnlyByDance(p.acc)
    ensures var r := ProgressPass(p, n, seqs, now, settings);
      CreatedOnlyByDance(r.acc) && |p.acc.created| <= |r.acc.created| <= |p.acc.created| + |seqs|
      && r.acc.created[..|p.acc.created|] == p.acc.created
      && |r.kept| <= |p.kept| + |seqs|
    decreases |seqs|
  {
    if seqs != [] {
      var m := |seqs| - 1;
      ProgressPassCreates(p, n, seqs[..m], now, settings);
      var prev := ProgressPass(p, n, seqs[..m], now, settings);
      ProgressOneCreates(prev, n, seqs[m], now, settings);
      var r := ProgressPass(p, n, seqs, now, settings);
      assert r == ProgressOne(prev, n, seqs[m], now, settings);
      assert r.acc.created[..|p.acc.created|] == prev.acc.created[..|p.acc.created|];
    }
  }

  /** The dance states after an update: the ones it created, or the old ones when it danced nothing. */
  function StatesAfter(old_: seq<WorldDanceState>, created: seq<WorldDanceState>): seq<WorldDanceState>
  {
    if |created| > 0 then created else old_
  }

  /** Enrols `es[i]` as participant `i` in place, for every `i`. */
  method Enlist(world: World, es: seq<Entity>, now: real)
    requires world.Valid()
    modifies world`blocks
    ensures world.Valid() && world.blocks == EnrollAll(old(world.blocks), es, now)
  {
    var b0 := world.blocks;
    var i := 0;
    while i < |es|
      invariant 0 <= i <= |es|
      invariant world.Valid() && world.blocks == EnrollAll(b0, es[..i], now)
    {
      assert es[..i + 1][..i] == es[..i];
      var e := es[i];
      if e in world.blocks {
        world.blocks := world.blocks[e := Enroll(b0[e], i, now)];
      }
      i := i + 1;
    }
    assert es[..i] == es;
  }

  /**
   * Dances one stage: without participants nothing happens; otherwise the
   * participants are enrolled and the new dance state is returned.
   */
  method DanceStage(world: World, target: int, now: real, settings: Option<WorldDanceSettings>)
    returns (state: Option<WorldDanceState>)
    requires world.Valid()
    modifies world`blocks
    ensures world.Valid()
    ensures Danced(world.blocks, state) == DanceOf(old(world.blocks), world.nextId, target, now, settings)
  {
    var es := Participants(world.blocks, world.nextId, target);
    var count := |es|;
    if count == 0 {
      return None;
    }
    Enlist(world, es, now);
    state := Some(NewDanceState(target, now, settings, count));
  }

  /** One single-stage start: its stage is danced, with free flight when it is the last stage. */
  method StartOne(world: World, target: int, now: real, settings: Option<WorldDanceSettings>, total: nat,
                  created0: seq<WorldDanceState>, freeFly0: nat)
    returns (created: seq<WorldDanceState>, freeFly: nat)
    requires world.Valid()
    modifies world`blocks
    ensures world.Valid()
    ensures Acc(world.blocks, created, freeFly, []) == StartStage(Acc(old(world.blocks), created0, freeFly0, []), world.nextId, target, now, settings, total)
  {
    created, freeFly := created0, freeFly0;
    var state := DanceStage(world, target, now, settings);
    if state.Some? {
      created := created + [state.value];
      if total > 0 && target == total - 1 {
        freeFly := freeFly + 1;
      }
    }
  }

  /** The single-stage starts, danced and consumed in query order. */
  method DanceStarts(world: World, now: real, settings: Option<WorldDanceSettings>, total: nat)
    returns (created: seq<WorldDanceState>, freeFly: nat)
    requires world.Valid()
    modifies world`blocks
    ensures world.Valid()
    ensures Acc(world.blocks, created, freeFly, []) == StartPass(Acc(old(world.blocks), [], 0, []), world.nextId, world.danceStarts, now, settings, total)
  {
    ghost var b0 := world.blocks;
    var starts := world.danceStarts;
    created, freeFly := [], 0;
    var i := 0;
    while i < |starts|
      invariant 0 <= i <= |starts|
      invariant world.Valid()
      invariant Acc(world.blocks, created, freeFly, []) == StartPass(Acc(b0, [], 0, []), world.nextId, starts[..i], now, settings, total)
    {
      assert starts[..i + 1][..i] == starts[..i];
      created, freeFly := StartOne(world, starts[i], now, settings, total, created, freeFly);
      i := i + 1;
    }
    assert starts[..i] == starts;
  }

  /** One running cursor takes its step; the cursor that survives, if any, joins the kept ones. */
  method StepSequence(world: World, s: WorldDanceSequenceState, now: real, settings: Option<WorldDanceSettings>,
                      kept0: seq<WorldDanceSequenceState>, created0: seq<WorldDanceState>, freeFly0: nat, destroys0: seq<int>)
    returns (kept: seq<WorldDanceSequenceState>, created: seq<WorldDanceState>, freeFly: nat, destroys: seq<int>)
    requires world.Valid()
    modifies world`blocks
    ensures world.Valid()
    ensures Progressed(Acc(world.blocks, created, freeFly, destroys), kept)
         == ProgressOne(Progressed(Acc(old(world.blocks), created0, freeFly0, destroys0), kept0), world.nextId, s, now, settings)
  {
    kept, created, freeFly, destroys := kept0, created0, freeFly0, destroys0;
    ghost var o := SeqStep(s, now);
    if now < s.nextTime {
      return kept + [s], created, freeFly, destroys;
    }
    if s.current > s.end {
      return;
    }
    assert o.fired == Some(s.current);
    var state := DanceStage(world, s.current, now, settings);
    if state.Some? {
      created := created + [state.value];
      destroys := destroys + [s.current];
    }
    if s.current == s.end {
      freeFly := freeFly + 1;
    }
    kept := kept + [s.(current := s.current + 1, nextTime := now + s.interval)];
  }

  /** The running cursors, each taking one step in query order. */
  method StepSequences(world: World, now: real, settings: Option<WorldDanceSettings>,
                       created0: seq<WorldDanceState>, freeFly0: nat)
    returns (kept: seq<WorldDanceSequenceState>, created: seq<WorldDanceState>, freeFly: nat, destroys: seq<int>)
    requires world.Valid()
    modifies world`blocks
    ensures world.Valid()
    ensures Progressed(Acc(world.blocks, created, freeFly, destroys), kept)
         == ProgressPass(Progressed(Acc(old(world.blocks), created0, freeFly0, []), []), world.nextId, world.danceSequences, now, settings)
  {
    ghost var p0 := Progressed(Acc(world.blocks, created0, freeFly0, []), []);
    var seqs := world.danceSequences;
    kept, created, freeFly, destroys := [], created0, freeFly0, [];
    var j := 0;
    while j < |seqs|
      invariant 0 <= j <= |seqs|
      invariant world.Valid()
      invariant Progressed(Acc(world.blocks, created, freeFly, destroys), kept) == ProgressPass(p0, world.nextId, seqs[..j], now, settings)
    {
      assert seqs[..j + 1][..j] == seqs[..j];
      kept, created, freeFly, destroys := StepSequence(world, seqs[j], now, settings, kept, created, freeFly, destroys);
      j := j + 1;
    }
    assert seqs[..j] == seqs;
  }

  /** The effects of a whole update, before the dance states and cursors are written back. */
  function UpdateEffects(blocks: map<Entity, Block>, n: nat, starts: seq<int>, seqs: seq<WorldDanceSequenceState>,
                         now: real, settings: Option<WorldDanceSettings>, total: nat): Progressed
  {
    ProgressPass(Progressed(StartPass(Acc(blocks, [], 0, []), n, starts, now, settings, total), []), n, seqs, now, settings)
  }

  /** Every dance state an update creates is a fresh dismantle with participants, and there is at most one per start and cursor. */
  lemma UpdateCreates(blocks: map<Entity, Block>, n: nat, starts: seq<int>, seqs: seq<WorldDanceSequenceState>,
                      now: real, settings: Option<WorldDanceSettings>, total: nat)
    ensures var p := UpdateEffects(blocks, n, starts, seqs, now, settings, total);
      CreatedOnlyByDance(p.acc) && |p.acc.created| <= |starts| + |seqs| && |p.kept| <= |seqs|
  {
    var a0 := Acc(blocks, [], 0, []);
    StartPassCreates(a0, n, starts, now, settings, total);
    ProgressPassCreates(Progressed(StartPass(a0, n, starts, now, settings, total), []), n, seqs, now, settings);
  }

  /** The same cubes carrying the same stage tags. */
  predicate SameStages(b1: map<Entity, Block>, b2: map<Entity, Block>)
  {
    b1.Keys == b2.Keys && forall e :: e in b1 ==> b1[e].stage == b2[e].stage
  }

  /** Two worlds with the same cubes and stage tags have the same participants for every stage. */
  lemma {:induction false} SameStagesParticipants(b1: map<Entity, Block>, b2: map<Entity, Block>, n: nat, stage: int)
    requires SameStages(b1, b2)
    ensures Participants(b1, n, stage) == Participants(b2, n, stage)
    decreases n
  {
    if n > 0 {
      SameStagesParticipants(b1, b2, n - 1, stage);
    }
  }

  /** Enrolling cubes changes no cube's stage tag. */
  lemma {:induction false} EnrollAllKeepsStages(blocks: map<Entity, Block>, es: seq<Entity>, now: real)
    ensures SameStages(blocks, EnrollAll(blocks, es, now))
    decreases |es|
  {
    if es != [] {
      EnrollAllKeepsStages(blocks, es[..|es| - 1], now);
    }
  }

  /** Enrolling cubes leaves the participants of every stage as they were. */
  lemma EnrollKeepsParticipants(blocks: map<Entity, Block>, es: seq<Entity>, now: real, n: nat)
    ensures forall stage :: Participants(EnrollAll(blocks, es, now), n, stage) == Participants(blocks, n, stage)
  {
    EnrollAllKeepsStages(blocks, es, now);
    forall stage ensures Participants(EnrollAll(blocks, es, now), n, stage) == Participants(blocks, n, stage) {
      SameStagesParticipants(EnrollAll(blocks, es, now), blocks, n, stage);
    }
  }

  lemma {:induction false} StartPassKeepsStages(a: Acc, n: nat, starts: seq<int>, now: real, settings: Option<WorldDanceSettings>,
                                                totalStages: nat)
    ensures SameStages(a.blocks, StartPass(a, n, starts, now, settings, totalStages).blocks)
    decreases |starts|
  {
    if starts != [] {
      var m := |starts| - 1;
      var prev := StartPass(a, n, starts[..m], now, settings, totalStages);
      StartPassKeepsStages(a, n, starts[..m], now, settings, totalStages);
      EnrollAllKeepsStages(prev.blocks, Participants(prev.blocks, n, starts[m]), now);
    }
  }

  lemma {:induction false} ProgressPassKeepsStages(p: Progressed, n: nat, seqs: seq<WorldDanceSequenceState>, now: real,
                                                   settings: Option<WorldDanceSettings>)
    ensures SameStages(p.acc.blocks, ProgressPass(p, n, seqs, now, settings).acc.blocks)
    decreases |seqs|
  {
    if seqs != [] {
      var m := |seqs| - 1;
      var prev := ProgressPass(p, n, seqs[..m], now, settings);
      ProgressPassKeepsStages(p, n, seqs[..m], now, settings);
      var o := SeqStep(seqs[m], now);
      if o.fired.Some? {
        EnrollAllKeepsStages(prev.acc.blocks, Participants(prev.acc.blocks, n, o.fired.value), now);
      }
    }
  }

  /**
   * Every stage query of an update, whichever start or cursor makes it,
   * finds the participants the world had when the update began: dancing
   * changes no cube's stage and creates or destroys no cube.
   */
  lemma UpdateKeepsParticipants(blocks: map<Entity, Block>, n: nat, starts: seq<int>, seqs: seq<WorldDanceSequenceState>,
                                now: real, settings: Option<WorldDanceSettings>, total: nat, k: nat, j: nat, stage: int)
    requires k <= |starts| && j <= |seqs|
    ensures var a := StartPass(Acc(blocks, [], 0, []), n, starts[..k], now, settings, total);
      Participants(a.blocks, n, stage) == Participants(blocks, n, stage)
    ensures var a := StartPass(Acc(blocks, [], 0, []), n, starts, now, settings, total);
      var p := ProgressPass(Progressed(a, []), n, seqs[..j], now, settings);
      Participants(p.acc.blocks, n, stage) == Participants(blocks, n, stage)
  {
    var a0 := Acc(blocks, [], 0, []);
    StartPassKeepsStages(a0, n, starts[..k], now, settings, total);
    SameStagesParticipants(StartPass(a0, n, starts[..k], now, settings, total).blocks, blocks, n, stage);
    var a := StartPass(a0, n, starts, now, settings, total);
    StartPassKeepsStages(a0, n, starts, now, settings, total);
    ProgressPassKeepsStages(Progressed(a, []), n, seqs[..j], now, settings);
    SameStagesParticipants(ProgressPass(Progressed(a, []), n, seqs[..j], now, settings).acc.blocks, blocks, n, stage);
  }

  /** Both passes of an update: the single-stage starts, then the running cursors. */
  method DanceAll(world: World, now: real, settings: Option<WorldDanceSettings>, total: nat)
    returns (kept: seq<WorldDanceSequenceState>, created: seq<WorldDanceState>, freeFly: nat, destroys: seq<int>)
    requires world.Valid()
    modifies world`blocks
    ensures world.Valid()
    ensures Progressed(Acc(world.blocks, created, freeFly, destroys), kept)
         == UpdateEffects(old(world.blocks), old(world.nextId), old(world.danceStarts), old(world.danceSequences), now, settings, total)
  {
    created, freeFly := DanceStarts(world, now, settings, total);
    kept, created, freeFly, destroys := StepSequences(world, now, settings, created, freeFly);
  }

  /**
   * One orchestrator update at time `now`. The single-stage starts are danced
   * and consumed, the sequence starts become cursors, and every running cursor
   * takes one step. The dance states become the ones created in this update
   * when it danced anything; the free-flight and collider-destroy requests are
   * returned in the order they were raised.
   */
  method Update(world: World, now: real, settings: Option<WorldDanceSettings>)
    returns (freeFlyRequests: nat, destroyRequests: seq<int>)
    requires world.Valid()
    modifies world`blocks, world`danceStarts, world`sequenceStarts, world`danceSequences, world`danceStates
    ensures world.Valid()
    ensures var total := TotalStages(world.sequences);
      var p := UpdateEffects(old(world.blocks), world.nextId, old(world.danceStarts), old(world.danceSequences), now, settings, total);
      && world.blocks == p.acc.blocks
      && world.danceStates == StatesAfter(old(world.danceStates), p.acc.created)
      && world.danceSequences == p.kept + NewSequences(old(world.sequenceStarts), total, now)
      && freeFlyRequests == p.acc.freeFly && destroyRequests == p.acc.destroyRequests
    ensures world.danceStarts == [] && world.sequenceStarts == []
  {
    var total := TotalStages(world.sequences);
    // Sequence starts become cursors, created at playback.
    var started := NewSequences(world.sequenceStarts, total, now);
    var kept, created, freeFly, destroys := DanceAll(world, now, settings, total);
    Commit(world, kept + started, created);
    freeFlyRequests, destroyRequests := freeFly, destroys;
  }

  /**
   * The end of an update: the starts are consumed, the cursors are replaced,
   * and the dance states become the created ones when there are any.
   */
  method Commit(world: World, sequences: seq<WorldDanceSequenceState>, created: seq<WorldDanceState>)
    modifies world`danceStarts, world`sequenceStarts, world`danceSequences, world`danceStates
    ensures world.danceStarts == [] && world.sequenceStarts == [] && world.danceSequences == sequences
    ensures world.danceStates == StatesAfter(old(world.danceStates), created)
  {
    world.danceStarts, world.sequenceStarts, world.danceSequences := [], [], sequences;
    // Dancing any stage cleared the states that existed when the update began.
    if |created| > 0 {
      world.danceStates := created;
    }
  }
}
