/**
 * Step detection: when the player's foot enters a new cell, the cube under it
 * may fire once. A firing cube is marked through the end-of-frame command
 * buffer, may start a world-dance sequence, always emits a step sound, and
 * counts towards the current stage's progress, asking for the next level when
 * the stage is complete.
 */
module StepDetection {
  import opened Grid
  import opened Components
  import opened EcsWorld
  import Occupancy

  /** The cube's variant id, or -1 when it carries none (or is gone). */
  function VariantOf(blocks: map<Entity, Block>, cube: Entity): int
  {
    if cube in blocks && blocks[cube].variant.Some? then blocks[cube].variant.value else -1
  }

  /** The index of the first colour entry for `variant`, or -1 when there is none. */
  function FirstColor(colors: seq<StepTriggerColor>, variant: int): (r: int)
    ensures -1 <= r < |colors|
    ensures r >= 0 ==> colors[r].typeId == variant && forall j :: 0 <= j < r ==> colors[j].typeId != variant
    ensures r == -1 <==> forall j :: 0 <= j < |colors| ==> colors[j].typeId != variant
  {
    if |colors| == 0 then -1
    else if colors[0].typeId == variant then 0
    else
      var r := FirstColor(colors[1..], variant);
      assert forall j :: 1 <= j < |colors| ==> colors[j] == colors[1..][j - 1];
      if r < 0 then -1 else r + 1
  }

  /**
   * Whether stepping on `cube` fires it: the cube has a variant other than -1,
   * some colour entry is configured for that variant, and the cube has not
   * fired before.
   */
  predicate ShouldTrigger(blocks: map<Entity, Block>, cube: Entity, colors: seq<StepTriggerColor>)
  {
    && VariantOf(blocks, cube) != -1
    && FirstColor(colors, VariantOf(blocks, cube)) >= 0
    && !blocks[cube].stepTriggered
  }

  /** The three conditions for firing, spelled out on the cube's components. */
  lemma ShouldTriggerMeans(blocks: map<Entity, Block>, cube: Entity, colors: seq<StepTriggerColor>)
    ensures ShouldTrigger(blocks, cube, colors) <==>
      && cube in blocks && blocks[cube].variant.Some? && blocks[cube].variant.value != -1
      && (exists j :: 0 <= j < |colors| && colors[j].typeId == blocks[cube].variant.value)
      && !blocks[cube].stepTriggered
  {
    if cube in blocks && blocks[cube].variant.Some? {
      var v := blocks[cube].variant.value;
      if exists j :: 0 <= j < |colors| && colors[j].typeId == v {
        var j :| 0 <= j < |colors| && colors[j].typeId == v;
        assert FirstColor(colors, v) != -1;
      }
    }
  }

  /** The colour used when the configuration has no entry (white, glow 2). */
  function DefaultConfig(variant: int): StepTriggerColor
  {
    StepTriggerColor(variant, Color4(1.0, 1.0, 1.0, 1.0), 2.0)
  }

  /** The colour-buffer scan: the first entry for `variant`, if any. */
  method LookupColor(colors: seq<StepTriggerColor>, variant: int) returns (hasConfig: bool, cfg: StepTriggerColor)
    ensures hasConfig <==> FirstColor(colors, variant) >= 0
    ensures hasConfig ==> cfg == colors[FirstColor(colors, variant)]
    ensures !hasConfig ==> cfg == DefaultConfig(variant)
  {
    hasConfig, cfg := false, DefaultConfig(variant);
    var i := 0;
    while i < |colors|
      invariant 0 <= i <= |colors|
      invariant forall j :: 0 <= j < i ==> colors[j].typeId != variant
    {
      if colors[i].typeId == variant {
        hasConfig, cfg := true, colors[i];
        return;
      }
      i := i + 1;
    }
  }

  /**
   * A dance trigger applies to a stepped cube when stage and variant agree and,
   * for a coordinate-bound entry, the cube has a grid position equal to it.
   */
  predicate DanceMatches(entry: DanceTriggerEntry, stageIdx: int, typeId: int, hasCoord: bool, coord: Int3)
  {
    && entry.stageIndex == stageIdx
    && entry.typeId == typeId
    && (entry.useCoord != 0 ==> hasCoord && coord == entry.coord)
  }

  /** The dance-trigger scan: whether some entry applies. */
  method HasDanceTrigger(entries: seq<DanceTriggerEntry>, stageIdx: int, typeId: int, hasCoord: bool, coord: Int3)
    returns (found: bool)
    ensures found <==> exists i :: 0 <= i < |entries| && DanceMatches(entries[i], stageIdx, typeId, hasCoord, coord)
  {
    var i := 0;
    while i < |entries|
      invariant 0 <= i <= |entries|
      invariant forall j :: 0 <= j < i ==> !DanceMatches(entries[j], stageIdx, typeId, hasCoord, coord)
    {
      if DanceMatches(entries[i], stageIdx, typeId, hasCoord, coord) {
        return true;
      }
      i := i + 1;
    }
    return false;
  }

  /** The sequence interval: the configured one, at least 0.01 s, or 0.5 s without settings. */
  function DanceInterval(settings: Option<real>): (r: real)
    ensures r >= 0.01
    ensures settings.None? ==> r == 0.5
    ensures settings.Some? && settings.value >= 0.01 ==> r == settings.value
  {
    match settings
    case None => 0.5
    case Some(s) => MaxReal(0.01, s)
  }

  /** The grid coordinate the dance entry's coordinate is compared with. */
  function GridCoord(b: Block): Int3
  {
    if b.gridPos.Some? then b.gridPos.value.gridPosition else Int3(0, 0, 0)
  }

  /** The dance start a firing cube produces: a sequence from stage 0 to the last one. */
  ghost function DanceStart(b: Block, variant: int, entries: seq<DanceTriggerEntry>, settings: Option<real>): Option<WorldDanceSequenceStart>
  {
    if b.stage.Some? && exists i :: 0 <= i < |entries| && DanceMatches(entries[i], b.stage.value, variant, b.gridPos.Some?, GridCoord(b))
    then Some(WorldDanceSequenceStart(0, -1, DanceInterval(settings)))
    else None
  }

  /** Whether a firing cube with stage tag `stage` counts towards the progress singleton. */
  predicate Counts(p: Option<StageStepProgress>, stage: Option<int>)
  {
    p.Some? && stage.Some? && p.value.stageIndex == stage.value
  }

  /** The progress after a cube with stage tag `stage` fires. */
  function ProgressAfter(p: Option<StageStepProgress>, stage: Option<int>): (r: Option<StageStepProgress>)
    ensures r.Some? <==> p.Some?
    ensures Counts(p, stage) ==> r == Some(p.value.(triggered := p.value.triggered + 1))
    ensures !Counts(p, stage) ==> r == p
  {
    if Counts(p, stage) then Some(p.value.(triggered := p.value.triggered + 1)) else p
  }

  /** The entity events one update raises (created through the command buffer). */
  datatype StepEvents = StepEvents(
    config: Option<StepTriggerColor>,
    danceStart: Option<WorldDanceSequenceStart>,
    audio: Option<StepAudioEvent>,
    nextLevel: bool)

  const NoEvents := StepEvents(None, None, None, false)

  /** The cube that fires in this update, if any. */
  ghost function Fired(foot: PlayerGridFoot, mapReady: bool, entries: map<Int3, Entity>, blocks: map<Entity, Block>, colors: seq<StepTriggerColor>): (r: Option<Entity>)
    ensures r.Some? ==> r.value in blocks && !blocks[r.value].stepTriggered
  {
    if foot.currentCell != foot.lastCell && mapReady && foot.currentCell in entries && ShouldTrigger(blocks, entries[foot.currentCell], colors)
    then Some(entries[foot.currentCell])
    else None
  }

  /**
   * The events of a cube that fires: its colour configuration, a dance start
   * when one of the dance entries matches it, the step sound at its cell, and
   * the progress count, raised when the cube belongs to the tracked stage,
   * with the level request when that count reaches the total.
   */
  method Fire(b: Block, variant: int, cfg: StepTriggerColor, progress: Option<StageStepProgress>,
              danceEntries: seq<DanceTriggerEntry>, danceSettings: Option<real>)
    returns (events: StepEvents, progress': Option<StageStepProgress>)
    ensures events.config == Some(cfg)
    ensures events.danceStart == DanceStart(b, variant, danceEntries, danceSettings)
    ensures events.audio == Some(StepAudioEvent(b.cell, variant))
    ensures progress' == ProgressAfter(progress, b.stage)
    ensures events.nextLevel <==>
      (Counts(progress, b.stage) && progress'.value.totalToTrigger > 0 && progress'.value.triggered >= progress'.value.totalToTrigger)
  {
    var dance: Option<WorldDanceSequenceStart> := None;
    if b.stage.Some? {
      var found := HasDanceTrigger(danceEntries, b.stage.value, variant, b.gridPos.Some?, GridCoord(b));
      if found {
        dance := Some(WorldDanceSequenceStart(0, -1, DanceInterval(danceSettings)));
      }
    }
    var nextLevel := false;
    progress' := progress;
    if b.stage.Some? && progress.Some? {
      var prog := progress.value;
      if prog.stageIndex == b.stage.value {
        prog := prog.(triggered := prog.triggered + 1);
        progress' := Some(prog);
        nextLevel := prog.totalToTrigger > 0 && prog.triggered >= prog.totalToTrigger;
      }
    }
    events := StepEvents(Some(cfg), dance, Some(StepAudioEvent(b.cell, variant)), nextLevel);
  }

  /**
   * One update. The foot's last cell catches up with its current cell; when it
   * had moved onto a cube that fires, the cube is marked in the deferred
   * buffer, the configured colour is chosen, a dance start is raised when a
   * dance entry applies, a step sound is raised at the cube's position, and a
   * cube of the tracked stage bumps the progress, raising the next-level
   * request once the total is reached. Nothing else changes.
   */
  method Update(world: World, cubeMap: Occupancy.OccupiedCubeMap, colors: seq<StepTriggerColor>,
                danceEntries: seq<DanceTriggerEntry>, danceSettings: Option<real>)
    returns (cmds: seq<Command>, events: StepEvents)
    requires world.Valid() && world.foot.Some?
    modifies world`foot, world`progress
    ensures old(world.foot.value.currentCell == world.foot.value.lastCell) ==>
      world.foot == old(world.foot) && world.progress == old(world.progress) && cmds == [] && events == NoEvents
    ensures world.foot == Some(old(world.foot.value).(lastCell := old(world.foot.value.currentCell)))
    ensures var fired := Fired(old(world.foot.value), cubeMap.isInitialized, cubeMap.entries, world.blocks, colors);
      && (fired.None? ==> cmds == [] && events == NoEvents && world.progress == old(world.progress))
      && (fired.Some? ==>
            var b := world.blocks[fired.value];
            var v := b.variant.value;
            && cmds == [AddStepTriggered(fired.value)]
            && events.config == Some(colors[FirstColor(colors, v)])
            && events.danceStart == DanceStart(b, v, danceEntries, danceSettings)
            && events.audio == Some(StepAudioEvent(b.cell, v))
            && world.progress == ProgressAfter(old(world.progress), b.stage)
            && (events.nextLevel <==>
                  (Counts(old(world.progress), b.stage)
                   && world.progress.value.totalToTrigger > 0
                   && world.progress.value.triggered >= world.progress.value.totalToTrigger)))
  {
    var f := world.foot.value;
    var current := f.currentCell;
    cmds, events := [], NoEvents;
    if current == f.lastCell {
      return;
    }
    if cubeMap.isInitialized && current in cubeMap.entries {
      var cube := cubeMap.entries[current];
      var variant := VariantOf(world.blocks, cube);
      var hasConfig, cfg := false, DefaultConfig(variant);
      if variant != -1 {
        hasConfig, cfg := LookupColor(colors, variant);
      }
      var shouldTrigger := hasConfig && !world.blocks[cube].stepTriggered;
      if shouldTrigger {
        cmds := [AddStepTriggered(cube)];
        var progress;
        events, progress := Fire(world.blocks[cube], variant, cfg, world.progress, danceEntries, danceSettings);
        world.progress := progress;
      }
    }
    world.foot := Some(f.(lastCell := current));
  }

  /** The fired cubes of stage `stage`: those carrying the one-shot mark. */
  function Marked(blocks: map<Entity, Block>, stage: int): set<Entity>
  {
    set e | e in blocks && blocks[e].stepTriggered && blocks[e].stage == Some(stage)
  }

  /** The progress counter agrees with the marks: it counts the fired cubes of its stage. */
  predicate ProgressAgrees(blocks: map<Entity, Block>, p: Option<StageStepProgress>)
  {
    p.Some? ==> p.value.triggered == |Marked(blocks, p.value.stageIndex)|
  }

  /**
   * Firing is one-shot and the counter keeps counting marks: once the update's
   * buffer is played back, the fired cube can never fire again, and a counter
   * that counted the marked cubes of its stage before still does.
   */
  lemma {:induction false} FireOnce(s: Store, p: Option<StageStepProgress>, cube: Entity, colors: seq<StepTriggerColor>)
    requires StoreValid(s) && ShouldTrigger(s.blocks, cube, colors)
    requires ProgressAgrees(s.blocks, p)
    ensures var r := Apply(s, AddStepTriggered(cube));
      && !ShouldTrigger(r.blocks, cube, colors)
      && ProgressAgrees(r.blocks, ProgressAfter(p, s.blocks[cube].stage))
  {
    var r := Apply(s, AddStepTriggered(cube));
    var b := s.blocks[cube];
    assert r.blocks == s.blocks[cube := b.(stepTriggered := true)];
    if p.Some? {
      var k := p.value.stageIndex;
      if b.stage == Some(k) {
        assert Marked(r.blocks, k) == Marked(s.blocks, k) + {cube};
        assert cube !in Marked(s.blocks, k);
      } else {
        assert Marked(r.blocks, k) == Marked(s.blocks, k);
      }
    }
  }

  /** A cube without a variant, or with variant -1, never fires, whatever the colour table says. */
  lemma NoVariantNeverFires(blocks: map<Entity, Block>, cube: Entity, colors: seq<StepTriggerColor>)
    requires cube in blocks && (blocks[cube].variant.None? || blocks[cube].variant == Some(-1))
    ensures !ShouldTrigger(blocks, cube, colors)
  {
  }
}
