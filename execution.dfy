/**
 * Chain creation: every anchor carrying an execution request grows a chain of
 * new blocks along the requested axis, from its resume offset on, skipping the
 * two cells the player's body fills and stopping at the first occupied cell.
 * Creations are recorded in a command buffer and played back at the end of the
 * update; the anchor's chain counter is updated in place.
 */
module ExtendExecutionSystem {
  import opened Grid
  import opened Components
  import opened EcsWorld
  import Occupancy

  /** The cells one and two above the player's foot cell, when the foot is known. */
  predicate InPlayerCells(c: Int3, foot: Option<Int3>)
  {
    foot.Some? && (c == Add(foot.value, Int3(0, 1, 0)) || c == Add(foot.value, Int3(0, 2, 0)))
  }

  /**
   * Offsets created when the scan reaches offset `i`: player cells are skipped
   * without stopping, and the first occupied cell ends the scan.
   */
  function ChainFrom(start: Int3, dir: Int3, i: int, last: int, foot: Option<Int3>, occupied: map<Int3, Entity>): (r: seq<int>)
    ensures forall k :: 0 <= k < |r| ==> i <= r[k] <= last
    ensures forall k, l :: 0 <= k < l < |r| ==> r[k] < r[l]
    ensures |r| <= Max(0, last - i + 1)
    decreases last - i + 1
  {
    if i > last then []
    else if InPlayerCells(Along(start, dir, i), foot) then ChainFrom(start, dir, i + 1, last, foot, occupied)
    else if Along(start, dir, i) in occupied then []
    else [i] + ChainFrom(start, dir, i + 1, last, foot, occupied)
  }

  /** s = max(0, StartIndex): the offset the chain resumes after. */
  function StartOffset(req: ExtendExecutionRequest): int { Max(0, req.startIndex) }

  /** The last candidate offset, s + max(0, Length). */
  function EndOffset(req: ExtendExecutionRequest): int { StartOffset(req) + Max(0, req.length) }

  /** The offsets at which blocks are created for `req` from an anchor at `start`. */
  function ChainIndices(start: Int3, req: ExtendExecutionRequest, foot: Option<Int3>, occupied: map<Int3, Entity>): (r: seq<int>)
    ensures |r| <= Max(0, req.length)
    ensures forall k :: 0 <= k < |r| ==> StartOffset(req) < r[k] <= EndOffset(req)
    ensures forall k, l :: 0 <= k < l < |r| ==> r[k] < r[l]
  {
    ChainFrom(start, req.direction, StartOffset(req) + 1, EndOffset(req), foot, occupied)
  }

  /** Offset `i` is reached by a scan that starts at `from`: no earlier non-player cell is occupied. */
  predicate Reached(start: Int3, dir: Int3, from: int, i: int, foot: Option<Int3>, occupied: map<Int3, Entity>)
  {
    forall j :: from <= j < i && !InPlayerCells(Along(start, dir, j), foot) ==> Along(start, dir, j) !in occupied
  }

  /**
   * A block is created at offset `i` exactly when `i` is a candidate, its cell
   * is neither a player cell nor occupied, and no earlier candidate stopped the
   * scan.
   */
  lemma {:induction false} ChainFromMembership(start: Int3, dir: Int3, from: int, last: int, foot: Option<Int3>,
                                               occupied: map<Int3, Entity>, i: int)
    ensures i in ChainFrom(start, dir, from, last, foot, occupied) <==>
              from <= i <= last && !InPlayerCells(Along(start, dir, i), foot) && Along(start, dir, i) !in occupied
              && Reached(start, dir, from, i, foot, occupied)
    decreases last - from + 1
  {
    if from <= last {
      ChainFromMembership(start, dir, from + 1, last, foot, occupied, i);
      if i != from && !InPlayerCells(Along(start, dir, from), foot) && Along(start, dir, from) in occupied {
        if from < i {
          assert !Reached(start, dir, from, i, foot, occupied);
        }
      }
    }
  }

  lemma CreatedIff(start: Int3, req: ExtendExecutionRequest, foot: Option<Int3>, occupied: map<Int3, Entity>, i: int)
    ensures i in ChainIndices(start, req, foot, occupied) <==>
              StartOffset(req) < i <= EndOffset(req)
              && !InPlayerCells(Along(start, req.direction, i), foot)
              && Along(start, req.direction, i) !in occupied
              && Reached(start, req.direction, StartOffset(req) + 1, i, foot, occupied)
  {
    ChainFromMembership(start, req.direction, StartOffset(req) + 1, EndOffset(req), foot, occupied, i);
  }

  /** The first occupied non-player candidate ends the loop: nothing is created at or beyond it. */
  lemma StopsAtObstruction(start: Int3, req: ExtendExecutionRequest, foot: Option<Int3>, occupied: map<Int3, Entity>, j: int)
    requires StartOffset(req) < j <= EndOffset(req)
    requires !InPlayerCells(Along(start, req.direction, j), foot) && Along(start, req.direction, j) in occupied
    ensures forall i :: i in ChainIndices(start, req, foot, occupied) ==> i < j
  {
    forall i | i in ChainIndices(start, req, foot, occupied)
      ensures i < j
    {
      CreatedIff(start, req, foot, occupied, i);
    }
  }

  /**
   * Player cells leave gaps: when the cell after a created block is one the
   * player's body fills, the scan steps over it and goes on creating.
   */
  lemma PlayerCellLeavesGap(start: Int3, req: ExtendExecutionRequest, foot: Option<Int3>, occupied: map<Int3, Entity>, i: int)
    requires i in ChainIndices(start, req, foot, occupied)
    requires InPlayerCells(Along(start, req.direction, i + 1), foot)
    requires i + 2 <= EndOffset(req)
    requires !InPlayerCells(Along(start, req.direction, i + 2), foot) && Along(start, req.direction, i + 2) !in occupied
    ensures i + 1 !in ChainIndices(start, req, foot, occupied)
    ensures i + 2 in ChainIndices(start, req, foot, occupied)
  {
    var dir, from := req.direction, StartOffset(req) + 1;
    CreatedIff(start, req, foot, occupied, i);
    CreatedIff(start, req, foot, occupied, i + 1);
    CreatedIff(start, req, foot, occupied, i + 2);
    forall j | from <= j < i + 2 && !InPlayerCells(Along(start, dir, j), foot)
      ensures Along(start, dir, j) !in occupied
    {
      if j < i {
        assert from <= j < i && !InPlayerCells(Along(start, dir, j), foot);
      }
    }
  }

  /** Without the player in the way, a chain from offset 0 is exactly the free prefix. */
  lemma NoFootIsFreePrefix(start: Int3, req: ExtendExecutionRequest, occupied: map<Int3, Entity>, i: int)
    requires req.startIndex <= 0
    ensures i in ChainIndices(start, req, None, occupied) <==>
              1 <= i <= Max(0, req.length) && forall j :: 1 <= j <= i ==> Along(start, req.direction, j) !in occupied
  {
    CreatedIff(start, req, None, occupied, i);
  }

  /** OriginalAlpha of a new lifetime: the instance colour alpha when one is written, else 1. */
  function OriginalAlpha(settings: ExtendSettings): real
  {
    if settings.instanceAlpha.Some? then settings.instanceAlpha.value else 1.0
  }

  /** The block created at offset `i` of the chain of anchor `root`. */
  function ChainBlock(root: Entity, start: Int3, req: ExtendExecutionRequest, stage: int, settings: ExtendSettings, i: int): Block
  {
    var c := Along(start, req.direction, i);
    PrefabAt(c).(
      gridPos := Some(CubeGridPosition(c, false)),
      cubeType := Some(Extended),
      chain := Some(ExtendChainData(root, req.direction, i, req.chainId)),
      lifetime := if settings.extendedLifetimeSeconds > 0.0
                  then Some(ExtendedLifetime(settings.extendedLifetimeSeconds, settings.extendedLifetimeSeconds, OriginalAlpha(settings)))
                  else None,
      stage := Some(stage),
      needsCollider := settings.autoAddCollider,
      alpha := settings.instanceAlpha)
  }

  /** The creations recorded for the offsets `idx`, in order. */
  function Spawns(root: Entity, start: Int3, req: ExtendExecutionRequest, stage: int, settings: ExtendSettings, idx: seq<int>): (r: seq<Command>)
    ensures |r| == |idx|
    ensures forall k :: 0 <= k < |idx| ==> r[k] == Instantiate(ChainBlock(root, start, req, stage, settings, idx[k]))
  {
    seq(|idx|, k requires 0 <= k < |idx| => Instantiate(ChainBlock(root, start, req, stage, settings, idx[k])))
  }

  lemma SpawnsSnoc(root: Entity, start: Int3, req: ExtendExecutionRequest, stage: int, settings: ExtendSettings, idx: seq<int>, i: int)
    ensures Spawns(root, start, req, stage, settings, idx + [i])
            == Spawns(root, start, req, stage, settings, idx) + [Instantiate(ChainBlock(root, start, req, stage, settings, i))]
  {
  }

  /** The entities the execution query visits. */
  predicate IsRoot(b: Block)
  {
    b.interactable && b.extendable.Some? && b.request.Some? && b.stage.Some?
  }

  predicate HasRequest(b: Block) { b.request.Some? }

  /** All commands recorded for one anchor: its creations, then the removal of its request and preview. */
  function RootCommands(root: Entity, b: Block, settings: ExtendSettings, foot: Option<Int3>, occupied: map<Int3, Entity>): seq<Command>
    requires IsRoot(b)
  {
    Spawns(root, b.cell, b.request.value, b.stage.value, settings,
           ChainIndices(b.cell, b.request.value, foot, occupied))
      + [RemoveRequest(root), RemovePreview(root)]
  }

  /** The anchor after its update: one more chain when a chain was started from offset 0. */
  function BumpRoot(foot: Option<Int3>, occupied: map<Int3, Entity>): Block -> Block
  {
    b =>
      if !IsRoot(b) then b
      else
        var req := b.request.value;
        var ext := b.extendable.value;
        if StartOffset(req) == 0 && |ChainIndices(b.cell, req, foot, occupied)| > 0
        then b.(extendable := Some(ext.(currentExtensions := ext.currentExtensions + 1)))
        else b
  }

  /** The commands recorded for the anchors `roots`, in order. */
  function AllCommands(b0: map<Entity, Block>, roots: seq<Entity>, settings: ExtendSettings, foot: Option<Int3>,
                       occupied: map<Int3, Entity>): seq<Command>
    requires forall e :: e in roots ==> e in b0 && IsRoot(b0[e])
    decreases |roots|
  {
    if roots == [] then []
    else
      var e := roots[|roots| - 1];
      AllCommands(b0, roots[..|roots| - 1], settings, foot, occupied) + RootCommands(e, b0[e], settings, foot, occupied)
  }

  lemma AllCommandsStep(b0: map<Entity, Block>, roots: seq<Entity>, j: int, settings: ExtendSettings,
                        foot: Option<Int3>, occupied: map<Int3, Entity>)
    requires 0 <= j < |roots| && forall e :: e in roots ==> e in b0 && IsRoot(b0[e])
    ensures AllCommands(b0, roots[..j + 1], settings, foot, occupied)
            == AllCommands(b0, roots[..j], settings, foot, occupied) + RootCommands(roots[j], b0[roots[j]], settings, foot, occupied)
  {
    assert roots[..j + 1][..j] == roots[..j];
  }

  /**
   * Every anchor's request and preview removal is recorded, whatever the
   * outcome of its scan.
   */
  lemma {:induction false} RequestsAlwaysRemoved(b0: map<Entity, Block>, roots: seq<Entity>, settings: ExtendSettings,
                                                 foot: Option<Int3>, occupied: map<Int3, Entity>, e: Entity)
    requires forall r :: r in roots ==> r in b0 && IsRoot(b0[r])
    requires e in roots
    ensures RemoveRequest(e) in AllCommands(b0, roots, settings, foot, occupied)
    ensures RemovePreview(e) in AllCommands(b0, roots, settings, foot, occupied)
    decreases |roots|
  {
    var n := |roots| - 1;
    var tail := RootCommands(roots[n], b0[roots[n]], settings, foot, occupied);
    assert tail[|tail| - 2] == RemoveRequest(roots[n]) && tail[|tail| - 1] == RemovePreview(roots[n]);
    if e != roots[n] {
      assert e in roots[..n];
      RequestsAlwaysRemoved(b0, roots[..n], settings, foot, occupied, e);
    }
  }

  /**
   * Each created block stands at start + dir * i, is unregistered, is of type
   * Extended, carries the chain data {root, dir, i, ChainID}, copies the
   * anchor's stage, and has a lifetime of the configured length exactly when
   * that length is positive.
   */
  lemma CreatedBlockShape(root: Entity, b: Block, settings: ExtendSettings, foot: Option<Int3>,
                          occupied: map<Int3, Entity>, k: int)
    requires IsRoot(b) && 0 <= k < |ChainIndices(b.cell, b.request.value, foot, occupied)|
    ensures var i := ChainIndices(b.cell, b.request.value, foot, occupied)[k];
            var req := b.request.value;
            var c := Along(b.cell, req.direction, i);
            var cmd := RootCommands(root, b, settings, foot, occupied)[k];
            && cmd.Instantiate?
            && cmd.block.cell == c
            && cmd.block.gridPos == Some(CubeGridPosition(c, false))
            && cmd.block.cubeType == Some(Extended)
            && cmd.block.chain == Some(ExtendChainData(root, req.direction, i, req.chainId))
            && cmd.block.stage == b.stage
            && (cmd.block.lifetime.Some? <==> settings.extendedLifetimeSeconds > 0.0)
            && (cmd.block.lifetime.Some? ==>
                  cmd.block.lifetime.value.remainingSeconds == settings.extendedLifetimeSeconds
                  && cmd.block.lifetime.value.totalSeconds == settings.extendedLifetimeSeconds)
  {
  }

  /** A free cell off the player extends the created offsets by one and the scan moves on. */
  lemma ScanSpawns(start: Int3, dir: Int3, i: int, last: int, foot: Option<Int3>, occupied: map<Int3, Entity>,
                   created: seq<int>, whole: seq<int>)
    requires i <= last && !InPlayerCells(Along(start, dir, i), foot) && Along(start, dir, i) !in occupied
    requires created + ChainFrom(start, dir, i, last, foot, occupied) == whole
    ensures (created + [i]) + ChainFrom(start, dir, i + 1, last, foot, occupied) == whole
  {
    var rest := ChainFrom(start, dir, i + 1, last, foot, occupied);
    assert created + ([i] + rest) == (created + [i]) + rest;
  }

  /**
   * The chain scan of one anchor: the creations it records are exactly those
   * of `ChainIndices`, and `successCount` is their number.
   */
  method ScanChain(root: Entity, start: Int3, req: ExtendExecutionRequest, stage: int, settings: ExtendSettings,
                   foot: Option<Int3>, cubeMap: Occupancy.OccupiedCubeMap)
    returns (commands: seq<Command>, successCount: int)
    ensures successCount == |ChainIndices(start, req, foot, cubeMap.entries)|
    ensures commands == Spawns(root, start, req, stage, settings, ChainIndices(start, req, foot, cubeMap.entries))
  {
    var occ := cubeMap.entries;
    var startIndex := Max(0, req.startIndex);
    var endIndex := startIndex + Max(0, req.length);
    ghost var created: seq<int> := [];
    commands := [];
    successCount := 0;
    var i := startIndex + 1;
    while i <= endIndex
      invariant startIndex + 1 <= i <= endIndex + 1
      invariant created + ChainFrom(start, req.direction, i, endIndex, foot, occ) == ChainIndices(start, req, foot, occ)
      invariant commands == Spawns(root, start, req, stage, settings, created)
      invariant successCount == |created|
    {
      var cell := Along(start, req.direction, i);
      ghost var rest := ChainFrom(start, req.direction, i + 1, endIndex, foot, occ);
      if foot.Some? && (cell == Add(foot.value, Int3(0, 1, 0)) || cell == Add(foot.value, Int3(0, 2, 0))) {
        assert ChainFrom(start, req.direction, i, endIndex, foot, occ) == rest;
        i := i + 1;
        continue;
      }
      if cubeMap.ContainsKey(cell) {
        assert ChainFrom(start, req.direction, i, endIndex, foot, occ) == [];
        assert created + [] == created;
        break;
      }
      ScanSpawns(start, req.direction, i, endIndex, foot, occ, created, ChainIndices(start, req, foot, occ));
      SpawnsSnoc(root, start, req, stage, settings, created, i);
      commands := commands + [Instantiate(ChainBlock(root, start, req, stage, settings, i))];
      created := created + [i];
      successCount := successCount + 1;
      i := i + 1;
    }
  }

  /**
   * The work done for one anchor: its chain is scanned, its commands are
   * returned and its counter is bumped in place.
   */
  method ExecuteRoot(world: World, root: Entity, settings: ExtendSettings, foot: Option<Int3>,
                     cubeMap: Occupancy.OccupiedCubeMap)
    returns (commands: seq<Command>)
    requires world.Valid() && root in world.blocks && IsRoot(world.blocks[root])
    modifies world`blocks
    ensures world.Valid()
    ensures world.blocks == old(world.blocks)[root := BumpRoot(foot, cubeMap.entries)(old(world.blocks)[root])]
    ensures commands == RootCommands(root, old(world.blocks)[root], settings, foot, cubeMap.entries)
  {
    var b := world.blocks[root];
    var req := b.request.value;
    var created, successCount := ScanChain(root, b.cell, req, b.stage.value, settings, foot, cubeMap);
    var ext := b.extendable.value;
    if Max(0, req.startIndex) == 0 && successCount > 0 {
      ext := ext.(currentExtensions := ext.currentExtensions + 1);
    }
    world.SetBlock(root, b.(extendable := Some(ext)));
    commands := created + [RemoveRequest(root), RemovePreview(root)];
  }

  /** The store after an update that found work: counters bumped, then every recorded command applied. */
  function Executed(s: Store, settings: ExtendSettings, foot: Option<Int3>, occupied: map<Int3, Entity>): Store
    requires StoreValid(s)
  {
    var roots := Select(s.blocks, s.nextId, IsRoot);
    ApplyAll(Store(Mapped(s.blocks, IsRoot, BumpRoot(foot, occupied)), s.holders, s.nextId),
             AllCommands(s.blocks, roots, settings, foot, occupied))
  }

  /** The foot cell of the player, when the player is tracked. */
  function FootCell(foot: Option<PlayerGridFoot>): Option<Int3>
  {
    if foot.Some? then Some(foot.value.currentCell) else None
  }

  /** Whether the update does anything: some request exists and the settings, prefab and map are there. */
  predicate HasWork(s: Store, settings: Option<ExtendSettings>, hasMap: bool)
  {
    |Select(s.blocks, s.nextId, HasRequest)| > 0 && settings.Some? && settings.value.cubePrefab != NullEntity && hasMap
  }

  /** One root of the pass: the `j`-th root is rewritten and its commands are appended. */
  method ExecuteNext(world: World, ghost b0: map<Entity, Block>, roots: seq<Entity>, j: int, settings: ExtendSettings,
                     foot: Option<Int3>, cubeMap: Occupancy.OccupiedCubeMap, ecb: seq<Command>)
    returns (ecb': seq<Command>)
    requires 0 <= j < |roots| && StrictlyIncreasing(roots) && forall e :: e in roots ==> e in b0 && IsRoot(b0[e])
    requires world.Valid() && RewrittenUpTo(b0, roots, j, BumpRoot(foot, cubeMap.entries), world.blocks)
    requires ecb == AllCommands(b0, roots[..j], settings, foot, cubeMap.entries)
    modifies world`blocks
    ensures world.Valid() && RewrittenUpTo(b0, roots, j + 1, BumpRoot(foot, cubeMap.entries), world.blocks)
    ensures ecb' == AllCommands(b0, roots[..j + 1], settings, foot, cubeMap.entries)
  {
    RewrittenUpToStep(b0, roots, j, BumpRoot(foot, cubeMap.entries), world.blocks);
    AllCommandsStep(b0, roots, j, settings, foot, cubeMap.entries);
    var commands := ExecuteRoot(world, roots[j], settings, foot, cubeMap);
    ecb' := ecb + commands;
  }

  /**
   * The pass over the roots in handle order: each root is rewritten in place
   * and its chain's commands are recorded.
   */
  method ExecuteAll(world: World, roots: seq<Entity>, settings: ExtendSettings, foot: Option<Int3>,
                    cubeMap: Occupancy.OccupiedCubeMap)
    returns (ecb: seq<Command>)
    requires world.Valid() && roots == Select(world.blocks, world.nextId, IsRoot)
    modifies world`blocks
    ensures world.Valid()
    ensures world.blocks == Mapped(old(world.blocks), IsRoot, BumpRoot(foot, cubeMap.entries))
    ensures ecb == AllCommands(old(world.blocks), roots, settings, foot, cubeMap.entries)
  {
    SelectSpec(world.blocks, world.nextId, IsRoot);
    ghost var b0 := world.blocks;
    ecb := ExecuteRoots(world, b0, roots, settings, foot, cubeMap);
    RewrittenAll(b0, world.nextId, IsRoot, BumpRoot(foot, cubeMap.entries), world.blocks);
  }

  /** The loop of the pass: after it every root of `roots` is rewritten and every other block is as it was. */
  method ExecuteRoots(world: World, ghost b0: map<Entity, Block>, roots: seq<Entity>, settings: ExtendSettings,
                      foot: Option<Int3>, cubeMap: Occupancy.OccupiedCubeMap)
    returns (ecb: seq<Command>)
    requires StrictlyIncreasing(roots) && forall e :: e in roots ==> e in b0 && IsRoot(b0[e])
    requires world.Valid() && world.blocks == b0
    modifies world`blocks
    ensures world.Valid() && world.nextId == old(world.nextId)
    ensures RewrittenUpTo(b0, roots, |roots|, BumpRoot(foot, cubeMap.entries), world.blocks)
    ensures ecb == AllCommands(b0, roots, settings, foot, cubeMap.entries)
  {
    ecb := [];
    var j := 0;
    while j < |roots|
      invariant 0 <= j <= |roots| && world.Valid() && world.nextId == old(world.nextId)
      invariant RewrittenUpTo(b0, roots, j, BumpRoot(foot, cubeMap.entries), world.blocks)
      invariant ecb == AllCommands(b0, roots[..j], settings, foot, cubeMap.entries)
    {
      ecb := ExecuteNext(world, b0, roots, j, settings, foot, cubeMap, ecb);
      j := j + 1;
    }
    assert roots[..j] == roots;
  }

  /**
   * The system update. Without any request, settings, prefab or map nothing
   * changes. Otherwise every anchor in query order records its creations and
   * the removal of its request and preview, its counter is bumped in place,
   * and the buffer is played back.
   */
  method Update(world: World, cubeMap: Occupancy.OccupiedCubeMap?, settings: Option<ExtendSettings>)
    requires world.Valid()
    modifies world`blocks, world`holders, world`nextId
    ensures world.Valid()
    ensures !HasWork(old(world.State()), settings, cubeMap != null) ==> world.State() == old(world.State())
    ensures HasWork(old(world.State()), settings, cubeMap != null) ==>
              world.State() == Executed(old(world.State()), settings.value, FootCell(old(world.foot)), old(cubeMap.entries))
  {
    if |Select(world.blocks, world.nextId, HasRequest)| == 0 || settings.None?
       || settings.value.cubePrefab == NullEntity || cubeMap == null {
      return;
    }
    var foot := FootCell(world.foot);
    var occ := cubeMap.entries;
    var roots := Select(world.blocks, world.nextId, IsRoot);
    ghost var b0 := world.blocks;
    var ecb := ExecuteAll(world, roots, settings.value, foot, cubeMap);
    ghost var bumped := world.State();
    assert bumped == Store(Mapped(b0, IsRoot, BumpRoot(foot, occ)), old(world.holders), old(world.nextId));
    world.Playback(ecb);
  }
}
