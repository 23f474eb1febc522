/**
 * The crosshair-driven extension manager. Each frame it finds the selected
 * anchor; pressing the left button starts a session, holding it previews the
 * longest free run toward the sampled length, releasing it commits the
 * preview as an execution request, and the right button cancels a preview or,
 * when idle, asks for every chain of the selected anchor to be retracted.
 *
 * Camera and ray geometry are inputs: the axis chosen on press, the axis and
 * length sampled while holding, and whether the release ray still hits the
 * selected cube.
 */
module CrosshairExtend {
  import opened Grid
  import opened Components
  import opened EcsWorld
  import Occupancy
  import ExtendPreviewSystem
  import RetractSystem
  import CubeSelection

  /** The six axes in scroll order: +X, -X, +Y, -Y, +Z, then -Z for every other residue. */
  function IndexToAxis(idx: int): (r: Int3)
    ensures IsUnitAxis(r)
  {
    var k := CsRem(idx, 6);
    if k == 0 then Int3(1, 0, 0)
    else if k == 1 then Int3(-1, 0, 0)
    else if k == 2 then Int3(0, 1, 0)
    else if k == 3 then Int3(0, -1, 0)
    else if k == 4 then Int3(0, 0, 1)
    else Int3(0, 0, -1)
  }

  /**
   * The indices 0..5 name the six unit axes, each exactly once; a negative
   * index that is not a multiple of six falls through to -Z.
   */
  lemma IndexToAxisTable(idx: int, d: Int3)
    ensures 0 <= idx < 6 ==> forall j :: 0 <= j < 6 && j != idx ==> IndexToAxis(j) != IndexToAxis(idx)
    ensures IsUnitAxis(d) ==> exists j :: 0 <= j < 6 && IndexToAxis(j) == d
    ensures idx < 0 && CsRem(idx, 6) != 0 ==> IndexToAxis(idx) == Int3(0, 0, -1)
    ensures idx >= 0 ==> IndexToAxis(idx) == IndexToAxis(idx % 6)
  {
    if IsUnitAxis(d) {
      if d == Int3(1, 0, 0) { assert IndexToAxis(0) == d; }
      else if d == Int3(-1, 0, 0) { assert IndexToAxis(1) == d; }
      else if d == Int3(0, 1, 0) { assert IndexToAxis(2) == d; }
      else if d == Int3(0, -1, 0) { assert IndexToAxis(3) == d; }
      else if d == Int3(0, 0, 1) { assert IndexToAxis(4) == d; }
      else { assert IndexToAxis(5) == d; }
    }
    if idx < 0 {
      assert CsRem(idx, 6) <= 0;
    }
  }

  /** The chain ids whose blocks name `root` as their anchor. */
  function RootChains(blocks: map<Entity, Block>, root: Entity): set<int>
  {
    set e | e in blocks && blocks[e].chain.Some? && blocks[e].chain.value.rootEntity == root :: blocks[e].chain.value.chainId
  }

  /** The chain id a commit uses: the session's id, or the clock when no session is active. */
  function SessionId(activeChainId: int, clockMillis: int): int
  {
    if activeChainId < 0 then clockMillis else activeChainId
  }

  /** The blocks after an extension of `len` along `axis` is committed on `anchor`, replacing its pending request. */
  function Committed(blocks: map<Entity, Block>, anchor: Entity, axis: Int3, len: int, chainId: int): map<Entity, Block>
  {
    if anchor in blocks then blocks[anchor := blocks[anchor].(request := Some(ExtendExecutionRequest(axis, len, chainId, 0)))]
    else blocks
  }

  /** The blocks after a release: the commit, when there is one, and then the selection manager's cube unmarked. */
  function ReleasedBlocks(blocks: map<Entity, Block>, anchor: Entity, commit: bool, axis: Int3, len: int, chainId: int,
                          current: Entity): map<Entity, Block>
  {
    CubeSelection.Cleared(if commit then Committed(blocks, anchor, axis, len, chainId) else blocks, current)
  }

  /**
   * A release creates and destroys nothing; it sets the anchor's request
   * when it commits and leaves it otherwise; the deselected cube is no longer
   * marked; only requests and selection marks change, and only on those two
   * cubes.
   */
  lemma ReleasedBlocksEffect(blocks: map<Entity, Block>, anchor: Entity, commit: bool, axis: Int3, len: int, chainId: int,
                             current: Entity)
    requires anchor in blocks
    ensures var r := ReleasedBlocks(blocks, anchor, commit, axis, len, chainId, current);
      && r.Keys == blocks.Keys
      && r[anchor].request == (if commit then Some(ExtendExecutionRequest(axis, len, chainId, 0)) else blocks[anchor].request)
      && (current != NullEntity && current in blocks ==> !CubeSelection.MarkedSelected(r, current))
      && (forall e :: e in blocks && e != anchor && e != current ==> r[e] == blocks[e])
      && (forall e :: e in blocks ==>
            r[e].(request := blocks[e].request, selection := blocks[e].selection, highlight := blocks[e].highlight) == blocks[e])
  {
  }

  /** The preview the press and hold branches of a frame leave behind, given the validated sampled length `held`. */
  function PreviewAfterHold(prev: int, suppress: bool, input: FrameInput, held: int): int
  {
    if input.leftHeld && input.sampledLength > 0 then held
    else if input.leftDown || (input.leftHeld && suppress) then 0
    else prev
  }

  /** The free run the hold branch validates: the clamped sample, checked against occupancy when there is a map. */
  function HeldLength(start: Int3, input: FrameInput, maxLen: int, cubeMap: Occupancy.OccupiedCubeMap?): int
    reads cubeMap
  {
    var target := Clamp(input.sampledLength, 0, maxLen);
    if cubeMap == null then target
    else ExtendPreviewSystem.CalculateValidLength(start, input.sampledAxis, target, cubeMap.entries)
  }

  /** What the frame's input and camera geometry supply. */
  datatype FrameInput = FrameInput(
    leftDown: bool,
    leftHeld: bool,
    leftUp: bool,
    rightDown: bool,
    /** The axis fixed on press, already turned to face the view ray. */
    pressAxis: Int3,
    /** The axis and length sampled from the view ray while holding. */
    sampledAxis: Int3,
    sampledLength: int,
    /** The release ray still hits the selected cube's proxy. */
    releaseOnSelected: bool,
    /** Time.time * 1000, truncated: the id given to a new session's chain. */
    clockMillis: int)

  class CrosshairExtendManager {
    const maxExtendLength: int
    const allowScrollAxisCycle: bool
    var selected: Entity
    var lastSelected: Entity
    var axisDir: Int3
    var spawnedLength: int
    var activeChainId: int
    var lastComputedLen: int
    var selectedAxisIndex: int
    var axisPickedByDrag: bool
    var currentPreviewLen: int
    var baseProjSet: bool
    var baseAxis: Int3
    var isDragging: bool
    var suppressPreviewOneFrame: bool

    /** The preview never exceeds the extension cap, and the scroll index is -1 (unset) or an axis index. */
    predicate Valid()
      reads this
    {
      && 0 <= currentPreviewLen <= Max(0, maxExtendLength)
      && -1 <= selectedAxisIndex <= 5
    }

    constructor (maxExtendLength: int, allowScrollAxisCycle: bool)
      ensures Valid() && this.maxExtendLength == maxExtendLength && this.allowScrollAxisCycle == allowScrollAxisCycle
      ensures selected == NullEntity && activeChainId == -1 && selectedAxisIndex == -1 && currentPreviewLen == 0
    {
      this.maxExtendLength := maxExtendLength;
      this.allowScrollAxisCycle := allowScrollAxisCycle;
      selected := NullEntity;
      lastSelected := NullEntity;
      axisDir := Zero3;
      spawnedLength := 0;
      activeChainId := -1;
      lastComputedLen := 0;
      selectedAxisIndex := -1;
      axisPickedByDrag := false;
      currentPreviewLen := 0;
      baseProjSet := false;
      baseAxis := Zero3;
      isDragging := false;
      suppressPreviewOneFrame := false;
    }

    /**
     * The free run toward `requestedLen`: the requested length itself (at
     * least 0) when there is no occupancy map, otherwise the longest free
     * prefix, as the preview system computes it.
     */
    method ValidateTargetLength(startPos: Int3, axis: Int3, requestedLen: int, cubeMap: Occupancy.OccupiedCubeMap?)
      returns (valid: int)
      ensures cubeMap == null ==> valid == Max(0, requestedLen)
      ensures cubeMap != null ==> valid == ExtendPreviewSystem.CalculateValidLength(startPos, axis, requestedLen, cubeMap.entries)
    {
      var req := Max(0, requestedLen);
      if cubeMap == null {
        return req;
      }
      valid := 0;
      var i := 1;
      while i <= req
        invariant 1 <= i <= req + 1 && valid == i - 1
        invariant forall k :: 1 <= k < i ==> Along(startPos, axis, k) !in cubeMap.entries
      {
        if cubeMap.ContainsKey(Along(startPos, axis, i)) {
          break;
        }
        valid := i;
        i := i + 1;
      }
      ExtendPreviewSystem.ValidLengthUnique(startPos, axis, requestedLen, cubeMap.entries, valid);
    }

    /**
     * Finds the selected anchor: the first anchor, in query order, whose
     * SelectionState says selected, or Null. A change of anchor resets the
     * axis and the session.
     */
    method UpdateSelected(world: World)
      requires world.Valid()
      modifies this`selected, this`lastSelected, this`axisDir, this`spawnedLength, this`activeChainId,
               this`axisPickedByDrag, this`baseProjSet, this`baseAxis
      ensures selected != NullEntity ==> selected in world.blocks && CubeSelection.IsSelectedAnchor(world.blocks[selected])
      ensures selected != NullEntity ==> forall e :: e in world.blocks && CubeSelection.IsSelectedAnchor(world.blocks[e]) ==> selected <= e
      ensures selected == NullEntity ==> forall e :: e in world.blocks ==> !CubeSelection.IsSelectedAnchor(world.blocks[e])
      ensures lastSelected == selected
      ensures selected != old(lastSelected) ==>
                axisDir == Zero3 && spawnedLength == 0 && activeChainId == -1
      ensures selected == old(lastSelected) ==>
                axisDir == old(axisDir) && spawnedLength == old(spawnedLength) && activeChainId == old(activeChainId)
    {
      selected := CubeSelection.FindSelectedAnchor(world);
      if selected != lastSelected {
        axisDir := Zero3;
        spawnedLength := 0;
        activeChainId := -1;
        lastSelected := selected;
        axisPickedByDrag := false;
        baseProjSet := false;
        baseAxis := Zero3;
      }
    }

    /** Gives the session a chain id when it has none. */
    method EnsureSession(clockMillis: int)
      modifies this`activeChainId, this`spawnedLength
      ensures old(activeChainId) < 0 ==> activeChainId == clockMillis && spawnedLength == 0
      ensures old(activeChainId) >= 0 ==> activeChainId == old(activeChainId) && spawnedLength == old(spawnedLength)
    {
      if activeChainId < 0 {
        activeChainId := clockMillis;
        spawnedLength := 0;
      }
    }

    method ResetSession(endKeep: int)
      modifies this`activeChainId, this`spawnedLength
      ensures activeChainId == -1 && spawnedLength == endKeep
    {
      activeChainId := -1;
      spawnedLength := endKeep;
    }

    /**
     * Commits an extension of `finalLength` along the current axis from
     * offset 0, replacing any pending request of the selected anchor.
     * Nothing happens without a selection or with a length of 0 or less.
     */
    method ConfirmExtend(world: World, finalLength: int, clockMillis: int)
      requires world.Valid() && (selected == NullEntity || selected in world.blocks)
      modifies world`blocks, this`activeChainId
      ensures world.Valid()
      ensures selected == NullEntity || finalLength <= 0 ==>
                world.blocks == old(world.blocks) && activeChainId == old(activeChainId)
      ensures selected != NullEntity && finalLength > 0 ==>
                && activeChainId == SessionId(old(activeChainId), clockMillis)
                && world.blocks == Committed(old(world.blocks), selected, axisDir, finalLength, activeChainId)
    {
      if selected == NullEntity || finalLength <= 0 {
        return;
      }
      if world.blocks[selected].request.Some? {
        world.SetBlock(selected, world.blocks[selected].(request := None));
      }
      if activeChainId < 0 {
        activeChainId := clockMillis;
      }
      world.SetBlock(selected, world.blocks[selected].(request := Some(ExtendExecutionRequest(axisDir, finalLength, activeChainId, 0))));
    }

    /** The distinct chain ids anchored at the selection, gathered by one pass over the chain query. */
    method CollectRootChains(world: World) returns (chainIds: set<int>)
      requires world.Valid()
      ensures chainIds == RootChains(world.blocks, selected)
    {
      var es := Select(world.blocks, world.nextId, RetractSystem.HasChain);
      SelectSpec(world.blocks, world.nextId, RetractSystem.HasChain);
      chainIds := {};
      for i := 0 to |es|
        invariant chainIds == set k | 0 <= k < i && world.blocks[es[k]].chain.value.rootEntity == selected
                                     :: world.blocks[es[k]].chain.value.chainId
      {
        var data := world.blocks[es[i]].chain.value;
        if data.rootEntity == selected {
          chainIds := chainIds + {data.chainId};
        }
      }
      forall id | id in RootChains(world.blocks, selected)
        ensures id in chainIds
      {
        var e :| e in world.blocks && world.blocks[e].chain.Some? && world.blocks[e].chain.value.rootEntity == selected
                 && world.blocks[e].chain.value.chainId == id;
        assert e in es;
        var k :| 0 <= k < |es| && es[k] == e;
      }
    }

    /**
     * One retraction request, for the whole chain, per distinct chain id
     * anchored at the selection; none when it anchors no chain. Their order
     * is left open, as a hash set enumerates them.
     */
    method RetractAllChainsOfSelectedRoot(world: World) returns (requests: seq<RetractRequest>)
      requires world.Valid()
      ensures forall r :: r in requests ==> r.retractWholeChain && r.targetLength == 0
      ensures (set r | r in requests :: r.chainId) == RootChains(world.blocks, selected)
      ensures |requests| == |RootChains(world.blocks, selected)|
    {
      var chainIds := CollectRootChains(world);
      requests := [];
      var remaining := chainIds;
      while remaining != {}
        invariant remaining <= chainIds
        invariant forall r :: r in requests ==> r.retractWholeChain && r.targetLength == 0
        invariant (set r | r in requests :: r.chainId) == chainIds - remaining
        invariant |requests| + |remaining| == |chainIds|
        decreases |remaining|
      {
        var id :| id in remaining;
        var next := RetractRequest(id, true, 0);
        assert (set r | r in requests + [next] :: r.chainId) == (set r | r in requests :: r.chainId) + {id};
        requests := requests + [next];
        remaining := remaining - {id};
      }
    }

    /** The press branch: a session is ensured, the axis fixed, and a fresh preview starts at 0. */
    method Press(input: FrameInput)
      requires Valid()
      modifies this`activeChainId, this`spawnedLength, this`axisDir, this`baseAxis, this`baseProjSet,
               this`currentPreviewLen, this`isDragging, this`suppressPreviewOneFrame
      ensures Valid()
      ensures axisDir == input.pressAxis && baseAxis == input.pressAxis && baseProjSet
      ensures currentPreviewLen == 0 && isDragging && suppressPreviewOneFrame
      ensures old(activeChainId) < 0 ==> activeChainId == input.clockMillis
      ensures old(activeChainId) >= 0 ==> activeChainId == old(activeChainId)
    {
      EnsureSession(input.clockMillis);
      axisDir := input.pressAxis;
      baseAxis := axisDir;
      baseProjSet := true;
      currentPreviewLen := 0;
      isDragging := true;
      suppressPreviewOneFrame := true;
    }

    /**
     * The hold branch: the sampled axis is taken; the first frame after a
     * press clears the preview; a positive sampled length, clamped to the
     * cap, is validated against occupancy from the anchor's cell. The
     * suppression only zeroes the preview, so a positive sample on that same
     * frame still produces a preview.
     */
    method Hold(world: World, cubeMap: Occupancy.OccupiedCubeMap?, input: FrameInput)
      requires Valid() && world.Valid() && selected in world.blocks
      modifies this`activeChainId, this`spawnedLength, this`axisDir, this`lastComputedLen,
               this`suppressPreviewOneFrame, this`currentPreviewLen
      ensures Valid()
      ensures axisDir == input.sampledAxis && lastComputedLen == input.sampledLength && !suppressPreviewOneFrame
      ensures input.sampledLength > 0 && cubeMap == null ==>
                currentPreviewLen == Clamp(input.sampledLength, 0, maxExtendLength)
      ensures input.sampledLength > 0 && cubeMap != null ==>
                currentPreviewLen == ExtendPreviewSystem.CalculateValidLength(
                  world.blocks[selected].cell, input.sampledAxis, Clamp(input.sampledLength, 0, maxExtendLength), cubeMap.entries)
      ensures input.sampledLength <= 0 ==>
                currentPreviewLen == if old(suppressPreviewOneFrame) then 0 else old(currentPreviewLen)
      ensures currentPreviewLen == PreviewAfterHold(old(currentPreviewLen), old(suppressPreviewOneFrame),
                                                    input.(leftDown := false, leftHeld := true),
                                                    HeldLength(world.blocks[selected].cell, input, maxExtendLength, cubeMap))
      ensures old(activeChainId) < 0 ==> activeChainId == input.clockMillis
      ensures old(activeChainId) >= 0 ==> activeChainId == old(activeChainId)
    {
      EnsureSession(input.clockMillis);
      axisDir := input.sampledAxis;
      lastComputedLen := input.sampledLength;
      if suppressPreviewOneFrame {
        suppressPreviewOneFrame := false;
        currentPreviewLen := 0;
      }
      if input.sampledLength > 0 {
        var startPos := world.blocks[selected].cell;
        var clampedTarget := Clamp(input.sampledLength, 0, maxExtendLength);
        currentPreviewLen := ValidateTargetLength(startPos, axisDir, clampedTarget, cubeMap);
      }
    }

    /**
     * The release branch: the preview is committed when it is positive and
     * the ray has left the selected cube; the session and drag state are
     * always reset and the selection is dropped.
     */
    method Release(world: World, selection: CubeSelection.CubeSelectionManager?, input: FrameInput)
      requires Valid() && world.Valid() && selected in world.blocks
      modifies this`activeChainId, this`spawnedLength, this`axisPickedByDrag, this`currentPreviewLen,
               this`baseProjSet, this`isDragging, world`blocks
      modifies if selection != null then {selection} else {}
      ensures Valid() && world.Valid()
      ensures world.blocks.Keys == old(world.blocks).Keys
      ensures !input.releaseOnSelected && old(currentPreviewLen) > 0 ==>
                world.blocks[selected].request == Some(ExtendExecutionRequest(axisDir, old(currentPreviewLen),
                  if old(activeChainId) < 0 then input.clockMillis else old(activeChainId), 0))
      ensures input.releaseOnSelected || old(currentPreviewLen) <= 0 ==>
                world.blocks[selected].request == old(world.blocks)[selected].request
      ensures world.blocks == ReleasedBlocks(old(world.blocks), selected, !input.releaseOnSelected && old(currentPreviewLen) > 0,
                                             axisDir, old(currentPreviewLen), SessionId(old(activeChainId), input.clockMillis),
                                             if selection != null then old(selection.currentSelection) else NullEntity)
      ensures activeChainId == -1 && spawnedLength == 0 && currentPreviewLen == 0 && !isDragging && !baseProjSet
      ensures selection != null ==> selection.currentSelection == NullEntity
    {
      if !input.releaseOnSelected && currentPreviewLen > 0 {
        ConfirmExtend(world, currentPreviewLen, input.clockMillis);
      }
      EndDrag(world, selection);
    }

    /** The end of a release: the session and the drag state are reset and the selection is dropped. */
    method EndDrag(world: World, selection: CubeSelection.CubeSelectionManager?)
      requires world.Valid() && selected in world.blocks
      modifies this`activeChainId, this`spawnedLength, this`axisPickedByDrag, this`currentPreviewLen,
               this`baseProjSet, this`isDragging, world`blocks
      modifies if selection != null then {selection} else {}
      ensures world.Valid() && world.blocks.Keys == old(world.blocks).Keys
      ensures world.blocks[selected].request == old(world.blocks)[selected].request
      ensures world.blocks == CubeSelection.Cleared(old(world.blocks), if selection != null then old(selection.currentSelection) else NullEntity)
      ensures activeChainId == -1 && spawnedLength == 0 && currentPreviewLen == 0 && !isDragging && !baseProjSet
      ensures selection != null ==> selection.currentSelection == NullEntity
    {
      ResetSession(0);
      if selection != null {
        selection.DeselectAll(world);
      }
      axisPickedByDrag := false;
      currentPreviewLen := 0;
      baseProjSet := false;
      isDragging := false;
    }

    /**
     * The right button: an active preview or drag is cancelled, without
     * retracting anything; only an idle manager with a live selection asks
     * for the selected anchor's chains to be retracted.
     */
    method RightClick(world: World) returns (requests: seq<RetractRequest>)
      requires Valid() && world.Valid()
      modifies this`currentPreviewLen, this`axisPickedByDrag, this`baseProjSet, this`isDragging
      ensures Valid()
      ensures old(currentPreviewLen) > 0 || old(isDragging) ==> requests == [] && currentPreviewLen == 0 && !isDragging
      ensures !(old(currentPreviewLen) > 0 || old(isDragging)) ==> currentPreviewLen == old(currentPreviewLen) && !isDragging
      ensures !(old(currentPreviewLen) > 0 || old(isDragging)) && selected != NullEntity && selected in world.blocks ==>
                && (set r | r in requests :: r.chainId) == RootChains(world.blocks, selected)
                && |requests| == |RootChains(world.blocks, selected)|
                && (forall r :: r in requests ==> r.retractWholeChain && r.targetLength == 0)
      ensures !(old(currentPreviewLen) > 0 || old(isDragging)) && !(selected != NullEntity && selected in world.blocks) ==>
                requests == []
    {
      requests := [];
      if currentPreviewLen > 0 || isDragging {
        currentPreviewLen := 0;
        axisPickedByDrag := false;
        baseProjSet := false;
        isDragging := false;
      } else if selected != NullEntity && selected in world.blocks {
        requests := RetractAllChainsOfSelectedRoot(world);
      }
    }

    /**
     * Scroll-wheel axis cycling, before anything is spawned: a first scroll
     * starts from index 0, then the index steps forward (+1) or back (+5)
     * modulo 6.
     */
    method HandleAxisCycle(scroll: real)
      requires Valid()
      modifies this`selectedAxisIndex
      ensures Valid()
      ensures !allowScrollAxisCycle || spawnedLength > 0 || (-0.0001 <= scroll <= 0.0001) ==>
                selectedAxisIndex == old(selectedAxisIndex)
      ensures allowScrollAxisCycle && spawnedLength <= 0 && scroll > 0.0001 ==>
                selectedAxisIndex == (Max(0, old(selectedAxisIndex)) + 1) % 6
      ensures allowScrollAxisCycle && spawnedLength <= 0 && scroll < -0.0001 ==>
                selectedAxisIndex == (Max(0, old(selectedAxisIndex)) + 5) % 6
    {
      if !allowScrollAxisCycle || spawnedLength > 0 {
        return;
      }
      if scroll > 0.0001 || scroll < -0.0001 {
        if selectedAxisIndex < 0 {
          selectedAxisIndex := 0;
        }
        selectedAxisIndex := if scroll > 0.0 then CsRem(selectedAxisIndex + 1, 6) else CsRem(selectedAxisIndex + 5, 6);
      }
    }

    /**
     * The left-button branches of a frame with a selected anchor: press, hold
     * and release, in that order, for the inputs the frame carries.
     */
    method LeftButton(world: World, cubeMap: Occupancy.OccupiedCubeMap?, selection: CubeSelection.CubeSelectionManager?,
                      input: FrameInput)
      requires Valid() && world.Valid() && selected != NullEntity && selected in world.blocks
      modifies this`activeChainId, this`spawnedLength, this`axisDir, this`baseAxis, this`baseProjSet,
               this`currentPreviewLen, this`isDragging, this`suppressPreviewOneFrame, this`lastComputedLen,
               this`axisPickedByDrag, world`blocks
      modifies if selection != null then {selection} else {}
      ensures Valid() && world.Valid() && world.blocks.Keys == old(world.blocks).Keys
      ensures !input.leftUp ==>
                && world.blocks == old(world.blocks)
                && currentPreviewLen == PreviewAfterHold(old(currentPreviewLen), old(suppressPreviewOneFrame), input,
                                          HeldLength(old(world.blocks)[selected].cell, input, maxExtendLength, cubeMap))
                && isDragging == (input.leftDown || old(isDragging))
      ensures input.leftHeld ==> axisDir == input.sampledAxis
      ensures input.leftDown && !input.leftHeld ==> axisDir == input.pressAxis
      ensures input.leftUp ==>
                var len := PreviewAfterHold(old(currentPreviewLen), old(suppressPreviewOneFrame), input,
                                            HeldLength(old(world.blocks)[selected].cell, input, maxExtendLength, cubeMap));
                && world.blocks == ReleasedBlocks(old(world.blocks), selected, !input.releaseOnSelected && len > 0, axisDir, len,
                                      SessionId(old(activeChainId), input.clockMillis),
                                      if selection != null then old(selection.currentSelection) else NullEntity)
                && activeChainId == -1 && spawnedLength == 0 && currentPreviewLen == 0 && !isDragging
    {
      ghost var cell := world.blocks[selected].cell;
      if input.leftDown {
        Press(input);
      }
      if input.leftHeld {
        Hold(world, cubeMap, input);
      }
      assert currentPreviewLen == PreviewAfterHold(old(currentPreviewLen), old(suppressPreviewOneFrame), input,
                                                   HeldLength(cell, input, maxExtendLength, cubeMap));
      assert SessionId(activeChainId, input.clockMillis) == SessionId(old(activeChainId), input.clockMillis);
      if input.leftUp {
        Release(world, selection, input);
      }
    }

    /**
     * One frame. Without a selected anchor the session ends and nothing else
     * runs; otherwise the press, hold, release and right-button branches run
     * in that order for the inputs the frame carries.
     */
    method Update(world: World, cubeMap: Occupancy.OccupiedCubeMap?, selection: CubeSelection.CubeSelectionManager?,
                  input: FrameInput)
      returns (retracts: seq<RetractRequest>)
      requires Valid() && world.Valid()
      modifies this, world`blocks
      modifies if selection != null then {selection} else {}
      ensures Valid() && world.Valid()
      ensures selected == NullEntity ==> activeChainId == -1 && world.blocks == old(world.blocks) && retracts == []
      ensures !input.rightDown ==> retracts == []
      ensures selected != NullEntity ==>
                && selected in old(world.blocks) && CubeSelection.IsSelectedAnchor(old(world.blocks)[selected])
                && world.blocks.Keys == old(world.blocks).Keys
      ensures selected != NullEntity ==>
                forall e :: e in old(world.blocks) && CubeSelection.IsSelectedAnchor(old(world.blocks)[e]) ==> selected <= e
      ensures selected == NullEntity ==> forall e :: e in old(world.blocks) ==> !CubeSelection.IsSelectedAnchor(old(world.blocks)[e])
      // the press and hold branches only move the preview and the axis
      ensures selected != NullEntity && !input.leftUp ==> world.blocks == old(world.blocks)
      ensures selected != NullEntity && !input.leftUp && !input.rightDown ==>
                currentPreviewLen == PreviewAfterHold(old(currentPreviewLen), old(suppressPreviewOneFrame), input,
                                          HeldLength(old(world.blocks)[selected].cell, input, maxExtendLength, cubeMap))
      ensures selected != NullEntity && input.leftHeld ==> axisDir == input.sampledAxis
      ensures selected != NullEntity && input.leftDown && !input.leftHeld ==> axisDir == input.pressAxis
      ensures selected != NullEntity && input.leftDown && !input.leftUp && !input.rightDown ==> isDragging
      // the release branch commits the preview it finds and drops the selection
      ensures selected != NullEntity && input.leftUp ==>
                var len := PreviewAfterHold(old(currentPreviewLen), old(suppressPreviewOneFrame), input,
                                            HeldLength(old(world.blocks)[selected].cell, input, maxExtendLength, cubeMap));
                && world.blocks == ReleasedBlocks(old(world.blocks), selected, !input.releaseOnSelected && len > 0, axisDir, len,
                                      SessionId(if selected != old(lastSelected) then -1 else old(activeChainId), input.clockMillis),
                                      if selection != null then old(selection.currentSelection) else NullEntity)
                && activeChainId == -1 && spawnedLength == 0 && currentPreviewLen == 0 && !isDragging
      // the right button cancels a live preview or drag, and otherwise retracts every chain of the anchor
      ensures selected != NullEntity && input.rightDown ==>
                var len := PreviewAfterHold(old(currentPreviewLen), old(suppressPreviewOneFrame), input,
                                            HeldLength(old(world.blocks)[selected].cell, input, maxExtendLength, cubeMap));
                var cancels := !input.leftUp && (len > 0 || input.leftDown || old(isDragging));
                && (cancels ==> retracts == [] && currentPreviewLen == 0 && !isDragging)
                && (!cancels ==> && (set r | r in retracts :: r.chainId) == RootChains(world.blocks, selected)
                                 && |retracts| == |RootChains(world.blocks, selected)|
                                 && (forall r :: r in retracts ==> r.retractWholeChain && r.targetLength == 0))
    {
      retracts := [];
      UpdateSelected(world);
      if selected == NullEntity {
        ResetSession(spawnedLength);
        return;
      }
      LeftButton(world, cubeMap, selection, input);
      if input.rightDown {
        retracts := RightClick(world);
      }
    }
  }
}
