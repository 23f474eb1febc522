/**
 * The layout spawner: each holder entity carrying a spawner and a cell
 * buffer instantiates a batch of its cells per frame, in buffer order, and
 * drops its spawner once the whole layout is out.
 */
module LayoutSpawn {
  import opened Grid
  import opened Components
  import opened EcsWorld

  /** The interactable rule: cells of type 1. */
  predicate ShouldBeInteractable(cell: CubeCell)
  {
    cell.typeId == 1
  }

  /**
   * The cube spawned for one layout cell: placed at origin + coord * cellSize,
   * tagged with stage 0, an unregistered grid position at the layout
   * coordinate and the static type; an interactable cube also starts
   * unselected, unlit and able to anchor chains of up to 10 blocks.
   */
  function SpawnedBlock(s: CubeLayoutSpawner, cell: CubeCell): (b: Block)
    ensures b.cell == Add(s.origin, Scale(cell.coord, s.cellSize))
    ensures b.stage == Some(0) && b.cubeType == Some(Static)
    ensures b.gridPos == Some(CubeGridPosition(cell.coord, false))
    ensures b.interactable <==> cell.typeId == 1
    ensures b.extendable.Some? <==> b.interactable
    ensures b.selection.Some? <==> b.interactable
    ensures b.interactable ==> b.extendable == Some(ExtendableTag(10, 0, true)) && b.selection.value.isSelected == 0
    ensures b.chain.None? && b.request.None? && b.preview.None? && b.lifetime.None?
  {
    var base := PrefabAt(Add(s.origin, Scale(cell.coord, s.cellSize))).(
      stage := Some(0),
      gridPos := Some(CubeGridPosition(cell.coord, false)),
      cubeType := Some(Static));
    if ShouldBeInteractable(cell) then
      base.(interactable := true,
            selection := Some(SelectionState(0, 0.0)),
            highlight := Some(HighlightState(0.0, Color4(1.0, 1.0, 0.0, 1.0), 0.0)),
            extendable := Some(ExtendableTag(10, 0, true)))
    else base
  }

  /** The number of cells a spawner instantiates this frame (never above what is left). */
  function Batch(s: CubeLayoutSpawner, total: int): int
  {
    Min(s.spawnPerFrame, total - s.spawnedCount)
  }

  /**
   * The cell buffer is only indexed when a batch is positive, which needs a
   * positive rate; a spawner with a positive rate has a count that is not
   * negative, so the indices stay inside the buffer.
   */
  predicate SpawnIndexSafe(h: Holder)
  {
    h.spawner.Some? ==> h.spawner.value.spawnedCount >= 0 || h.spawner.value.spawnPerFrame <= 0
  }

  predicate AllSafe(holders: map<Entity, Holder>)
  {
    forall e :: e in holders ==> SpawnIndexSafe(holders[e])
  }

  /** The cubes of cells a .. b-1, in buffer order. */
  function CellBlocks(s: CubeLayoutSpawner, cells: seq<CubeCell>, a: int, b: int): (r: seq<Block>)
    requires 0 <= a <= b <= |cells|
    ensures |r| == b - a && forall i :: 0 <= i < b - a ==> r[i] == SpawnedBlock(s, cells[a + i])
  {
    seq(b - a, i requires 0 <= i < b - a => SpawnedBlock(s, cells[a + i]))
  }

  /** Whether the holder still has cells to spawn. */
  predicate Pending(h: Holder)
  {
    h.spawner.Some? && h.spawner.value.spawnedCount < |h.cells|
  }

  /**
   * The cells one holder instantiates this frame: none when it is complete or
   * its batch is not positive, otherwise the next `Batch` cells from its count.
   */
  function BatchBlocks(h: Holder): (r: seq<Block>)
    requires SpawnIndexSafe(h)
    ensures Pending(h) && Batch(h.spawner.value, |h.cells|) > 0 ==>
      var s := h.spawner.value;
      r == CellBlocks(s, h.cells, s.spawnedCount, s.spawnedCount + Batch(s, |h.cells|))
    ensures !Pending(h) || Batch(h.spawner.value, |h.cells|) <= 0 ==> r == []
  {
    if !Pending(h) then []
    else
      var s := h.spawner.value;
      var b := Batch(s, |h.cells|);
      if b <= 0 then [] else CellBlocks(s, h.cells, s.spawnedCount, s.spawnedCount + b)
  }

  function Instantiations(bs: seq<Block>): (r: seq<Command>)
    ensures |r| == |bs| && forall i :: 0 <= i < |bs| ==> r[i] == Instantiate(bs[i])
  {
    seq(|bs|, i requires 0 <= i < |bs| => Instantiate(bs[i]))
  }

  /** A pending holder's count after this frame: raised by the batch. */
  function Advanced(h: Holder): (r: Holder)
    ensures r.cells == h.cells && r.spawner.Some? == h.spawner.Some?
    ensures SpawnIndexSafe(h) ==> SpawnIndexSafe(r)
  {
    if Pending(h) then
      var s := h.spawner.value;
      h.(spawner := Some(s.(spawnedCount := s.spawnedCount + Batch(s, |h.cells|))))
    else h
  }

  /**
   * What one holder records this frame: its instantiations, then the removal
   * of its spawner when this batch completed the layout and removal is asked
   * for. A holder that was already complete records nothing.
   */
  function HolderCommands(e: Entity, h: Holder): seq<Command>
    requires h.spawner.Some? && SpawnIndexSafe(h)
  {
    if !Pending(h) then []
    else
      Instantiations(BatchBlocks(h))
      + (if Advanced(h).spawner.value.spawnedCount >= |h.cells| && h.spawner.value.removeOnComplete == 1
         then [RemoveSpawner(e)] else [])
  }

  /** The commands of all spawner holders below handle `n`, in ascending handle order. */
  function FrameCommands(holders: map<Entity, Holder>, n: nat): seq<Command>
    requires AllSafe(holders)
  {
    if n == 0 then []
    else
      var own := if n - 1 in holders && holders[n - 1].spawner.Some? then HolderCommands(n - 1, holders[n - 1]) else [];
      FrameCommands(holders, n - 1) + own
  }

  /** The holders with the handles below `n` advanced. */
  function AdvancedBelow(holders: map<Entity, Holder>, n: int): (r: map<Entity, Holder>)
    ensures r.Keys == holders.Keys
  {
    map e | e in holders :: if e < n then Advanced(holders[e]) else holders[e]
  }

  /** Advancing one more handle updates that one entry. */
  lemma AdvancedBelowStep(holders: map<Entity, Holder>, n: nat)
    ensures n in holders ==> AdvancedBelow(holders, n + 1) == AdvancedBelow(holders, n)[n := Advanced(holders[n])]
    ensures n !in holders ==> AdvancedBelow(holders, n + 1) == AdvancedBelow(holders, n)
  {
    var a, b := AdvancedBelow(holders, n), AdvancedBelow(holders, n + 1);
    if n in holders {
      assert b.Keys == a[n := Advanced(holders[n])].Keys;
      assert forall k :: k in b ==> b[k] == a[n := Advanced(holders[n])][k];
    } else {
      assert b.Keys == a.Keys;
      assert forall k :: k in b ==> b[k] == a[k];
    }
  }

  /**
   * A pending spawner with a positive rate and a count that is not negative
   * moves strictly forward and lands on min(total, count + rate): it never
   * passes the layout's size.
   */
  lemma SpawnProgress(h: Holder)
    requires Pending(h) && h.spawner.value.spawnPerFrame > 0 && h.spawner.value.spawnedCount >= 0
    ensures var s0 := h.spawner.value.spawnedCount; var s1 := Advanced(h).spawner.value.spawnedCount;
      s0 < s1 <= |h.cells| && s1 == Min(|h.cells|, s0 + h.spawner.value.spawnPerFrame)
  {
  }

  /** The holder after `k` frames. */
  function Frames(h: Holder, k: nat): (r: Holder)
    ensures r.cells == h.cells && r.spawner.Some? == h.spawner.Some?
    ensures h.spawner.Some? ==> r.spawner.value == h.spawner.value.(spawnedCount := r.spawner.value.spawnedCount)
    ensures SpawnIndexSafe(h) ==> SpawnIndexSafe(r)
  {
    if k == 0 then h else Advanced(Frames(h, k - 1))
  }

  /** The cubes a holder instantiates over its first `k` frames, in order. */
  function FramesBlocks(h: Holder, k: nat): seq<Block>
    requires SpawnIndexSafe(h)
  {
    if k == 0 then [] else FramesBlocks(h, k - 1) + BatchBlocks(Frames(h, k - 1))
  }

  /** A spawner with a positive rate that starts inside its buffer. */
  predicate Steady(h: Holder)
  {
    h.spawner.Some? && h.spawner.value.spawnPerFrame > 0 && 0 <= h.spawner.value.spawnedCount <= |h.cells|
  }

  /** The count a steady spawner reaches after `k` frames: min(total, start + k * rate). */
  function Reached(h: Holder, k: nat): (r: int)
    requires Steady(h)
    ensures h.spawner.value.spawnedCount <= r <= |h.cells|
  {
    Min(|h.cells|, h.spawner.value.spawnedCount + k * h.spawner.value.spawnPerFrame)
  }

  /** One more frame adds one more rate, capped at the total. */
  lemma ReachedNext(h: Holder, k: nat)
    requires Steady(h)
    ensures Reached(h, k + 1) == Min(|h.cells|, Reached(h, k) + h.spawner.value.spawnPerFrame)
  {
    var s := h.spawner.value;
    assert s.spawnedCount + (k + 1) * s.spawnPerFrame == s.spawnedCount + k * s.spawnPerFrame + s.spawnPerFrame;
  }

  /** Over `k` frames a steady spawner's count reaches min(total, start + k * rate). */
  lemma {:induction false} FramesCount(h: Holder, k: nat)
    requires Steady(h)
    ensures Frames(h, k).spawner.value == h.spawner.value.(spawnedCount := Reached(h, k))
  {
    if k > 0 {
      FramesCount(h, k - 1);
      ReachedNext(h, k - 1);
    }
  }

  lemma CellBlocksSplit(s: CubeLayoutSpawner, cells: seq<CubeCell>, a: int, b: int, c: int)
    requires 0 <= a <= b <= c <= |cells|
    ensures CellBlocks(s, cells, a, b) + CellBlocks(s, cells, b, c) == CellBlocks(s, cells, a, c)
  {
  }

  /** The batch of frame `k + 1` covers the cells between the counts reached before and after it. */
  lemma FrameBatch(h: Holder, k: nat)
    requires Steady(h)
    ensures Reached(h, k) <= Reached(h, k + 1)
    ensures BatchBlocks(Frames(h, k)) == CellBlocks(h.spawner.value, h.cells, Reached(h, k), Reached(h, k + 1))
  {
    var s := h.spawner.value;
    FramesCount(h, k);
    ReachedNext(h, k);
    var prev, reached := Reached(h, k), Reached(h, k + 1);
    var f := Frames(h, k);
    if prev < |h.cells| {
      assert BatchBlocks(f) == CellBlocks(s, h.cells, prev, reached);
    } else {
      assert BatchBlocks(f) == [];
      assert CellBlocks(s, h.cells, prev, reached) == [];
    }
  }

  /**
   * Over `k` frames a steady spawner instantiates exactly the cubes of the
   * cells from its start up to min(total, start + k * rate), each once and in
   * buffer order.
   */
  lemma {:induction false} SpawnsInOrder(h: Holder, k: nat)
    requires Steady(h)
    ensures FramesBlocks(h, k) == CellBlocks(h.spawner.value, h.cells, h.spawner.value.spawnedCount, Reached(h, k))
  {
    if k > 0 {
      SpawnsInOrder(h, k - 1);
      FrameBatch(h, k - 1);
      CellBlocksSplit(h.spawner.value, h.cells, h.spawner.value.spawnedCount, Reached(h, k - 1), Reached(h, k));
    }
  }

  /**
   * The per-holder step: the batch's instantiations, recorded one cell at a
   * time, and the spawner's removal when complete.
   */
  method SpawnBatch(e: Entity, h: Holder) returns (cmds: seq<Command>)
    requires h.spawner.Some? && SpawnIndexSafe(h)
    ensures cmds == HolderCommands(e, h)
  {
    var s := h.spawner.value;
    var total := |h.cells|;
    var spawned := s.spawnedCount;
    if spawned >= total {
      return [];
    }
    var batch := Min(s.spawnPerFrame, total - spawned);
    cmds := [];
    var i := 0;
    while i < batch
      invariant 0 <= i <= Max(0, batch)
      invariant cmds == Instantiations(BatchBlocks(h)[..i])
    {
      assert Instantiations(BatchBlocks(h)[..i + 1]) == Instantiations(BatchBlocks(h)[..i]) + [Instantiate(BatchBlocks(h)[i])];
      cmds := cmds + [Instantiate(SpawnedBlock(s, h.cells[spawned + i]))];
      i := i + 1;
    }
    assert BatchBlocks(h)[..i] == BatchBlocks(h);
    if spawned + batch >= total && s.removeOnComplete == 1 {
      cmds := cmds + [RemoveSpawner(e)];
    }
  }

  /**
   * The pass over the holders: every holder with a spawner, in handle order,
   * records its batch and has its count raised.
   */
  method SpawnAll(h0: map<Entity, Holder>, n: nat) returns (holders: map<Entity, Holder>, ecb: seq<Command>)
    requires AllSafe(h0)
    ensures holders == AdvancedBelow(h0, n) && ecb == FrameCommands(h0, n)
  {
    holders := h0;
    ecb := [];
    var e := 0;
    while e < n
      invariant 0 <= e <= n
      invariant holders == AdvancedBelow(h0, e)
      invariant ecb == FrameCommands(h0, e)
    {
      AdvancedBelowStep(h0, e);
      if e in holders && holders[e].spawner.Some? {
        var h := holders[e];
        var cmds := SpawnBatch(e, h);
        ecb := ecb + cmds;
        holders := holders[e := Advanced(h)];
      } else if e in holders {
        assert holders == holders[e := Advanced(h0[e])];
      }
      e := e + 1;
    }
  }

  /**
   * The system update: the pass over the holders writes the raised counts in
   * place, and the recorded buffer is played back at the end.
   */
  method Update(world: World)
    requires world.Valid() && AllSafe(world.holders)
    modifies world`blocks, world`holders, world`nextId
    ensures world.Valid()
    ensures world.State() == ApplyAll(Store(old(world.blocks), AdvancedBelow(old(world.holders), old(world.nextId)), old(world.nextId)),
                                      FrameCommands(old(world.holders), old(world.nextId)))
  {
    var holders, ecb := SpawnAll(world.holders, world.nextId);
    world.holders := holders;
    world.Playback(ecb);
  }
}
