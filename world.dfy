/**
 * The entity world: an arena of entity handles, the components attached to
 * each live entity, and the deferred command buffer that systems fill during
 * an update and play back at its end.
 *
 * Entity queries enumerate the matching entities in ascending handle order.
 */
module EcsWorld {
  import opened Grid
  import opened Components

  /**
   * A cube entity with the components the modelled systems read or write.
   * `cell` is the cube's LocalTransform position, which always lies on the
   * lattice in this model. `alpha` is the per-instance base colour alpha, when
   * the cube carries a base colour.
   */
  datatype Block = Block(
    cell: Int3,
    gridPos: Option<CubeGridPosition>,
    cubeType: Option<CubeType>,
    stage: Option<int>,
    chain: Option<ExtendChainData>,
    lifetime: Option<ExtendedLifetime>,
    alpha: Option<real>,
    extendable: Option<ExtendableTag>,
    interactable: bool,
    preview: Option<ExtendPreview>,
    request: Option<ExtendExecutionRequest>,
    inputRequest: Option<InputExtendRequest>,
    selection: Option<SelectionState>,
    highlight: Option<HighlightState>,
    variant: Option<int>,
    stepTriggered: bool,
    colliderProxy: bool,
    needsCollider: bool,
    danceIndex: Option<int>,
    dismantle: Option<DanceDismantle>)

  /** A freshly instantiated prefab placed at `cell`, before any component is added. */
  function PrefabAt(cell: Int3): Block
  {
    Block(cell, None, None, None, None, None, None, None, false, None, None, None,
          None, None, None, false, false, false, None, None)
  }

  /** A layout holder entity: an optional spawner and its cell buffer. */
  datatype Holder = Holder(spawner: Option<CubeLayoutSpawner>, cells: seq<CubeCell>)

  /** The structural part of the world: live entities and the next free handle. */
  datatype Store = Store(blocks: map<Entity, Block>, holders: map<Entity, Holder>, nextId: nat)

  /** Every live handle is positive, below `nextId`, and names one kind of entity. */
  predicate StoreValid(s: Store)
  {
    && s.nextId >= 1
    && (forall e :: e in s.blocks ==> 1 <= e < s.nextId)
    && (forall e :: e in s.holders ==> 1 <= e < s.nextId)
    && (forall e :: e in s.blocks ==> e !in s.holders)
  }

  predicate Exists(s: Store, e: Entity) { e in s.blocks || e in s.holders }

  /** A deferred structural change, as recorded in an entity command buffer. */
  datatype Command =
    | Instantiate(block: Block)
    | CreateHolder(holder: Holder)
    | DestroyEntity(target: Entity)
    | RemoveRequest(target: Entity)
    | RemovePreview(target: Entity)
    | AddStepTriggered(target: Entity)
    | RemoveSpawner(target: Entity)

  /** Rewrites the block `e` with `f`, when `e` is a live block. */
  function UpdateBlock(blocks: map<Entity, Block>, e: Entity, b: Block): map<Entity, Block>
  {
    if e in blocks then blocks[e := b] else blocks
  }

  /**
   * Plays back one command. Creation takes the next free handle; a command
   * aimed at an entity that no longer exists changes nothing.
   */
  function Apply(s: Store, c: Command): (r: Store)
    requires StoreValid(s)
    ensures StoreValid(r)
    ensures r.nextId == if c.Instantiate? || c.CreateHolder? then s.nextId + 1 else s.nextId
    ensures c.Instantiate? ==> r.blocks == s.blocks[s.nextId := c.block] && r.holders == s.holders
    ensures c.CreateHolder? ==> r.holders == s.holders[s.nextId := c.holder] && r.blocks == s.blocks
    ensures c.DestroyEntity? ==> r.blocks == s.blocks - {c.target} && r.holders == s.holders - {c.target}
    ensures !c.Instantiate? && !c.DestroyEntity? ==> r.blocks.Keys == s.blocks.Keys
    ensures !c.CreateHolder? && !c.DestroyEntity? ==> r.holders.Keys == s.holders.Keys
  {
    match c
    case Instantiate(b) => Store(s.blocks[s.nextId := b], s.holders, s.nextId + 1)
    case CreateHolder(h) => Store(s.blocks, s.holders[s.nextId := h], s.nextId + 1)
    case DestroyEntity(e) => Store(s.blocks - {e}, s.holders - {e}, s.nextId)
    case RemoveRequest(e) =>
      if e in s.blocks then Store(s.blocks[e := s.blocks[e].(request := None)], s.holders, s.nextId) else s
    case RemovePreview(e) =>
      if e in s.blocks then Store(s.blocks[e := s.blocks[e].(preview := None)], s.holders, s.nextId) else s
    case AddStepTriggered(e) =>
      if e in s.blocks then Store(s.blocks[e := s.blocks[e].(stepTriggered := true)], s.holders, s.nextId) else s
    case RemoveSpawner(e) =>
      if e in s.holders then Store(s.blocks, s.holders[e := s.holders[e].(spawner := None)], s.nextId) else s
  }

  /** Plays back a whole command buffer, in recording order. */
  function ApplyAll(s: Store, cs: seq<Command>): (r: Store)
    requires StoreValid(s)
    ensures StoreValid(r)
    ensures r.nextId >= s.nextId
    decreases |cs|
  {
    if cs == [] then s else Apply(ApplyAll(s, cs[..|cs| - 1]), cs[|cs| - 1])
  }

  /** Playing back two buffers one after the other is playing back their concatenation. */
  lemma {:induction false} ApplyAllConcat(s: Store, a: seq<Command>, b: seq<Command>)
    requires StoreValid(s)
    ensures ApplyAll(s, a + b) == ApplyAll(ApplyAll(s, a), b)
    decreases |b|
  {
    if b == [] {
      assert a + b == a;
    } else {
      assert (a + b)[..|a + b| - 1] == a + b[..|b| - 1];
      ApplyAllConcat(s, a, b[..|b| - 1]);
    }
  }

  /** The set of entities listed in `ds`. */
  function Listed(ds: seq<Entity>): set<Entity> { set k | 0 <= k < |ds| :: ds[k] }

  /** One deferred destruction per listed entity, in order. */
  function Destroys(ds: seq<Entity>): (r: seq<Command>)
    ensures |r| == |ds| && forall k :: 0 <= k < |ds| ==> r[k] == DestroyEntity(ds[k])
  {
    seq(|ds|, k requires 0 <= k < |ds| => DestroyEntity(ds[k]))
  }

  /** Playing back deferred destructions removes exactly the listed blocks and creates nothing. */
  lemma {:induction false} ApplyDestroys(s: Store, ds: seq<Entity>)
    requires StoreValid(s)
    ensures ApplyAll(s, Destroys(ds)).blocks == s.blocks - Listed(ds)
    ensures ApplyAll(s, Destroys(ds)).nextId == s.nextId
    decreases |ds|
  {
    if ds != [] {
      var n := |ds| - 1;
      assert Destroys(ds)[..n] == Destroys(ds[..n]);
      ApplyDestroys(s, ds[..n]);
      assert Listed(ds) == Listed(ds[..n]) + {ds[n]};
    }
  }

  /** Entities below `n` that are live blocks satisfying `p`, in ascending order. */
  function Select(blocks: map<Entity, Block>, n: nat, p: Block -> bool): (r: seq<Entity>)
    ensures forall e :: e in r ==> e < n && e in blocks && p(blocks[e])
    decreases n
  {
    if n == 0 then []
    else Select(blocks, n - 1, p) + (if n - 1 in blocks && p(blocks[n - 1]) then [n - 1] else [])
  }

  predicate StrictlyIncreasing(s: seq<Entity>)
  {
    forall i, j :: 0 <= i < j < |s| ==> s[i] < s[j]
  }

  /** A query returns exactly the matching live blocks, each once, in ascending order. */
  lemma {:induction false} SelectSpec(blocks: map<Entity, Block>, n: nat, p: Block -> bool)
    ensures forall e :: e in Select(blocks, n, p) <==> e < n && e in blocks && p(blocks[e])
    ensures StrictlyIncreasing(Select(blocks, n, p))
    decreases n
  {
    if n > 0 {
      SelectSpec(blocks, n - 1, p);
      var prev := Select(blocks, n - 1, p);
      forall i | 0 <= i < |prev| ensures prev[i] < n - 1 {
        assert prev[i] in prev;
      }
    }
  }

  /** Every block matching `p` rewritten by `f`; every other block as it was. */
  function Mapped(blocks: map<Entity, Block>, p: Block -> bool, f: Block -> Block): (r: map<Entity, Block>)
    ensures r.Keys == blocks.Keys
  {
    map e | e in blocks :: if p(blocks[e]) then f(blocks[e]) else blocks[e]
  }

  /** The first `j` entities of `es` have been rewritten by `f`; every other block is as in `b0`. */
  predicate RewrittenUpTo(b0: map<Entity, Block>, es: seq<Entity>, j: int, f: Block -> Block, blocks: map<Entity, Block>)
    requires 0 <= j <= |es| && forall e :: e in es ==> e in b0
  {
    && blocks.Keys == b0.Keys
    && (forall e :: e in b0 && (forall i :: 0 <= i < j ==> es[i] != e) ==> blocks[e] == b0[e])
    && (forall i :: 0 <= i < j ==> blocks[es[i]] == f(b0[es[i]]))
  }

  lemma RewrittenUpToStep(b0: map<Entity, Block>, es: seq<Entity>, j: int, f: Block -> Block,
                          before: map<Entity, Block>)
    requires 0 <= j < |es| && StrictlyIncreasing(es) && forall e :: e in es ==> e in b0
    requires RewrittenUpTo(b0, es, j, f, before)
    ensures es[j] in before && before[es[j]] == b0[es[j]]
    ensures RewrittenUpTo(b0, es, j + 1, f, before[es[j] := f(b0[es[j]])])
  {
    assert forall i :: 0 <= i < j ==> es[i] < es[j];
  }

  lemma RewrittenAll(b0: map<Entity, Block>, n: nat, p: Block -> bool, f: Block -> Block, blocks: map<Entity, Block>)
    requires forall e :: e in b0 ==> e < n
    requires RewrittenUpTo(b0, Select(b0, n, p), |Select(b0, n, p)|, f, blocks)
    ensures blocks == Mapped(b0, p, f)
  {
    var es := Select(b0, n, p);
    SelectSpec(b0, n, p);
    forall e | e in b0
      ensures blocks[e] == Mapped(b0, p, f)[e]
    {
      if p(b0[e]) {
        assert e in es;
        var i :| 0 <= i < |es| && es[i] == e;
      } else {
        assert forall i :: 0 <= i < |es| ==> es[i] != e;
      }
    }
  }

  /**
   * The entity manager. Structural changes go through `Apply`, either at once
   * (`Run`) or from a recorded buffer (`Playback`).
   */
  class World {
    var blocks: map<Entity, Block>
    var holders: map<Entity, Holder>
    var nextId: nat
    /** The PlayerGridFoot singleton, when the player tracker exists. */
    var foot: Option<PlayerGridFoot>
    /** The StageStepProgress singleton, when it exists. */
    var progress: Option<StageStepProgress>
    /** The level-sequence entities, in query order. */
    var sequences: seq<LevelSequence>
    /** Pending single-stage dance starts (their stage indices), in query order. */
    var danceStarts: seq<int>
    /** Pending multi-stage dance sequence starts, in query order. */
    var sequenceStarts: seq<WorldDanceSequenceStart>
    /** Running dance sequences, in query order. */
    var danceSequences: seq<WorldDanceSequenceState>
    /** The WorldDanceState entities (one, when the dance is well formed). */
    var danceStates: seq<WorldDanceState>

    function State(): Store reads this`blocks, this`holders, this`nextId { Store(blocks, holders, nextId) }

    predicate Valid() reads this`blocks, this`holders, this`nextId { StoreValid(State()) }

    constructor ()
      ensures Valid() && blocks == map[] && holders == map[] && foot == None && progress == None
      ensures sequences == [] && danceStarts == [] && sequenceStarts == [] && danceSequences == [] && danceStates == []
    {
      blocks := map[];
      holders := map[];
      nextId := 1;
      foot := None;
      progress := None;
      sequences := [];
      danceStarts, sequenceStarts, danceSequences, danceStates := [], [], [], [];
    }

    /** Performs one structural change immediately. */
    method Run(c: Command)
      requires Valid()
      modifies this`blocks, this`holders, this`nextId
      ensures Valid() && State() == Apply(old(State()), c)
    {
      var r := Apply(State(), c);
      blocks, holders, nextId := r.blocks, r.holders, r.nextId;
    }

    /** Plays back a command buffer at the end of a system update. */
    method Playback(cmds: seq<Command>)
      requires Valid()
      modifies this`blocks, this`holders, this`nextId
      ensures Valid() && State() == ApplyAll(old(State()), cmds)
    {
      var i := 0;
      while i < |cmds|
        invariant 0 <= i <= |cmds|
        invariant Valid() && State() == ApplyAll(old(State()), cmds[..i])
      {
        assert cmds[..i + 1][..i] == cmds[..i];
        Run(cmds[i]);
        i := i + 1;
      }
      assert cmds[..i] == cmds;
    }

    /**
     * An entity query with a per-entity lambda: every live block matching `p`
     * is rewritten in place by `f`, in ascending handle order.
     */
    method ForEach(p: Block -> bool, f: Block -> Block)
      requires Valid()
      modifies this`blocks
      ensures Valid() && blocks == Mapped(old(blocks), p, f)
    {
      var order := Select(blocks, nextId, p);
      SelectSpec(blocks, nextId, p);
      ghost var b0 := blocks;
      var j := 0;
      while j < |order|
        invariant 0 <= j <= |order|
        invariant Valid() && RewrittenUpTo(b0, order, j, f, blocks)
      {
        RewrittenUpToStep(b0, order, j, f, blocks);
        var e := order[j];
        blocks := blocks[e := f(blocks[e])];
        j := j + 1;
      }
      RewrittenAll(b0, nextId, p, f, blocks);
    }

    /** Destroys a block at once, outside any command buffer. */
    method Destroy(e: Entity)
      requires Valid()
      modifies this`blocks
      ensures Valid() && blocks == old(blocks) - {e}
    {
      blocks := blocks - {e};
    }

    /** Writes the components of a live block in place (SetComponentData / AddComponent). */
    method SetBlock(e: Entity, b: Block)
      requires Valid() && e in blocks
      modifies this`blocks
      ensures Valid() && blocks == old(blocks)[e := b]
    {
      blocks := blocks[e := b];
    }
  }
}
