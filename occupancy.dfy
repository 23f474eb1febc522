/**
 * The occupancy index: one map from lattice cell to the cube that occupies
 * it, filled by a registration pass in which only the first claimant of a
 * cell wins, purged of dead handles, and rebuilt larger when it nears its
 * capacity.
 */
module Occupancy {
  import opened Grid
  import opened Components
  import opened EcsWorld

  /** Capacity of the map created with the system, for `estimatedCount` existing cubes. */
  function InitialCapacity(estimatedCount: nat): (c: nat)
    ensures c >= 4096 && c >= 2 * estimatedCount + 256
    ensures c == 4096 || c == 2 * estimatedCount + 256
  {
    Max(Max(1024, estimatedCount * 2 + 256), 4096)
  }

  /** Capacity the map must have while `count` cubes exist: 1.5 times the count plus slack. */
  function NeededCapacity(count: nat): (c: nat)
    ensures c >= 4096 && c >= count + count / 2 + 1024
    ensures c == 4096 || c == count + count / 2 + 1024
  {
    Max(4096, count + count / 2 + 1024)
  }

  /** A cube that asks to be registered: it has a grid position not yet registered. */
  predicate Pending(b: Block)
  {
    b.gridPos.Some? && !b.gridPos.value.isRegistered
  }

  /** A pending cube claims the cell it stands on. */
  predicate Claims(b: Block, k: Int3)
  {
    Pending(b) && b.cell == k
  }

  predicate HasGridPos(b: Block) { b.gridPos.Some? }

  /**
   * The registration job applied to one cube: a registered cube is left alone;
   * otherwise its grid position becomes the cell it stands on and it becomes
   * registered exactly when that cell was free in `m`.
   */
  function RegisterOne(m: map<Int3, Entity>, e: Entity, b: Block): (r: (map<Int3, Entity>, Block))
    requires HasGridPos(b)
    ensures !Pending(b) ==> r == (m, b)
    ensures Pending(b) ==> r.1.gridPos == Some(CubeGridPosition(b.cell, b.cell !in m))
    ensures Pending(b) ==> r.0 == if b.cell in m then m else m[b.cell := e]
    ensures r.1 == b.(gridPos := r.1.gridPos)
  {
    if b.gridPos.value.isRegistered then (m, b)
    else
      var g := if b.gridPos.value.gridPosition != b.cell then CubeGridPosition(b.cell, false) else b.gridPos.value;
      if g.gridPosition !in m then (m[g.gridPosition := e], b.(gridPos := Some(g.(isRegistered := true))))
      else (m, b.(gridPos := Some(g)))
  }

  /** The map after the cubes `es` have been registered one after the other. */
  function RegisterMap(m: map<Int3, Entity>, blocks: map<Entity, Block>, es: seq<Entity>): map<Int3, Entity>
    requires forall e :: e in es ==> e in blocks && HasGridPos(blocks[e])
    decreases |es|
  {
    if es == [] then m
    else
      var e := es[|es| - 1];
      RegisterOne(RegisterMap(m, blocks, es[..|es| - 1]), e, blocks[e]).0
  }

  /**
   * Only the first claimant of a cell wins: an existing entry is never replaced,
   * a new entry appears exactly for cells some pending cube claims, and it holds
   * the earliest such cube.
   */
  lemma {:induction false} FirstClaimantWins(m: map<Int3, Entity>, blocks: map<Entity, Block>, es: seq<Entity>, k: Int3)
    requires forall e :: e in es ==> e in blocks && HasGridPos(blocks[e])
    ensures k in RegisterMap(m, blocks, es) <==> k in m || exists j :: 0 <= j < |es| && Claims(blocks[es[j]], k)
    ensures k in m ==> RegisterMap(m, blocks, es)[k] == m[k]
    ensures forall j :: 0 <= j < |es| && k !in m && Claims(blocks[es[j]], k) &&
                        (forall i :: 0 <= i < j ==> !Claims(blocks[es[i]], k))
                        ==> RegisterMap(m, blocks, es)[k] == es[j]
    decreases |es|
  {
    if es != [] {
      var n := |es| - 1;
      var pre := es[..n];
      assert forall e :: e in pre ==> e in es;
      FirstClaimantWins(m, blocks, pre, k);
      assert forall j :: 0 <= j < n ==> pre[j] == es[j];
      var r := RegisterMap(m, blocks, pre);
      if Claims(blocks[es[n]], k) && k !in r {
        assert RegisterMap(m, blocks, es) == r[k := es[n]];
      }
      forall j | 0 <= j < |es| && k !in m && Claims(blocks[es[j]], k) &&
                 (forall i :: 0 <= i < j ==> !Claims(blocks[es[i]], k))
        ensures RegisterMap(m, blocks, es)[k] == es[j]
      {
        if j < n {
          assert Claims(blocks[pre[j]], k);
        } else {
          assert k !in r;
        }
      }
    }
  }

  /** No cube before position `j` of `es` claims the cell `k`. */
  predicate NoEarlierClaim(blocks: map<Entity, Block>, es: seq<Entity>, j: int, k: Int3)
    requires 0 <= j <= |es| && forall e :: e in es ==> e in blocks
  {
    forall h :: 0 <= h < j ==> !Claims(blocks[es[h]], k)
  }

  /**
   * The cube `es[j]` after the registration pass over `es`: a pending cube takes
   * its cell as grid position and is registered exactly when the cell was free
   * and no earlier cube of the pass claimed it.
   */
  function Registered(m: map<Int3, Entity>, blocks: map<Entity, Block>, es: seq<Entity>, j: int): Block
    requires 0 <= j < |es| && forall e :: e in es ==> e in blocks
  {
    var b := blocks[es[j]];
    if Pending(b) then
      b.(gridPos := Some(CubeGridPosition(b.cell, b.cell !in m && NoEarlierClaim(blocks, es, j, b.cell))))
    else b
  }

  /**
   * After the first `j` cubes of the pass: those cubes are as `Registered`
   * says and every other block is as it was.
   */
  predicate RegisteredUpTo(m: map<Int3, Entity>, b0: map<Entity, Block>, es: seq<Entity>, j: int, blocks: map<Entity, Block>)
    requires 0 <= j <= |es| && forall e :: e in es ==> e in b0
  {
    && blocks.Keys == b0.Keys
    && (forall e :: e in b0 && (forall i :: 0 <= i < j ==> es[i] != e) ==> blocks[e] == b0[e])
    && (forall i :: 0 <= i < j ==> blocks[es[i]] == Registered(m, b0, es, i))
  }

  lemma RegisteredUpToUntouched(m: map<Int3, Entity>, b0: map<Entity, Block>, es: seq<Entity>, j: int, blocks: map<Entity, Block>)
    requires 0 <= j < |es| && StrictlyIncreasing(es) && forall e :: e in es ==> e in b0
    requires RegisteredUpTo(m, b0, es, j, blocks)
    ensures es[j] in blocks && blocks[es[j]] == b0[es[j]]
  {
    assert forall i :: 0 <= i < j ==> es[i] < es[j];
  }

  lemma RegisteredUpToStep(m: map<Int3, Entity>, b0: map<Entity, Block>, es: seq<Entity>, j: int,
                           before: map<Entity, Block>, after: map<Entity, Block>)
    requires 0 <= j < |es| && StrictlyIncreasing(es) && forall e :: e in es ==> e in b0
    requires RegisteredUpTo(m, b0, es, j, before)
    requires es[j] in after && after == before[es[j] := after[es[j]]]
    requires after[es[j]] == Registered(m, b0, es, j)
    ensures RegisteredUpTo(m, b0, es, j + 1, after)
  {
    assert forall i :: 0 <= i < j ==> es[i] < es[j];
  }

  lemma RegisteredUpToAll(m: map<Int3, Entity>, b0: map<Entity, Block>, es: seq<Entity>, blocks: map<Entity, Block>)
    requires forall e :: e in es ==> e in b0
    requires RegisteredUpTo(m, b0, es, |es|, blocks)
    ensures forall j :: 0 <= j < |es| ==> blocks[es[j]] == Registered(m, b0, es, j)
    ensures forall e :: e in b0 && e !in es ==> blocks[e] == b0[e]
    ensures blocks.Keys == b0.Keys
  {
    forall e | e in b0 && e !in es
      ensures blocks[e] == b0[e]
    {
      assert forall i :: 0 <= i < |es| ==> es[i] != e;
    }
  }

  /** One step of the pass: the job on `es[j]` against the map built so far. */
  lemma RegisterStep(m: map<Int3, Entity>, blocks: map<Entity, Block>, es: seq<Entity>, j: int)
    requires 0 <= j < |es| && forall e :: e in es ==> e in blocks && HasGridPos(blocks[e])
    ensures RegisterOne(RegisterMap(m, blocks, es[..j]), es[j], blocks[es[j]])
            == (RegisterMap(m, blocks, es[..j + 1]), Registered(m, blocks, es, j))
  {
    var pre := es[..j];
    assert es[..j + 1][..j] == pre;
    assert forall e :: e in pre ==> e in es;
    var b := blocks[es[j]];
    FirstClaimantWins(m, blocks, pre, b.cell);
    assert forall h :: 0 <= h < j ==> pre[h] == es[h];
  }

  /**
   * The map singleton. `capacity` is the allocated capacity of the underlying
   * hash map; insertion into a full map is not modelled.
   */
  class OccupiedCubeMap {
    var entries: map<Int3, Entity>
    var capacity: nat
    var isInitialized: bool

    /** The singleton created with the system, sized for `estimatedCount` cubes. */
    constructor Create(estimatedCount: nat)
      ensures entries == map[] && isInitialized
      ensures capacity == InitialCapacity(estimatedCount)
    {
      entries := map[];
      capacity := InitialCapacity(estimatedCount);
      isInitialized := true;
    }

    /** A bare map allocated with capacity `c`. */
    constructor Allocate(c: nat)
      ensures entries == map[] && capacity == c && !isInitialized
    {
      entries := map[];
      capacity := c;
      isInitialized := false;
    }

    predicate ContainsKey(key: Int3) reads this { key in entries }

    /** Inserts only into a free cell; an occupied cell keeps its entry. */
    method TryAdd(key: Int3, e: Entity) returns (added: bool)
      modifies this`entries
      ensures added == (key !in old(entries))
      ensures entries == if added then old(entries)[key := e] else old(entries)
      ensures key in entries && (!added ==> entries[key] == old(entries)[key])
    {
      added := key !in entries;
      if added {
        entries := entries[key := e];
      }
    }

    method Remove(key: Int3)
      modifies this`entries
      ensures entries == old(entries) - {key}
    {
      entries := entries - {key};
    }

    /**
     * The growth step of the system update: when the capacity is below what
     * `currentCount` cubes need, a larger map is allocated, every entry is
     * copied with TryAdd, and the new map replaces the old one.
     */
    method Grow(currentCount: nat)
      modifies this`entries, this`capacity
      ensures entries == old(entries)
      ensures capacity >= NeededCapacity(currentCount) && capacity >= old(capacity)
      ensures capacity == if old(capacity) < NeededCapacity(currentCount) then NeededCapacity(currentCount) else old(capacity)
    {
      var needed := NeededCapacity(currentCount);
      if capacity < needed {
        var newMap := new OccupiedCubeMap.Allocate(needed);
        var rest := entries.Keys;
        while rest != {}
          invariant entries == old(entries) && rest <= entries.Keys
          invariant newMap.capacity == needed
          invariant newMap.entries.Keys == entries.Keys - rest
          invariant forall k :: k in newMap.entries ==> newMap.entries[k] == entries[k]
          decreases rest
        {
          var k :| k in rest;
          var _ := newMap.TryAdd(k, entries[k]);
          rest := rest - {k};
        }
        assert newMap.entries == entries;
        entries := newMap.entries;
        capacity := newMap.capacity;
      }
    }

    /**
     * The registration job for one cube: a registered cube returns at once;
     * otherwise its grid position is refreshed from its cell and TryAdd decides
     * whether it becomes registered.
     */
    method Execute(world: World, e: Entity)
      requires world.Valid() && e in world.blocks && HasGridPos(world.blocks[e])
      modifies this`entries, world`blocks
      ensures world.Valid() && e in world.blocks
      ensures (entries, world.blocks[e]) == RegisterOne(old(entries), e, old(world.blocks[e]))
      ensures world.blocks == old(world.blocks)[e := world.blocks[e]]
    {
      var b := world.blocks[e];
      if b.gridPos.value.isRegistered {
        return;
      }
      var g := b.gridPos.value;
      if g.gridPosition != b.cell {
        g := CubeGridPosition(b.cell, false);
      }
      var added := TryAdd(g.gridPosition, e);
      if added {
        g := g.(isRegistered := true);
      }
      world.SetBlock(e, b.(gridPos := Some(g)));
    }

    /**
     * The registration job, run over the cubes with a grid position in query
     * order: each cube ends as `Registered` says, the map as `RegisterMap`
     * says, and cubes without a grid position are untouched.
     */
    method Register(world: World)
      requires world.Valid()
      modifies this`entries, world`blocks
      ensures world.Valid() && world.blocks.Keys == old(world.blocks.Keys)
      ensures entries == RegisterMap(old(entries), old(world.blocks), Select(old(world.blocks), world.nextId, HasGridPos))
      ensures forall e :: e in old(world.blocks) && !HasGridPos(old(world.blocks[e])) ==> world.blocks[e] == old(world.blocks[e])
      ensures var order := Select(old(world.blocks), world.nextId, HasGridPos);
              forall j :: 0 <= j < |order| ==> world.blocks[order[j]] == Registered(old(entries), old(world.blocks), order, j)
    {
      var order := Select(world.blocks, world.nextId, HasGridPos);
      SelectSpec(world.blocks, world.nextId, HasGridPos);
      ghost var m0 := entries;
      ghost var b0 := world.blocks;
      var j := 0;
      while j < |order|
        invariant 0 <= j <= |order|
        invariant world.Valid()
        invariant entries == RegisterMap(m0, b0, order[..j])
        invariant RegisteredUpTo(m0, b0, order, j, world.blocks)
      {
        var e := order[j];
        ghost var before := world.blocks;
        RegisteredUpToUntouched(m0, b0, order, j, before);
        RegisterStep(m0, b0, order, j);
        Execute(world, e);
        RegisteredUpToStep(m0, b0, order, j, before, world.blocks);
        j := j + 1;
      }
      assert order[..j] == order;
      RegisteredUpToAll(m0, b0, order, world.blocks);
    }

    /**
     * Cleanup: collects the cells whose entity no longer exists, then removes
     * them. Afterwards every entry names an existing entity, and every entry
     * whose entity exists is kept.
     */
    method Cleanup(world: World)
      modifies this`entries
      ensures entries == map k | k in old(entries) && Exists(world.State(), old(entries)[k]) :: old(entries)[k]
    {
      var toRemove: seq<Int3> := [];
      var rest := entries.Keys;
      while rest != {}
        invariant rest <= entries.Keys
        invariant forall k :: k in toRemove <==> k in entries.Keys - rest && !Exists(world.State(), entries[k])
        decreases rest
      {
        var k :| k in rest;
        if !Exists(world.State(), entries[k]) {
          toRemove := toRemove + [k];
        }
        rest := rest - {k};
      }
      ghost var m0 := entries;
      var i := 0;
      while i < |toRemove|
        invariant 0 <= i <= |toRemove|
        invariant entries == map k | k in m0 && k !in toRemove[..i] :: m0[k]
      {
        assert toRemove[..i + 1] == toRemove[..i] + [toRemove[i]];
        Remove(toRemove[i]);
        i := i + 1;
      }
      assert toRemove[..i] == toRemove;
    }

    /**
     * One system update: grow for the current number of cubes with a grid
     * position, register pending cubes, then purge dead handles.
     */
    method Update(world: World)
      requires world.Valid()
      modifies this`entries, this`capacity, world`blocks
      ensures world.Valid() && world.blocks.Keys == old(world.blocks.Keys)
      ensures capacity >= NeededCapacity(|Select(old(world.blocks), world.nextId, HasGridPos)|)
      ensures forall e :: e in old(world.blocks) && !HasGridPos(old(world.blocks[e])) ==> world.blocks[e] == old(world.blocks[e])
      ensures var order := Select(old(world.blocks), world.nextId, HasGridPos);
              forall j :: 0 <= j < |order| ==> world.blocks[order[j]] == Registered(old(entries), old(world.blocks), order, j)
      ensures var order := Select(old(world.blocks), world.nextId, HasGridPos);
              var registered := RegisterMap(old(entries), old(world.blocks), order);
              entries == map k | k in registered && Exists(world.State(), registered[k]) :: registered[k]
    {
      var count := |Select(world.blocks, world.nextId, HasGridPos)|;
      Grow(count);
      Register(world);
      Cleanup(world);
    }
  }
}
