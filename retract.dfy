/**
 * Chain retraction: every block carrying a given chain id is destroyed at
 * once, its collider proxy released first, and the chain's anchor loses one
 * from its chain counter, never going below zero.
 */
module RetractSystem {
  import opened Grid
  import opened Components
  import opened EcsWorld

  /** What the retraction does outside the entity store, in order. */
  datatype Effect = ReleaseCollider(target: Entity) | DestroyBlock(target: Entity)

  predicate HasChain(b: Block) { b.chain.Some? }

  function InChain(id: int): Block -> bool
  {
    (b: Block) => b.chain.Some? && b.chain.value.chainId == id
  }

  /** The members of chain `id` among `es`, in order: the toDestroy list. */
  function Filter(blocks: map<Entity, Block>, es: seq<Entity>, id: int): (r: seq<Entity>)
    requires forall e :: e in es ==> e in blocks
    ensures forall e :: e in r ==> e in es
    decreases |es|
  {
    if es == [] then []
    else
      var e := es[|es| - 1];
      Filter(blocks, es[..|es| - 1], id) + (if InChain(id)(blocks[e]) then [e] else [])
  }

  /** The anchor the loop remembers: the RootEntity of the first member whose root is not Null. */
  function FirstRoot(blocks: map<Entity, Block>, es: seq<Entity>, id: int): Entity
    requires forall e :: e in es ==> e in blocks
    decreases |es|
  {
    if es == [] then NullEntity
    else
      var e := es[|es| - 1];
      var prev := FirstRoot(blocks, es[..|es| - 1], id);
      if prev == NullEntity && InChain(id)(blocks[e]) then blocks[e].chain.value.rootEntity else prev
  }

  /** Reference definition: the first non-Null RootEntity among the members, read front to back. */
  function LeadingRoot(blocks: map<Entity, Block>, ms: seq<Entity>): Entity
    requires forall e :: e in ms ==> e in blocks && HasChain(blocks[e])
  {
    if ms == [] then NullEntity
    else
      var e := ms[0];
      assert e in ms;
      assert HasChain(blocks[e]);
      var root := blocks[e].chain.value.rootEntity;
      if root != NullEntity then root else LeadingRoot(blocks, ms[1..])
  }

  lemma {:induction false} FilterMembership(blocks: map<Entity, Block>, es: seq<Entity>, id: int, e: Entity)
    requires forall x :: x in es ==> x in blocks
    ensures e in Filter(blocks, es, id) <==> e in es && InChain(id)(blocks[e])
    decreases |es|
  {
    if es != [] {
      var n := |es| - 1;
      FilterMembership(blocks, es[..n], id, e);
      assert es == es[..n] + [es[n]];
    }
  }

  lemma {:induction false} FilterIncreasing(blocks: map<Entity, Block>, es: seq<Entity>, id: int)
    requires forall x :: x in es ==> x in blocks
    requires StrictlyIncreasing(es)
    ensures StrictlyIncreasing(Filter(blocks, es, id))
    decreases |es|
  {
    if es != [] {
      var n := |es| - 1;
      var prev := Filter(blocks, es[..n], id);
      FilterIncreasing(blocks, es[..n], id);
      forall i | 0 <= i < |prev|
        ensures prev[i] < es[n]
      {
        assert prev[i] in es[..n];
      }
    }
  }

  /** The remembered anchor is the first non-Null root of the members, read front to back. */
  lemma {:induction false} FirstRootIsLeading(blocks: map<Entity, Block>, es: seq<Entity>, id: int)
    requires forall x :: x in es ==> x in blocks
    ensures forall e :: e in Filter(blocks, es, id) ==> HasChain(blocks[e])
    ensures FirstRoot(blocks, es, id) == LeadingRoot(blocks, Filter(blocks, es, id))
    decreases |es|
  {
    if es != [] {
      var n := |es| - 1;
      var e := es[n];
      FirstRootIsLeading(blocks, es[..n], id);
      var prev := Filter(blocks, es[..n], id);
      forall x | x in Filter(blocks, es, id) ensures HasChain(blocks[x]) {
        FilterMembership(blocks, es, id, x);
      }
      if InChain(id)(blocks[e]) {
        LeadingRootAppend(blocks, prev, e);
      } else {
        assert Filter(blocks, es, id) == prev;
      }
    }
  }

  lemma {:induction false} LeadingRootAppend(blocks: map<Entity, Block>, ms: seq<Entity>, e: Entity)
    requires forall x :: x in ms ==> x in blocks && HasChain(blocks[x])
    requires e in blocks && HasChain(blocks[e])
    ensures LeadingRoot(blocks, ms + [e]) ==
              if LeadingRoot(blocks, ms) != NullEntity then LeadingRoot(blocks, ms) else blocks[e].chain.value.rootEntity
    decreases |ms|
  {
    if ms != [] {
      assert (ms + [e])[1..] == ms[1..] + [e];
      LeadingRootAppend(blocks, ms[1..], e);
    }
  }

  /** The chain counter after a retraction: one less, floored at zero. */
  function Decremented(b: Block): Block
    requires b.extendable.Some?
  {
    b.(extendable := Some(b.extendable.value.(currentExtensions := Max(0, b.extendable.value.currentExtensions - 1))))
  }

  /** The blocks after retracting chain `id` from a world whose handles lie below `n`. */
  function Retracted(blocks: map<Entity, Block>, n: nat, id: int): map<Entity, Block>
  {
    var es := Select(blocks, n, HasChain);
    var ds := Filter(blocks, es, id);
    var root := FirstRoot(blocks, es, id);
    var kept := blocks - Listed(ds);
    if |ds| > 0 && root != NullEntity && root in kept && kept[root].extendable.Some?
    then kept[root := Decremented(kept[root])]
    else kept
  }

  /** The anchor whose counter a retraction of `id` updates. */
  function RootFor(blocks: map<Entity, Block>, n: nat, id: int): Entity
  {
    FirstRoot(blocks, Select(blocks, n, HasChain), id)
  }

  lemma MembersExactly(blocks: map<Entity, Block>, n: nat, id: int, e: Entity)
    requires forall x :: x in blocks ==> x < n
    ensures e in Filter(blocks, Select(blocks, n, HasChain), id) <==> e in blocks && InChain(id)(blocks[e])
  {
    SelectSpec(blocks, n, HasChain);
    FilterMembership(blocks, Select(blocks, n, HasChain), id, e);
  }

  /**
   * Exactly the members of chain `id` are destroyed; every other block is
   * kept unchanged, except the anchor, whose counter drops by one (floored
   * at zero) exactly when some block was destroyed and the anchor is still a
   * live block with an ExtendableTag.
   */
  lemma RetractExact(blocks: map<Entity, Block>, n: nat, id: int)
    requires forall x :: x in blocks ==> x < n
    ensures forall e :: e in Retracted(blocks, n, id) <==> e in blocks && !InChain(id)(blocks[e])
    ensures forall e :: e in Retracted(blocks, n, id) && e != RootFor(blocks, n, id) ==> Retracted(blocks, n, id)[e] == blocks[e]
    ensures var root := RootFor(blocks, n, id);
            var r := Retracted(blocks, n, id);
            root in r ==>
              if (exists e :: e in blocks && InChain(id)(blocks[e])) && root != NullEntity && blocks[root].extendable.Some?
              then r[root] == Decremented(blocks[root])
              else r[root] == blocks[root]
  {
    ListedExactly(blocks, n, id);
  }

  /** The destroyed handles are exactly the members of chain `id`, and there are some exactly when a member exists. */
  lemma ListedExactly(blocks: map<Entity, Block>, n: nat, id: int)
    requires forall x :: x in blocks ==> x < n
    ensures var ds := Filter(blocks, Select(blocks, n, HasChain), id);
      && (forall e :: e in Listed(ds) <==> e in blocks && InChain(id)(blocks[e]))
      && (|ds| > 0 <==> exists e :: e in blocks && InChain(id)(blocks[e]))
  {
    var es := Select(blocks, n, HasChain);
    var ds := Filter(blocks, es, id);
    forall e ensures e in Listed(ds) <==> e in blocks && InChain(id)(blocks[e]) {
      MembersExactly(blocks, n, id, e);
      if e in ds {
        var k :| 0 <= k < |ds| && ds[k] == e;
      }
    }
    if |ds| > 0 {
      assert ds[0] in Listed(ds);
    }
    if exists e :: e in blocks && InChain(id)(blocks[e]) {
      var e :| e in blocks && InChain(id)(blocks[e]);
      assert e in Listed(ds);
    }
  }

  /** Retracting an id a second time finds no member and changes nothing. */
  lemma RetractIdempotent(blocks: map<Entity, Block>, n: nat, id: int)
    requires forall x :: x in blocks ==> x < n
    ensures Retracted(Retracted(blocks, n, id), n, id) == Retracted(blocks, n, id)
  {
    var once := Retracted(blocks, n, id);
    RetractExact(blocks, n, id);
    var ds := Filter(once, Select(once, n, HasChain), id);
    if |ds| > 0 {
      MembersExactly(once, n, id, ds[0]);
    }
    assert once - Listed(ds) == once;
  }

  /** The effects of destroying `ds` one by one: the collider release, when there is one, then the destruction. */
  function Effects(blocks: map<Entity, Block>, ds: seq<Entity>): seq<Effect>
    requires forall e :: e in ds ==> e in blocks
    decreases |ds|
  {
    if ds == [] then []
    else
      var e := ds[|ds| - 1];
      Effects(blocks, ds[..|ds| - 1]) + (if blocks[e].colliderProxy then [ReleaseCollider(e)] else []) + [DestroyBlock(e)]
  }

  /** A block with a collider proxy has that proxy released before it is destroyed. */
  lemma {:induction false} ReleaseBeforeDestroy(blocks: map<Entity, Block>, ds: seq<Entity>, e: Entity)
    requires forall x :: x in ds ==> x in blocks
    requires e in ds
    ensures DestroyBlock(e) in Effects(blocks, ds)
    ensures blocks[e].colliderProxy ==>
              exists a, b :: 0 <= a < b < |Effects(blocks, ds)|
                && Effects(blocks, ds)[a] == ReleaseCollider(e) && Effects(blocks, ds)[b] == DestroyBlock(e)
    decreases |ds|
  {
    var n := |ds| - 1;
    var prev := Effects(blocks, ds[..n]);
    var eff := Effects(blocks, ds);
    if ds[n] == e {
      var t := |eff|;
      assert eff[t - 1] == DestroyBlock(e);
      if blocks[e].colliderProxy {
        assert eff[t - 2] == ReleaseCollider(e);
      }
    } else {
      assert e in ds[..n];
      ReleaseBeforeDestroy(blocks, ds[..n], e);
      assert eff[..|prev|] == prev;
      if blocks[e].colliderProxy {
        var a, b :| 0 <= a < b < |prev| && prev[a] == ReleaseCollider(e) && prev[b] == DestroyBlock(e);
        assert eff[a] == prev[a] && eff[b] == prev[b];
      }
      var i :| 0 <= i < |prev| && prev[i] == DestroyBlock(e);
      assert eff[i] == prev[i];
    }
  }

  /**
   * The member scan of a retraction. The whole-chain flag selects between
   * two branches that both add every member, so it has no effect.
   */
  method CollectChain(world: World, chainId: int, wholeChain: bool) returns (toDestroy: seq<Entity>, rootForUpdate: Entity)
    requires world.Valid()
    ensures toDestroy == Filter(world.blocks, Select(world.blocks, world.nextId, HasChain), chainId)
    ensures rootForUpdate == RootFor(world.blocks, world.nextId, chainId)
    ensures StrictlyIncreasing(toDestroy)
  {
    var es := Select(world.blocks, world.nextId, HasChain);
    toDestroy := [];
    rootForUpdate := NullEntity;
    for i := 0 to |es|
      invariant toDestroy == Filter(world.blocks, es[..i], chainId)
      invariant rootForUpdate == FirstRoot(world.blocks, es[..i], chainId)
    {
      assert es[..i + 1][..i] == es[..i];
      var data := world.blocks[es[i]].chain.value;
      if data.chainId == chainId {
        if rootForUpdate == NullEntity {
          rootForUpdate := data.rootEntity;
        }
        if wholeChain {
          toDestroy := toDestroy + [es[i]];
        } else {
          toDestroy := toDestroy + [es[i]];
        }
      }
    }
    assert es[..|es|] == es;
    SelectSpec(world.blocks, world.nextId, HasChain);
    FilterIncreasing(world.blocks, es, chainId);
  }

  /** Destroys the listed blocks one by one, releasing each collider proxy first. */
  method DestroyAll(world: World, toDestroy: seq<Entity>) returns (effects: seq<Effect>)
    requires world.Valid() && StrictlyIncreasing(toDestroy)
    requires forall e :: e in toDestroy ==> e in world.blocks
    modifies world`blocks
    ensures world.Valid() && world.blocks == old(world.blocks) - Listed(toDestroy)
    ensures effects == Effects(old(world.blocks), toDestroy)
  {
    effects := [];
    for k := 0 to |toDestroy|
      invariant world.Valid() && world.blocks == old(world.blocks) - Listed(toDestroy[..k])
      invariant effects == Effects(old(world.blocks), toDestroy[..k])
    {
      var e := toDestroy[k];
      assert toDestroy[..k + 1][..k] == toDestroy[..k];
      assert e !in Listed(toDestroy[..k]);
      if world.blocks[e].colliderProxy {
        effects := effects + [ReleaseCollider(e)];
      }
      world.Destroy(e);
      effects := effects + [DestroyBlock(e)];
      assert Listed(toDestroy[..k + 1]) == Listed(toDestroy[..k]) + {e};
    }
    assert toDestroy[..|toDestroy|] == toDestroy;
  }

  /** The retraction of one chain: scan, destroy, then the anchor's counter. */
  method RetractChain(world: World, chainId: int, wholeChain: bool) returns (effects: seq<Effect>)
    requires world.Valid()
    modifies world`blocks
    ensures world.Valid()
    ensures world.blocks == Retracted(old(world.blocks), world.nextId, chainId)
    ensures effects == Effects(old(world.blocks), Filter(old(world.blocks), Select(old(world.blocks), world.nextId, HasChain), chainId))
  {
    var toDestroy, rootForUpdate := CollectChain(world, chainId, wholeChain);
    SelectSpec(world.blocks, world.nextId, HasChain);
    effects := DestroyAll(world, toDestroy);
    DecrementRoot(world, rootForUpdate, |toDestroy| > 0);
  }

  /** The anchor's counter drops when something was destroyed and the anchor is still a live block with an ExtendableTag. */
  method DecrementRoot(world: World, root: Entity, destroyed: bool)
    requires world.Valid()
    modifies world`blocks
    ensures world.Valid()
    ensures world.blocks ==
      if destroyed && root != NullEntity && root in old(world.blocks) && old(world.blocks)[root].extendable.Some?
      then old(world.blocks)[root := Decremented(old(world.blocks)[root])]
      else old(world.blocks)
  {
    if destroyed && root != NullEntity {
      if root in world.blocks && world.blocks[root].extendable.Some? {
        world.SetBlock(root, Decremented(world.blocks[root]));
      }
    }
  }

  /** The blocks after processing the retraction requests in order. */
  function RetractedAll(blocks: map<Entity, Block>, n: nat, requests: seq<RetractRequest>): map<Entity, Block>
    decreases |requests|
  {
    if requests == [] then blocks
    else Retracted(RetractedAll(blocks, n, requests[..|requests| - 1]), n, requests[|requests| - 1].chainId)
  }

  /** The effects of processing the requests in order: each retraction's effects, on the world the earlier ones left. */
  function EffectsAll(blocks: map<Entity, Block>, n: nat, requests: seq<RetractRequest>): seq<Effect>
    decreases |requests|
  {
    if requests == [] then []
    else
      var m := |requests| - 1;
      var before := RetractedAll(blocks, n, requests[..m]);
      EffectsAll(blocks, n, requests[..m]) + Effects(before, Filter(before, Select(before, n, HasChain), requests[m].chainId))
  }

  /** Every effect of destroying `ds` targets one of `ds`. */
  lemma {:induction false} EffectsTargets(blocks: map<Entity, Block>, ds: seq<Entity>)
    requires forall e :: e in ds ==> e in blocks
    ensures forall f :: f in Effects(blocks, ds) ==> f.target in ds
    decreases |ds|
  {
    if ds != [] {
      var m := |ds| - 1;
      EffectsTargets(blocks, ds[..m]);
      assert forall x :: x in ds[..m] ==> x in ds;
    }
  }

  /**
   * The update reports the destruction of exactly the blocks it removed:
   * those of the world before it that are gone after it.
   */
  lemma {:induction false} EffectsAllDestroys(blocks: map<Entity, Block>, n: nat, requests: seq<RetractRequest>, e: Entity)
    requires forall x :: x in blocks ==> x < n
    ensures DestroyBlock(e) in EffectsAll(blocks, n, requests) <==> e in blocks && e !in RetractedAll(blocks, n, requests)
    decreases |requests|
  {
    if requests != [] {
      var m := |requests| - 1;
      var before := RetractedAll(blocks, n, requests[..m]);
      var id := requests[m].chainId;
      var ds := Filter(before, Select(before, n, HasChain), id);
      EffectsAllDestroys(blocks, n, requests[..m], e);
      RetractedAllSpec(blocks, n, requests[..m], e);
      RetractExact(before, n, id);
      EffectsTargets(before, ds);
      if DestroyBlock(e) in Effects(before, ds) {
        assert DestroyBlock(e).target in ds;
        MembersExactly(before, n, id, e);
      }
      if e in before && InChain(id)(before[e]) {
        MembersExactly(before, n, id, e);
        ReleaseBeforeDestroy(before, ds, e);
      }
    }
  }

  /**
   * The system update: every pending request is processed in order and
   * consumed. Blocks of every requested chain are gone afterwards, and no
   * block that belonged to none of them was destroyed.
   */
  method Update(world: World, requests: seq<RetractRequest>) returns (effects: seq<Effect>)
    requires world.Valid()
    modifies world`blocks
    ensures world.Valid()
    ensures world.blocks == RetractedAll(old(world.blocks), world.nextId, requests)
    ensures effects == EffectsAll(old(world.blocks), world.nextId, requests)
  {
    effects := [];
    for i := 0 to |requests|
      invariant world.Valid() && world.blocks == RetractedAll(old(world.blocks), world.nextId, requests[..i])
      invariant effects == EffectsAll(old(world.blocks), world.nextId, requests[..i])
    {
      assert requests[..i + 1][..i] == requests[..i];
      var more := RetractChain(world, requests[i].chainId, requests[i].retractWholeChain);
      effects := effects + more;
    }
    assert requests[..|requests|] == requests;
  }

  /**
   * After the update no block of a requested chain is left, and every block
   * outside the requested chains is still there.
   */
  lemma {:induction false} RetractedAllSpec(blocks: map<Entity, Block>, n: nat, requests: seq<RetractRequest>, e: Entity)
    requires forall x :: x in blocks ==> x < n
    ensures forall x :: x in RetractedAll(blocks, n, requests) ==> x in blocks && x < n
    ensures e in RetractedAll(blocks, n, requests) <==>
              e in blocks && forall r :: r in requests ==> !InChain(r.chainId)(blocks[e])
    decreases |requests|
  {
    if requests != [] {
      var m := |requests| - 1;
      var prev := RetractedAll(blocks, n, requests[..m]);
      RetractedAllSpec(blocks, n, requests[..m], e);
      RetractExact(prev, n, requests[m].chainId);
      if e in prev {
        assert RetractedAll(blocks, n, requests[..m])[e].chain == blocks[e].chain by {
          ChainKept(blocks, n, requests[..m], e);
        }
      }
      assert requests == requests[..m] + [requests[m]];
    }
  }

  /** Retraction only ever rewrites an anchor's counter: the chain data of surviving blocks is unchanged. */
  lemma {:induction false} ChainKept(blocks: map<Entity, Block>, n: nat, requests: seq<RetractRequest>, e: Entity)
    requires forall x :: x in blocks ==> x < n
    requires e in RetractedAll(blocks, n, requests)
    ensures e in blocks && RetractedAll(blocks, n, requests)[e].chain == blocks[e].chain
    decreases |requests|
  {
    if requests != [] {
      var m := |requests| - 1;
      var prev := RetractedAll(blocks, n, requests[..m]);
      RetractedAllSpec(blocks, n, requests[..m], e);
      RetractExact(prev, n, requests[m].chainId);
      ChainKept(blocks, n, requests[..m], e);
    }
  }
}
