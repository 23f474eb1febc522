/**
 * Lifetime of extended blocks: each tick the remaining time drops by the
 * frame time, the block's base colour alpha fades in proportion to the
 * remaining fraction, and a block whose time has run out is destroyed through
 * the command buffer at the end of the tick.
 */
module ExtendedLifetimeSystem {
  import opened Grid
  import opened Components
  import opened EcsWorld

  /** The smallest total used as divisor, so that a zero total cannot divide by zero. */
  const MinTotal: real := 0.0001

  /** The fade fraction: remaining over total, clamped to [0, 1]. */
  function FadeFraction(remaining: real, total: real): (t: real)
    ensures 0.0 <= t <= 1.0
  {
    Saturate(remaining / MaxReal(MinTotal, total))
  }

  /** The displayed alpha: the original alpha scaled by the fade fraction. */
  function Faded(originalAlpha: real, t: real): real { originalAlpha * t }

  predicate HasLifetime(b: Block) { b.lifetime.Some? }

  /** One tick on one block: the countdown, then the alpha written when the block has a base colour. */
  function TickBlock(b: Block, dt: real): Block
  {
    if b.lifetime.None? then b
    else
      var life := b.lifetime.value.(remainingSeconds := b.lifetime.value.remainingSeconds - dt);
      var t := FadeFraction(life.remainingSeconds, life.totalSeconds);
      b.(lifetime := Some(life), alpha := if b.alpha.Some? then Some(Faded(life.originalAlpha, t)) else None)
  }

  function Tick(dt: real): Block -> Block
  {
    (b: Block) => TickBlock(b, dt)
  }

  /** Whether the block is destroyed at the end of this tick. */
  predicate Expires(b: Block, dt: real)
  {
    b.lifetime.Some? && b.lifetime.value.remainingSeconds - dt <= 0.0
  }

  /** The blocks queued for destruction, among `es`, in order. */
  function Expired(blocks: map<Entity, Block>, es: seq<Entity>, dt: real): (r: seq<Entity>)
    requires forall e :: e in es ==> e in blocks
    ensures forall e :: e in r ==> e in es
    decreases |es|
  {
    if es == [] then []
    else
      var e := es[|es| - 1];
      Expired(blocks, es[..|es| - 1], dt) + (if Expires(blocks[e], dt) then [e] else [])
  }

  lemma {:induction false} ExpiredMembership(blocks: map<Entity, Block>, es: seq<Entity>, dt: real, e: Entity)
    requires forall x :: x in es ==> x in blocks
    ensures e in Expired(blocks, es, dt) <==> e in es && Expires(blocks[e], dt)
    decreases |es|
  {
    if es != [] {
      var n := |es| - 1;
      ExpiredMembership(blocks, es[..n], dt, e);
      assert es == es[..n] + [es[n]];
    }
  }

  /** The store after one tick. */
  function Aged(s: Store, dt: real): Store
    requires StoreValid(s)
  {
    var es := Select(s.blocks, s.nextId, HasLifetime);
    ApplyAll(Store(Mapped(s.blocks, HasLifetime, Tick(dt)), s.holders, s.nextId), Destroys(Expired(s.blocks, es, dt)))
  }

  /**
   * After a tick exactly the blocks whose remaining time has reached zero or
   * below are gone; every surviving block with a lifetime has exactly dt less
   * remaining, keeps its total and original alpha, and shows alpha
   * OriginalAlpha times the fade fraction; blocks without a lifetime are
   * untouched.
   */
  lemma AgedSpec(s: Store, dt: real)
    requires StoreValid(s)
    ensures forall e :: e in Aged(s, dt).blocks <==> e in s.blocks && !Expires(s.blocks[e], dt)
    ensures forall e :: e in Aged(s, dt).blocks && s.blocks[e].lifetime.None? ==> Aged(s, dt).blocks[e] == s.blocks[e]
    ensures forall e :: e in Aged(s, dt).blocks && s.blocks[e].lifetime.Some? ==>
              var old_ := s.blocks[e].lifetime.value;
              var new_ := Aged(s, dt).blocks[e].lifetime;
              && new_ == Some(old_.(remainingSeconds := old_.remainingSeconds - dt))
              && new_.value.remainingSeconds > 0.0
              && Aged(s, dt).blocks[e].alpha ==
                   if s.blocks[e].alpha.Some? then Some(Faded(old_.originalAlpha, FadeFraction(new_.value.remainingSeconds, old_.totalSeconds)))
                   else None
    ensures Aged(s, dt).holders == s.holders && Aged(s, dt).nextId == s.nextId
  {
    AgedBlocks(s, dt);
  }

  /** The blocks whose time runs out on this tick. */
  function ExpiringSet(s: Store, dt: real): set<Entity>
  {
    set e | e in s.blocks && Expires(s.blocks[e], dt)
  }

  lemma AgedBlocks(s: Store, dt: real)
    requires StoreValid(s)
    ensures Aged(s, dt).blocks == Mapped(s.blocks, HasLifetime, Tick(dt)) - ExpiringSet(s, dt)
    ensures Aged(s, dt).holders == s.holders && Aged(s, dt).nextId == s.nextId
  {
    var es := Select(s.blocks, s.nextId, HasLifetime);
    SelectSpec(s.blocks, s.nextId, HasLifetime);
    var ticked := Store(Mapped(s.blocks, HasLifetime, Tick(dt)), s.holders, s.nextId);
    var ds := Expired(s.blocks, es, dt);
    ApplyDestroys(ticked, ds);
    forall e ensures e in Listed(ds) <==> e in ExpiringSet(s, dt) {
      ExpiredMembership(s.blocks, es, dt, e);
      if e in ds {
        var k :| 0 <= k < |ds| && ds[k] == e;
      }
    }
    assert Listed(ds) == ExpiringSet(s, dt);
    DestroysKeepHolders(ticked, ds);
  }

  lemma {:induction false} DestroysKeepHolders(s: Store, ds: seq<Entity>)
    requires StoreValid(s)
    requires forall e :: e in ds ==> e !in s.holders
    ensures ApplyAll(s, Destroys(ds)).holders == s.holders
    decreases |ds|
  {
    if ds != [] {
      var n := |ds| - 1;
      assert Destroys(ds)[..n] == Destroys(ds[..n]);
      DestroysKeepHolders(s, ds[..n]);
    }
  }

  /** The displayed alpha stays between zero and the original alpha. */
  lemma AlphaBounded(originalAlpha: real, remaining: real, total: real)
    requires originalAlpha >= 0.0
    ensures 0.0 <= Faded(originalAlpha, FadeFraction(remaining, total)) <= originalAlpha
  {
    var t := FadeFraction(remaining, total);
    assert originalAlpha * t <= originalAlpha * 1.0;
  }

  /** The fade is full at or above the total time and zero once time has run out, and never rises as time runs down. */
  lemma FadeShape(remaining: real, later: real, total: real)
    requires later <= remaining
    ensures total >= MinTotal && remaining >= total ==> FadeFraction(remaining, total) == 1.0
    ensures remaining <= 0.0 ==> FadeFraction(remaining, total) == 0.0
    ensures FadeFraction(later, total) <= FadeFraction(remaining, total)
  {
    var d := MaxReal(MinTotal, total);
    assert later / d <= remaining / d;
    if total >= MinTotal && remaining >= total {
      assert remaining / d >= d / d;
    }
  }

  /** Ticks one block in place and reports whether it is to be destroyed. */
  method TickOne(world: World, e: Entity, dt: real) returns (expired: bool)
    requires world.Valid() && e in world.blocks && world.blocks[e].lifetime.Some?
    modifies world`blocks
    ensures world.Valid() && world.blocks == old(world.blocks)[e := TickBlock(old(world.blocks)[e], dt)]
    ensures expired == Expires(old(world.blocks)[e], dt)
  {
    var b := world.blocks[e];
    var life := b.lifetime.value;
    life := life.(remainingSeconds := life.remainingSeconds - dt);
    var total := MaxReal(MinTotal, life.totalSeconds);
    var t := Saturate(life.remainingSeconds / total);
    var alpha := b.alpha;
    if alpha.Some? {
      alpha := Some(Faded(life.originalAlpha, t));
    }
    world.SetBlock(e, b.(lifetime := Some(life), alpha := alpha));
    expired := life.remainingSeconds <= 0.0;
  }

  /** One block of the pass: the `j`-th block with a lifetime is ticked, and listed when it expires. */
  method TickNext(world: World, ghost b0: map<Entity, Block>, es: seq<Entity>, j: int, dt: real, ecb: seq<Entity>)
    returns (ecb': seq<Entity>)
    requires 0 <= j < |es| && StrictlyIncreasing(es) && forall e :: e in es ==> e in b0 && HasLifetime(b0[e])
    requires world.Valid() && RewrittenUpTo(b0, es, j, Tick(dt), world.blocks)
    requires ecb == Expired(b0, es[..j], dt)
    modifies world`blocks
    ensures world.Valid() && RewrittenUpTo(b0, es, j + 1, Tick(dt), world.blocks)
    ensures ecb' == Expired(b0, es[..j + 1], dt)
  {
    RewrittenUpToStep(b0, es, j, Tick(dt), world.blocks);
    assert es[..j + 1][..j] == es[..j];
    var expired := TickOne(world, es[j], dt);
    ecb' := if expired then ecb + [es[j]] else ecb;
  }

  /** The per-entity pass: every block with a lifetime ticked in place, the expired ones listed in query order. */
  method TickAll(world: World, dt: real) returns (ecb: seq<Entity>)
    requires world.Valid()
    modifies world`blocks
    ensures world.Valid()
    ensures world.blocks == Mapped(old(world.blocks), HasLifetime, Tick(dt))
    ensures ecb == Expired(old(world.blocks), Select(old(world.blocks), world.nextId, HasLifetime), dt)
  {
    ghost var b0 := world.blocks;
    var es := Select(world.blocks, world.nextId, HasLifetime);
    SelectSpec(world.blocks, world.nextId, HasLifetime);
    ecb := [];
    for j := 0 to |es|
      invariant world.Valid() && world.nextId == old(world.nextId)
      invariant RewrittenUpTo(b0, es, j, Tick(dt), world.blocks)
      invariant ecb == Expired(b0, es[..j], dt)
    {
      ecb := TickNext(world, b0, es, j, dt, ecb);
    }
    assert es[..|es|] == es;
    RewrittenAll(b0, world.nextId, HasLifetime, Tick(dt), world.blocks);
  }

  /**
   * The system update: every block with a lifetime is ticked in query order,
   * expired ones are queued for destruction, and the buffer is played back.
   */
  method Update(world: World, dt: real)
    requires world.Valid()
    modifies world`blocks, world`holders, world`nextId
    ensures world.Valid() && world.State() == Aged(old(world.State()), dt)
  {
    var ecb := TickAll(world, dt);
    world.Playback(Destroys(ecb));
  }
}
