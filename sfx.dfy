/**
 * The global sound-effect manager: a singleton holding a pool of audio
 * sources. Idle sources wait in a queue, sources that are playing are in a
 * busy set; a one-shot takes a source (creating one when none is idle) and
 * the source is handed back when it stops playing.
 */
module Sfx {
  import opened Grid

  /** An audio source, by creation number: the n-th source the manager made is n. */
  type Source = nat

  /** The sources numbered below `n`. */
  function Below(n: nat): (r: set<Source>)
    ensures forall s: Source :: s in r <==> s < n
  {
    if n == 0 then {} else Below(n - 1) + {n - 1}
  }

  /** The sources `lo`, `lo + 1`, ..., `hi - 1`, in that order. */
  function Numbered(lo: nat, hi: nat): (r: seq<Source>)
    requires lo <= hi
    ensures |r| == hi - lo
    ensures forall k :: 0 <= k < |r| ==> r[k] == lo + k
    decreases hi - lo
  {
    if lo == hi then [] else [lo] + Numbered(lo + 1, hi)
  }

  /** No source waits twice in the queue. */
  predicate Distinct(q: seq<Source>)
  {
    forall i, j :: 0 <= i < j < |q| ==> q[i] != q[j]
  }

  /**
   * The pool is sound: every source made so far is exactly once either
   * waiting in the idle queue or in the busy set.
   */
  ghost predicate Sound(idle: seq<Source>, busy: set<Source>, created: nat)
  {
    && Distinct(idle)
    && (forall s: Source :: s in idle ==> s !in busy)
    && (forall s: Source :: s in idle ==> s < created)
    && (forall s: Source :: s in busy ==> s < created)
    && (forall s: Source :: s < created ==> s in idle || s in busy)
  }

  /** The sources waiting in a queue. */
  function Members(q: seq<Source>): (r: set<Source>)
    ensures forall s :: s in r <==> s in q
  {
    set s | s in q
  }

  /** A queue without repeats has as many members as entries. */
  lemma {:induction false} DistinctSize(q: seq<Source>)
    requires Distinct(q)
    ensures |Members(q)| == |q|
  {
    if |q| > 0 {
      var rest := q[1..];
      assert Distinct(rest) by {
        forall i, j | 0 <= i < j < |rest|
          ensures rest[i] != rest[j]
        {
          assert rest[i] == q[i + 1] && rest[j] == q[j + 1];
        }
      }
      DistinctSize(rest);
      assert q[0] !in rest by {
        forall i | 0 <= i < |rest|
          ensures rest[i] != q[0]
        {
          assert rest[i] == q[i + 1];
        }
      }
      assert Members(q) == Members(rest) + {q[0]};
    }
  }

  /** The set of sources below `n` has `n` members. */
  lemma {:induction false} BelowSize(n: nat)
    ensures |Below(n)| == n
  {
    if n > 0 {
      BelowSize(n - 1);
    }
  }

  /** A sound pool accounts for every source it made: idle plus busy is the number created. */
  lemma SoundCounts(idle: seq<Source>, busy: set<Source>, created: nat)
    requires Sound(idle, busy, created)
    ensures |idle| + |busy| == created
  {
    DistinctSize(idle);
    BelowSize(created);
    assert Members(idle) !! busy;
    assert Members(idle) + busy == Below(created);
  }

  /** The state of a manager's pool. */
  datatype Pool = Pool(idle: seq<Source>, busy: set<Source>, created: nat)

  /** Taking a source: the head of the idle queue, or a newly made one when the queue is empty; it becomes busy. */
  function Taken(p: Pool): (r: (Pool, Source))
  {
    if |p.idle| > 0 then (Pool(p.idle[1..], p.busy + {p.idle[0]}, p.created), p.idle[0])
    else (Pool(p.idle, p.busy + {p.created}, p.created + 1), p.created)
  }

  /** Handing a source back: nothing for a null source, otherwise it leaves the busy set and joins the idle queue. */
  function Released(p: Pool, src: Option<Source>): (r: Pool)
  {
    if src.None? then p else Pool(p.idle + [src.value], p.busy - {src.value}, p.created)
  }

  /** Taking keeps the pool sound and hands out a source that was not busy. */
  lemma TakenSound(p: Pool)
    requires Sound(p.idle, p.busy, p.created)
    ensures var (q, s) := Taken(p);
      && Sound(q.idle, q.busy, q.created)
      && s !in p.busy && s in q.busy
      && |q.idle| + |q.busy| == |p.idle| + |p.busy| + (if |p.idle| == 0 then 1 else 0)
  {
    var (q, s) := Taken(p);
    if |p.idle| > 0 {
      TailMembers(p.idle);
      assert p.idle[0] in p.idle;
    }
    SoundCounts(p.idle, p.busy, p.created);
    SoundCounts(q.idle, q.busy, q.created);
  }

  /** The tail of a queue without repeats holds the other entries and not the head. */
  lemma TailMembers(q: seq<Source>)
    requires |q| > 0 && Distinct(q)
    ensures Distinct(q[1..])
    ensures forall t :: t in q[1..] ==> t in q && t != q[0]
  {
    var rest := q[1..];
    forall t | t in rest
      ensures t in q && t != q[0]
    {
      var i :| 0 <= i < |rest| && rest[i] == t;
      assert q[i + 1] == t;
    }
  }

  /** Handing back a busy source keeps the pool sound. */
  lemma ReleasedSound(p: Pool, s: Source)
    requires Sound(p.idle, p.busy, p.created) && s in p.busy
    ensures var q := Released(p, Some(s));
      Sound(q.idle, q.busy, q.created) && s in q.idle && s !in q.busy
  {
    var q := Released(p, Some(s));
    assert forall t :: t in q.idle ==> t in p.idle || t == s by {
      forall t | t in q.idle
        ensures t in p.idle || t == s
        {
          var i :| 0 <= i < |q.idle| && q.idle[i] == t;
          if i < |p.idle| {
            assert p.idle[i] == t;
          }
        }
    }
  }

  /** Handing the same source back twice puts it in the idle queue twice: the pool is no longer sound. */
  lemma DoubleReleaseDuplicates(p: Pool, s: Source)
    ensures var q := Released(Released(p, Some(s)), Some(s));
      && q.idle == p.idle + [s, s]
      && !Distinct(q.idle)
  {
    var q := Released(Released(p, Some(s)), Some(s));
    assert q.idle[|p.idle|] == q.idle[|p.idle| + 1] == s;
  }

  /** The one manager that survives: `Instance` in the source. */
  class SfxRegistry {
    var instance: Option<SfxManager>

    constructor ()
      ensures instance.None?
    {
      instance := None;
    }
  }

  class SfxManager {
    const initialPoolSize: int
    var idle: seq<Source>
    var busy: set<Source>
    var created: nat
    /** The manager destroyed itself because another one already existed. */
    var destroyed: bool

    function State(): Pool
      reads this
    {
      Pool(idle, busy, created)
    }

    constructor (initialPoolSize: int)
      ensures this.initialPoolSize == initialPoolSize
      ensures idle == [] && busy == {} && created == 0 && !destroyed
    {
      this.initialPoolSize := initialPoolSize;
      idle, busy, created := [], {}, 0;
      destroyed := false;
    }

    /**
     * Wake-up. When another manager is already registered this one is
     * destroyed and nothing else happens. Otherwise it registers itself and
     * makes max(1, initialPoolSize) sources, which wait in the idle queue in
     * the order they were made.
     */
    method Awake(registry: SfxRegistry)
      modifies this, registry
      ensures old(registry.instance).Some? && old(registry.instance).value != this ==>
        destroyed && registry.instance == old(registry.instance) && State() == old(State())
      ensures old(registry.instance).None? || old(registry.instance).value == this ==>
        var n := Max(1, initialPoolSize);
        && registry.instance == Some(this) && destroyed == old(destroyed)
        && idle == old(idle) + Numbered(old(created), old(created) + n)
        && busy == old(busy) && created == old(created) + n
    {
      if registry.instance.Some? && registry.instance.value != this {
        destroyed := true;
        return;
      }
      registry.instance := Some(this);
      var n := Max(1, initialPoolSize);
      var queue, made := idle, created;
      for i := 0 to n
        invariant made == created + i
        invariant queue == idle + Numbered(created, created + i)
      {
        assert Numbered(created, created + i + 1) == Numbered(created, created + i) + [created + i];
        queue := queue + [made];
        made := made + 1;
      }
      idle, created := queue, made;
    }

    /** Taking a source for a one-shot; see `Taken`. */
    method GetSource() returns (src: Source)
      modifies this`idle, this`busy, this`created
      ensures (State(), src) == Taken(old(State()))
    {
      if |idle| > 0 {
        src := idle[0];
        idle := idle[1..];
      } else {
        src := created;
        created := created + 1;
      }
      busy := busy + {src};
    }

    /** Handing a source back once it stopped playing; see `Released`. */
    method ReleaseSource(src: Option<Source>)
      modifies this`idle, this`busy
      ensures State() == Released(old(State()), src)
    {
      if src.None? {
        return;
      }
      busy := busy - {src.value};
      idle := idle + [src.value];
    }

    /**
     * Playing a clip once: a null clip does nothing and takes no source;
     * otherwise a source is taken and returned, to be handed back when the
     * clip ends.
     */
    method PlayOneShotAtPosition(hasClip: bool) returns (playing: Option<Source>)
      modifies this`idle, this`busy, this`created
      ensures !hasClip ==> playing.None? && State() == old(State())
      ensures hasClip ==> playing.Some? && (State(), playing.value) == Taken(old(State()))
    {
      if !hasClip {
        return None;
      }
      var src := GetSource();
      playing := Some(src);
    }
  }

  /** A freshly woken manager's pool is sound and holds max(1, initialPoolSize) idle sources. */
  lemma AwakePoolSound(size: int)
    ensures var n := Max(1, size);
      Sound(Numbered(0, n), {}, n) && |Numbered(0, n)| == n
  {
    var n := Max(1, size);
    var q := Numbered(0, n);
    forall s: Source | s < n
      ensures s in q
    {
      assert q[s] == s;
    }
  }
}
