/**
 * The MonoBehaviour step triggers that react to the player's foot cell without
 * waiting for the entity systems: one starts the world-dance sequence, the
 * other fades the background music out. Both fire at most one configured entry
 * per cell change and remember every (stage, cell, entry) they fired in a set
 * of packed 64-bit keys, so no key fires twice.
 */
module StepTriggers {
  import opened Grid
  import opened Components
  import StepDetection

  /** The low bits of `v` in two's complement, as a value in [0, m). */
  function Mask(v: int, m: nat): (r: int)
    requires m > 0
    ensures 0 <= r < m
  {
    v % m
  }

  /** Five fields side by side in 64 bits: 15 at bit 48, 13 at bits 35, 22 and 9, and the low bits. */
  function Pack(a: bv64, b: bv64, c: bv64, d: bv64, e: bv64): bv64
  {
    (a << 48) | (b << 35) | (c << 22) | (d << 9) | e
  }

  /** The packed fields do not overlap: two packings agree exactly when every field does. */
  lemma PackInjective(a1: bv64, b1: bv64, c1: bv64, d1: bv64, e1: bv64, a2: bv64, b2: bv64, c2: bv64, d2: bv64, e2: bv64)
    requires a1 < 0x8000 && b1 < 0x2000 && c1 < 0x2000 && d1 < 0x2000 && e1 < 0x200
    requires a2 < 0x8000 && b2 < 0x2000 && c2 < 0x2000 && d2 < 0x2000 && e2 < 0x200
    ensures Pack(a1, b1, c1, d1, e1) == Pack(a2, b2, c2, d2, e2) <==> a1 == a2 && b1 == b2 && c1 == c2 && d1 == d2 && e1 == e2
  {
    Unpack(a1, b1, c1, d1, e1);
    Unpack(a2, b2, c2, d2, e2);
  }

  /** Each field can be read back from the packing. */
  lemma Unpack(a: bv64, b: bv64, c: bv64, d: bv64, e: bv64)
    requires a < 0x8000 && b < 0x2000 && c < 0x2000 && d < 0x2000 && e < 0x200
    ensures var k := Pack(a, b, c, d, e);
      && k >> 48 == a && (k >> 35) & 0x1FFF == b && (k >> 22) & 0x1FFF == c
      && (k >> 9) & 0x1FFF == d && k & 0x1FF == e
  {
  }

  /**
   * The dedupe key: 15 bits of stage at bit 48, 13 bits of each cell
   * coordinate at bits 35, 22 and 9, and the entry index, unmasked, in the
   * low bits.
   */
  function PackKey(stage: int, cell: Int3, i: int): bv64
    requires 0 <= i <= IntMax
  {
    Pack(StageBits(stage), CoordBits(cell.x), CoordBits(cell.y), CoordBits(cell.z), Long(i))
  }

  /** A 32-bit integer widened to 64 bits, in two's complement. */
  function Long(v: int): bv64 { Mask(v, 0x1_0000_0000_0000_0000) as bv64 }

  /** The 15 stage bits the key keeps. */
  function StageBits(stage: int): bv64 { Long(stage) & 0x7FFF }

  /** The 13 bits of a coordinate the key keeps. */
  function CoordBits(v: int): bv64 { Long(v) & 0x1FFF }

  /** Two (stage, cell, index) triples that agree in every bit the key keeps. */
  predicate SameFields(s1: int, c1: Int3, i1: int, s2: int, c2: Int3, i2: int)
    requires 0 <= i1 <= IntMax && 0 <= i2 <= IntMax
  {
    && StageBits(s1) == StageBits(s2)
    && CoordBits(c1.x) == CoordBits(c2.x) && CoordBits(c1.y) == CoordBits(c2.y) && CoordBits(c1.z) == CoordBits(c2.z)
    && Long(i1) == Long(i2)
  }

  /**
   * For entry indices below 512 two keys are equal exactly when the stages
   * agree in their low 15 bits, the coordinates in their low 13 bits, and the
   * indices are the same.
   */
  lemma KeyInjective(s1: int, c1: Int3, i1: int, s2: int, c2: Int3, i2: int)
    requires 0 <= i1 < 0x200 && 0 <= i2 < 0x200
    ensures PackKey(s1, c1, i1) == PackKey(s2, c2, i2) <==> SameFields(s1, c1, i1, s2, c2, i2)
  {
    SmallIndex(i1);
    SmallIndex(i2);
    PackInjective(StageBits(s1), CoordBits(c1.x), CoordBits(c1.y), CoordBits(c1.z), Long(i1),
                  StageBits(s2), CoordBits(c2.x), CoordBits(c2.y), CoordBits(c2.z), Long(i2));
  }

  /** An index below 512 fits the key's low field. */
  lemma SmallIndex(i: int)
    requires 0 <= i < 0x200
    ensures Long(i) < 0x200
  {
  }

  /** Entry 512 is keyed like entry 0 one cell further along z: the index needs to stay below 512. */
  lemma IndexOverflowCollides()
    ensures PackKey(0, Int3(0, 0, 0), 0x200) == PackKey(0, Int3(0, 0, 1), 0)
  {
  }

  /** What both triggers read of an entry: its stage and its optional exact cell. */
  datatype CellTrigger = CellTrigger(stageIndex: int, useCoord: bool, coord: Int3)

  predicate Matches(t: CellTrigger, cell: Int3)
  {
    t.useCoord ==> t.coord == cell
  }

  /** Entry `j` may fire on `cell`: it matches and its key has not fired yet. */
  predicate Eligible(ts: seq<CellTrigger>, cell: Int3, fired: set<bv64>, j: int)
    requires 0 <= j < |ts| && |ts| <= IntMax
  {
    Matches(ts[j], cell) && PackKey(ts[j].stageIndex, cell, j) !in fired
  }

  /** The first eligible entry at or after `k`, or -1. */
  function FirstEligible(ts: seq<CellTrigger>, cell: Int3, fired: set<bv64>, k: nat): (r: int)
    requires k <= |ts| <= IntMax
    ensures r == -1 || k <= r < |ts|
    ensures r >= 0 ==> Eligible(ts, cell, fired, r) && forall j :: k <= j < r ==> !Eligible(ts, cell, fired, j)
    ensures r == -1 <==> forall j :: k <= j < |ts| ==> !Eligible(ts, cell, fired, j)
    decreases |ts| - k
  {
    if k == |ts| then -1
    else if Eligible(ts, cell, fired, k) then k
    else FirstEligible(ts, cell, fired, k + 1)
  }

  /** The entry scan of both triggers: it stops at the first eligible entry. */
  method Scan(ts: seq<CellTrigger>, cell: Int3, fired: set<bv64>) returns (idx: int, key: bv64)
    requires |ts| <= IntMax
    ensures idx == FirstEligible(ts, cell, fired, 0)
    ensures idx >= 0 ==> key == PackKey(ts[idx].stageIndex, cell, idx)
  {
    var i := 0;
    while i < |ts|
      invariant 0 <= i <= |ts|
      invariant FirstEligible(ts, cell, fired, 0) == FirstEligible(ts, cell, fired, i)
    {
      var t := ts[i];
      if Matches(t, cell) {
        var k := PackKey(t.stageIndex, cell, i);
        if k !in fired {
          return i, k;
        }
      }
      i := i + 1;
    }
    return -1, 0;
  }

  /**
   * Recording one key blocks nothing else: with fewer than 512 entries, an
   * entry whose fields differ from the recorded ones is exactly as eligible as
   * before.
   */
  lemma OnlyOwnKeyBlocks(ts: seq<CellTrigger>, cell: Int3, fired: set<bv64>, i: int, cell2: Int3, j: int)
    requires |ts| <= 0x200 && 0 <= i < |ts| && 0 <= j < |ts|
    requires !SameFields(ts[i].stageIndex, cell, i, ts[j].stageIndex, cell2, j)
    ensures Eligible(ts, cell2, fired + {PackKey(ts[i].stageIndex, cell, i)}, j) == Eligible(ts, cell2, fired, j)
  {
    KeyInjective(ts[i].stageIndex, cell, i, ts[j].stageIndex, cell2, j);
  }

  /** An entry of the dance trigger configuration. */
  datatype DanceTriggerEntryAuthoring = DanceTriggerEntryAuthoring(stageIndex: int, typeId: int, useCoord: bool, coord: Int3)

  function DanceTriggers(entries: seq<DanceTriggerEntryAuthoring>): (r: seq<CellTrigger>)
    ensures |r| == |entries|
    ensures forall k :: 0 <= k < |r| ==> r[k] == CellTrigger(entries[k].stageIndex, entries[k].useCoord, entries[k].coord)
  {
    seq(|entries|, k requires 0 <= k < |entries| => CellTrigger(entries[k].stageIndex, entries[k].useCoord, entries[k].coord))
  }

  /** The trigger that starts the world dance when the foot reaches a configured cell. */
  class WorldDanceMonoTrigger {
    var lastCell: Int3
    var fired: set<bv64>

    constructor ()
      ensures lastCell == Int3(IntMin, IntMin, IntMin) && fired == {}
    {
      lastCell := Int3(IntMin, IntMin, IntMin);
      fired := {};
    }

    /**
     * One frame with the foot in `cell`. Without tracker or configuration, or
     * in the same cell, nothing happens. Otherwise the cell is remembered and
     * the first eligible entry fires: its key is recorded, a sequence start
     * from stage 0 is raised when the entity world exists, and the dance music
     * starts when a music controller is present.
     */
    method Update(hasTracker: bool, hasConfig: bool, cell: Int3, entries: seq<DanceTriggerEntryAuthoring>,
                  worldReady: bool, interval: Option<real>, hasAudio: bool)
      returns (start: Option<WorldDanceSequenceStart>, beginPlay: bool)
      requires |entries| <= IntMax
      modifies this
      ensures !hasTracker || !hasConfig || cell == old(lastCell) ==>
        lastCell == old(lastCell) && fired == old(fired) && start.None? && !beginPlay
      ensures hasTracker && hasConfig && cell != old(lastCell) ==>
        var ts := DanceTriggers(entries);
        var i := FirstEligible(ts, cell, old(fired), 0);
        && lastCell == cell
        && (i == -1 ==> fired == old(fired) && start.None? && !beginPlay)
        && (i >= 0 ==>
              && PackKey(entries[i].stageIndex, cell, i) !in old(fired)
              && fired == old(fired) + {PackKey(entries[i].stageIndex, cell, i)}
              && start == (if worldReady then Some(WorldDanceSequenceStart(0, -1, StepDetection.DanceInterval(interval))) else None)
              && beginPlay == hasAudio)
    {
      start, beginPlay := None, false;
      if !hasTracker || !hasConfig || cell == lastCell {
        return;
      }
      lastCell := cell;
      if |entries| == 0 {
        return;
      }
      var i, key := Scan(DanceTriggers(entries), cell, fired);
      if i >= 0 {
        fired := fired + {key};
        if worldReady {
          start := Some(WorldDanceSequenceStart(0, -1, StepDetection.DanceInterval(interval)));
        }
        beginPlay := hasAudio;
      }
    }
  }

  /** An entry of the music fade configuration. */
  datatype BGMStepFadeEntry = BGMStepFadeEntry(stageIndex: int, useCoord: bool, coord: Int3, fadeSeconds: real)

  function FadeTriggers(entries: seq<BGMStepFadeEntry>): (r: seq<CellTrigger>)
    ensures |r| == |entries|
    ensures forall k :: 0 <= k < |r| ==> r[k] == CellTrigger(entries[k].stageIndex, entries[k].useCoord, entries[k].coord)
  {
    seq(|entries|, k requires 0 <= k < |entries| => CellTrigger(entries[k].stageIndex, entries[k].useCoord, entries[k].coord))
  }

  /** The trigger that fades the background music out on a configured cell. */
  class BGMStepFadeMonoTrigger {
    var lastCell: Int3
    var fired: set<bv64>

    constructor ()
      ensures lastCell == Int3(IntMin, IntMin, IntMin) && fired == {}
    {
      lastCell := Int3(IntMin, IntMin, IntMin);
      fired := {};
    }

    /**
     * One frame with the foot in `cell`. Without tracker, music controller or
     * configuration, or in the same cell, nothing happens. Otherwise the cell is
     * remembered and the first eligible entry fires: its key is recorded and the
     * music is stopped over that entry's fade time.
     */
    method Update(hasTracker: bool, hasController: bool, hasConfig: bool, cell: Int3, entries: seq<BGMStepFadeEntry>)
      returns (stopFade: Option<real>)
      requires |entries| <= IntMax
      modifies this
      ensures !hasTracker || !hasController || !hasConfig || cell == old(lastCell) ==>
        lastCell == old(lastCell) && fired == old(fired) && stopFade.None?
      ensures hasTracker && hasController && hasConfig && cell != old(lastCell) ==>
        var i := FirstEligible(FadeTriggers(entries), cell, old(fired), 0);
        && lastCell == cell
        && (i == -1 ==> fired == old(fired) && stopFade.None?)
        && (i >= 0 ==>
              && PackKey(entries[i].stageIndex, cell, i) !in old(fired)
              && fired == old(fired) + {PackKey(entries[i].stageIndex, cell, i)}
              && stopFade == Some(entries[i].fadeSeconds))
    {
      stopFade := None;
      if !hasTracker || !hasController || !hasConfig || cell == lastCell {
        return;
      }
      lastCell := cell;
      if |entries| == 0 {
        return;
      }
      var i, key := Scan(FadeTriggers(entries), cell, fired);
      if i >= 0 {
        fired := fired + {key};
        stopFade := Some(entries[i].fadeSeconds);
      }
    }
  }
}
