/**
 * Keyboard extension: while an anchor is selected, holding a direction key
 * grows a preview by one cell per interval (after a hold threshold), and
 * releasing all direction keys turns a positive preview into an execution
 * request. This manager writes its own request component, which has no start
 * offset.
 */
module ExtendInput {
  import opened Grid
  import opened Components
  import opened EcsWorld
  import CubeSelection

  /** The keys held this frame. */
  datatype Keys = Keys(
    w: bool, upArrow: bool, s: bool, downArrow: bool,
    a: bool, leftArrow: bool, d: bool, rightArrow: bool,
    e: bool, q: bool)

  /** The six key groups in priority order: forward, back, left, right, up, down. */
  function HeldGroups(k: Keys): (r: seq<bool>)
    ensures |r| == 6
  {
    [k.w || k.upArrow, k.s || k.downArrow, k.a || k.leftArrow, k.d || k.rightArrow, k.e, k.q]
  }

  /** The axis of each key group, in the same order. */
  const GroupAxes: seq<Int3> := [Int3(0, 0, 1), Int3(0, 0, -1), Int3(-1, 0, 0), Int3(1, 0, 0), Int3(0, 1, 0), Int3(0, -1, 0)]

  /** The direction held this frame: that of the highest-priority group held, or zero. */
  function GetDirectionInput(k: Keys): (r: Int3)
    ensures r == Zero3 || IsUnitAxis(r)
    ensures r == Zero3 <==> true !in HeldGroups(k)
  {
    if k.w || k.upArrow then Int3(0, 0, 1)
    else if k.s || k.downArrow then Int3(0, 0, -1)
    else if k.a || k.leftArrow then Int3(-1, 0, 0)
    else if k.d || k.rightArrow then Int3(1, 0, 0)
    else if k.e then Int3(0, 1, 0)
    else if k.q then Int3(0, -1, 0)
    else Zero3
  }

  /**
   * Priority: the first held group decides the direction, whatever lower
   * groups are also held, and distinct groups give distinct axes.
   */
  lemma DirectionPriority(k: Keys, i: int)
    requires 0 <= i < 6 && HeldGroups(k)[i]
    requires forall j :: 0 <= j < i ==> !HeldGroups(k)[j]
    ensures GetDirectionInput(k) == GroupAxes[i]
    ensures forall j :: 0 <= j < 6 && j != i ==> GroupAxes[j] != GroupAxes[i]
  {
    var g := HeldGroups(k);
    if i > 0 { assert !g[0]; }
    if i > 1 { assert !g[1]; }
    if i > 2 { assert !g[2]; }
    if i > 3 { assert !g[3]; }
    if i > 4 { assert !g[4]; }
  }

  /** The manager's hold state: direction, hold time, last growth time, preview length and whether a hold is on. */
  datatype HoldState = HoldState(direction: Int3, holdTime: real, lastExtendTime: real, previewLength: int, holding: bool)

  /** The state after a release: no direction, no hold, times and length zeroed. */
  const Idle := HoldState(Zero3, 0.0, 0.0, 0, false)

  /** Whether holding `direction` for `dt` more seconds at `now` grows the preview by one. */
  predicate Grows(h: HoldState, direction: Int3, dt: real, now: real, threshold: real, interval: real)
  {
    var restart := direction != h.direction;
    (if restart then 0.0 else h.holdTime) + dt >= threshold
    && now - (if restart then 0.0 else h.lastExtendTime) >= interval
  }

  /**
   * The hold state after one frame of holding `direction`: a new direction
   * restarts from zero; a growth adds one cell, capped at `maxLen`, and
   * stamps the time.
   */
  function HoldStep(h: HoldState, direction: Int3, dt: real, now: real, threshold: real, interval: real, maxLen: int): (r: HoldState)
    ensures r.direction == direction
    ensures direction != h.direction ==> r.holding && r.holdTime == dt
    ensures direction == h.direction ==> r.holding == h.holding && r.holdTime == h.holdTime + dt
    ensures r.previewLength <= (if direction != h.direction then 0 else h.previewLength) + 1
    ensures !Grows(h, direction, dt, now, threshold, interval) ==>
              r.previewLength == (if direction != h.direction then 0 else h.previewLength)
    ensures Min(0, maxLen) <= h.previewLength <= Max(0, maxLen) ==> Min(0, maxLen) <= r.previewLength <= Max(0, maxLen)
  {
    var restart := direction != h.direction;
    var last := if restart then 0.0 else h.lastExtendTime;
    var base := if restart then 0 else h.previewLength;
    var grow := Grows(h, direction, dt, now, threshold, interval);
    HoldState(direction, (if restart then 0.0 else h.holdTime) + dt, if grow then now else last,
              if grow then Min(base + 1, maxLen) else base, restart || h.holding)
  }

  /** The anchor `e`, when it is live, with its preview removed. */
  function WithoutPreview(blocks: map<Entity, Block>, e: Entity): map<Entity, Block>
  {
    if e != NullEntity && e in blocks then blocks[e := blocks[e].(preview := None)] else blocks
  }

  /** The anchor `e`, when it is live, publishing `len` and `dir`: a new preview is valid with no validated length. */
  function WithPreview(blocks: map<Entity, Block>, e: Entity, len: int, dir: Int3): map<Entity, Block>
  {
    if e != NullEntity && e in blocks then
      var b := blocks[e];
      blocks[e := b.(preview := Some(
        if b.preview.Some? then b.preview.value.(previewLength := len, previewDirection := dir)
        else ExtendPreview(len, dir, true, 0)))]
    else blocks
  }

  /** The confirmation reads a preview the anchor does not have: the source's read throws. */
  predicate ConfirmFails(blocks: map<Entity, Block>, e: Entity)
  {
    e != NullEntity && e in blocks && blocks[e].inputRequest.None? && blocks[e].preview.None?
  }

  /** The live anchor `e` without a request gets one from its preview: the validated length when positive, else the requested one. */
  function WithRequest(blocks: map<Entity, Block>, e: Entity, clockMillis: int): map<Entity, Block>
  {
    if e != NullEntity && e in blocks && blocks[e].inputRequest.None? && blocks[e].preview.Some? then
      var p := blocks[e].preview.value;
      blocks[e := blocks[e].(inputRequest := Some(InputExtendRequest(
        p.previewDirection, if p.validLength > 0 then p.validLength else p.previewLength, clockMillis)))]
    else blocks
  }

  /** The release fails when it has to confirm and the confirmation fails. */
  predicate ReleaseFails(blocks: map<Entity, Block>, e: Entity, h: HoldState)
  {
    h.holding && h.previewLength > 0 && ConfirmFails(blocks, e)
  }

  /** The blocks after a release that does not fail: a positive hold is confirmed, then the preview goes. */
  function ReleaseBlocks(blocks: map<Entity, Block>, e: Entity, h: HoldState, clockMillis: int): map<Entity, Block>
  {
    WithoutPreview(if h.holding && h.previewLength > 0 then WithRequest(blocks, e, clockMillis) else blocks, e)
  }

  /**
   * A release touches the selected anchor alone. After a positive hold an
   * anchor without a request gets the one its preview describes, a pending
   * request is kept, and the preview is gone; without a positive hold no
   * request appears.
   */
  lemma ReleaseEffect(blocks: map<Entity, Block>, e: Entity, h: HoldState, clockMillis: int)
    requires !ReleaseFails(blocks, e, h)
    ensures var r := ReleaseBlocks(blocks, e, h, clockMillis);
      && r.Keys == blocks.Keys
      && (forall x :: x in blocks && x != e ==> r[x] == blocks[x])
      && (e != NullEntity && e in blocks ==>
            && r[e].preview.None?
            && r[e] == blocks[e].(preview := None, inputRequest := r[e].inputRequest)
            && (blocks[e].inputRequest.Some? ==> r[e].inputRequest == blocks[e].inputRequest)
            && (!(h.holding && h.previewLength > 0) ==> r[e].inputRequest == blocks[e].inputRequest)
            && (h.holding && h.previewLength > 0 && blocks[e].inputRequest.None? ==>
                  var p := blocks[e].preview.value;
                  r[e].inputRequest == Some(InputExtendRequest(
                    p.previewDirection, if p.validLength > 0 then p.validLength else p.previewLength, clockMillis))))
  {
  }

  class ExtendInputManager {
    const holdThreshold: real
    const extendInterval: real
    const maxExtendLength: int
    var currentSelected: Entity
    var wasInExtendMode: bool
    var currentDirection: Int3
    var holdTime: real
    var lastExtendTime: real
    var currentPreviewLength: int
    var isHoldingDirection: bool

    function Hold(): HoldState
      reads this
    {
      HoldState(currentDirection, holdTime, lastExtendTime, currentPreviewLength, isHoldingDirection)
    }

    /** The preview length lies between 0 and the cap (the cap itself when it is negative). */
    predicate Valid()
      reads this
    {
      Min(0, maxExtendLength) <= currentPreviewLength <= Max(0, maxExtendLength)
    }

    constructor (holdThreshold: real, extendInterval: real, maxExtendLength: int)
      ensures Valid() && this.holdThreshold == holdThreshold && this.extendInterval == extendInterval
      ensures this.maxExtendLength == maxExtendLength
      ensures currentSelected == NullEntity && currentDirection == Zero3 && currentPreviewLength == 0 && !isHoldingDirection
    {
      this.holdThreshold := holdThreshold;
      this.extendInterval := extendInterval;
      this.maxExtendLength := maxExtendLength;
      currentSelected := NullEntity;
      wasInExtendMode := false;
      currentDirection := Zero3;
      holdTime := 0.0;
      lastExtendTime := 0.0;
      currentPreviewLength := 0;
      isHoldingDirection := false;
    }

    /** Removes the selected anchor's preview, if it has one. */
    method ClearPreview(world: World)
      requires world.Valid()
      modifies world`blocks
      ensures world.Valid()
      ensures currentSelected != NullEntity && currentSelected in old(world.blocks) ==>
                world.blocks == old(world.blocks)[currentSelected := old(world.blocks)[currentSelected].(preview := None)]
      ensures !(currentSelected != NullEntity && currentSelected in old(world.blocks)) ==> world.blocks == old(world.blocks)
    {
      if currentSelected != NullEntity && currentSelected in world.blocks && world.blocks[currentSelected].preview.Some? {
        world.SetBlock(currentSelected, world.blocks[currentSelected].(preview := None));
      }
    }

    /**
     * Publishes the preview length and direction on the selected anchor: a
     * missing preview is added, marked valid with no validated length yet; an
     * existing one keeps its validation fields.
     */
    method UpdatePreview(world: World)
      requires world.Valid()
      modifies world`blocks
      ensures world.Valid()
      ensures !(currentSelected != NullEntity && currentSelected in old(world.blocks)) ==> world.blocks == old(world.blocks)
      ensures currentSelected != NullEntity && currentSelected in old(world.blocks) ==>
                var b := old(world.blocks)[currentSelected];
                var p := if b.preview.Some? then b.preview.value.(previewLength := currentPreviewLength, previewDirection := currentDirection)
                         else ExtendPreview(currentPreviewLength, currentDirection, true, 0);
                world.blocks == old(world.blocks)[currentSelected := b.(preview := Some(p))]
    {
      if currentSelected == NullEntity || currentSelected !in world.blocks {
        return;
      }
      var b := world.blocks[currentSelected];
      if b.preview.None? {
        world.SetBlock(currentSelected, b.(preview := Some(ExtendPreview(currentPreviewLength, currentDirection, true, 0))));
      } else {
        var p := b.preview.value;
        world.SetBlock(currentSelected, b.(preview := Some(p.(previewLength := currentPreviewLength, previewDirection := currentDirection))));
      }
    }

    /**
     * Adds the request for the previewed extension: the validated length
     * when positive, else the requested one, under the clock-derived chain
     * id. A pending request is never overwritten. An anchor without a
     * preview makes the read fail: `ok` is false and nothing changes.
     */
    method ConfirmExtend(world: World, clockMillis: int) returns (ok: bool)
      requires world.Valid()
      modifies world`blocks
      ensures world.Valid()
      ensures !ok <==> currentSelected != NullEntity && currentSelected in old(world.blocks)
                       && old(world.blocks)[currentSelected].inputRequest.None?
                       && old(world.blocks)[currentSelected].preview.None?
      ensures !ok ==> world.blocks == old(world.blocks)
      ensures ok && currentSelected != NullEntity && currentSelected in old(world.blocks)
                 && old(world.blocks)[currentSelected].inputRequest.None? ==>
                var b := old(world.blocks)[currentSelected];
                var p := b.preview.value;
                world.blocks == old(world.blocks)[currentSelected := b.(inputRequest := Some(InputExtendRequest(
                  p.previewDirection, if p.validLength > 0 then p.validLength else p.previewLength, clockMillis)))]
      ensures currentSelected == NullEntity || currentSelected !in old(world.blocks)
              || old(world.blocks)[currentSelected].inputRequest.Some? ==>
                world.blocks == old(world.blocks)
    {
      ok := true;
      if currentSelected == NullEntity || currentSelected !in world.blocks {
        return;
      }
      var b := world.blocks[currentSelected];
      if b.inputRequest.None? {
        if b.preview.None? {
          return false;
        }
        var p := b.preview.value;
        var len := if p.validLength > 0 then p.validLength else p.previewLength;
        world.SetBlock(currentSelected, b.(inputRequest := Some(InputExtendRequest(p.previewDirection, len, clockMillis))));
      }
    }

    /**
     * Holding `direction` for `dt` seconds at time `now`. A new direction
     * restarts the hold from zero. Once the hold reaches the threshold, the
     * preview grows by one (capped at the maximum) at most once per interval
     * and is published on the anchor.
     */
    method HandleDirectionHold(world: World, direction: Int3, dt: real, now: real)
      requires Valid() && world.Valid()
      modifies this`currentDirection, this`holdTime, this`lastExtendTime, this`currentPreviewLength,
               this`isHoldingDirection, world`blocks
      ensures Valid() && world.Valid()
      ensures currentDirection == direction
      ensures direction != old(currentDirection) ==> isHoldingDirection
      ensures direction == old(currentDirection) ==> isHoldingDirection == old(isHoldingDirection)
      ensures var restart := direction != old(currentDirection);
              var held := (if restart then 0.0 else old(holdTime)) + dt;
              var last := if restart then 0.0 else old(lastExtendTime);
              var base := if restart then 0 else old(currentPreviewLength);
              && holdTime == held
              && (held >= holdThreshold && now - last >= extendInterval ==>
                    currentPreviewLength == Min(base + 1, maxExtendLength) && lastExtendTime == now)
              && (!(held >= holdThreshold && now - last >= extendInterval) ==>
                    currentPreviewLength == base && lastExtendTime == last && world.blocks == old(world.blocks))
      ensures currentPreviewLength <= (if direction != old(currentDirection) then 0 else old(currentPreviewLength)) + 1
      ensures Hold() == HoldStep(old(Hold()), direction, dt, now, holdThreshold, extendInterval, maxExtendLength)
      ensures world.blocks == if Grows(old(Hold()), direction, dt, now, holdThreshold, extendInterval)
                              then WithPreview(old(world.blocks), currentSelected, currentPreviewLength, direction)
                              else old(world.blocks)
    {
      if direction != currentDirection {
        currentDirection := direction;
        holdTime := 0.0;
        lastExtendTime := 0.0;
        currentPreviewLength := 0;
        isHoldingDirection := true;
      }
      holdTime := holdTime + dt;
      if holdTime >= holdThreshold {
        if now - lastExtendTime >= extendInterval {
          currentPreviewLength := currentPreviewLength + 1;
          lastExtendTime := now;
          if currentPreviewLength > maxExtendLength {
            currentPreviewLength := maxExtendLength;
          }
          UpdatePreview(world);
        }
      }
    }

    /**
     * All direction keys released: a hold with a positive preview is
     * confirmed, then the preview is removed and the hold state zeroed.
     * When the confirmation fails nothing after it runs.
     */
    method HandleDirectionRelease(world: World, clockMillis: int) returns (ok: bool)
      requires Valid() && world.Valid()
      modifies this`currentDirection, this`holdTime, this`lastExtendTime, this`currentPreviewLength,
               this`isHoldingDirection, world`blocks
      ensures Valid() && world.Valid()
      ensures !(old(isHoldingDirection) && old(currentPreviewLength) > 0) ==> ok
      ensures ok ==> currentDirection == Zero3 && holdTime == 0.0 && lastExtendTime == 0.0
                     && currentPreviewLength == 0 && !isHoldingDirection
      ensures ok && currentSelected != NullEntity && currentSelected in old(world.blocks) ==>
                currentSelected in world.blocks && world.blocks[currentSelected].preview.None?
      ensures ok && old(isHoldingDirection) && old(currentPreviewLength) > 0 && currentSelected != NullEntity
                 && currentSelected in old(world.blocks) ==>
                currentSelected in world.blocks && world.blocks[currentSelected].inputRequest.Some?
      ensures !ok ==> world.blocks == old(world.blocks) && currentPreviewLength == old(currentPreviewLength)
      ensures ok <==> !ReleaseFails(old(world.blocks), currentSelected, old(Hold()))
      ensures ok ==> Hold() == Idle && world.blocks == ReleaseBlocks(old(world.blocks), currentSelected, old(Hold()), clockMillis)
    {
      ok := true;
      if isHoldingDirection && currentPreviewLength > 0 {
        ok := ConfirmExtend(world, clockMillis);
        if !ok {
          return;
        }
      }
      ClearPreview(world);
      currentDirection := Zero3;
      holdTime := 0.0;
      lastExtendTime := 0.0;
      currentPreviewLength := 0;
      isHoldingDirection := false;
    }

    /**
     * One frame. Without a selected anchor the preview is cleared and no
     * hold or release logic runs; otherwise a held direction extends the
     * hold and no held direction is a release.
     */
    method Update(world: World, keys: Keys, dt: real, now: real, clockMillis: int) returns (ok: bool)
      requires Valid() && world.Valid()
      modifies this, world`blocks
      ensures Valid() && world.Valid()
      ensures currentSelected != NullEntity ==> currentSelected in old(world.blocks) && CubeSelection.IsSelectedAnchor(old(world.blocks)[currentSelected])
      ensures currentSelected != NullEntity ==>
                forall e :: e in old(world.blocks) && CubeSelection.IsSelectedAnchor(old(world.blocks)[e]) ==> currentSelected <= e
      ensures currentSelected == NullEntity ==> forall e :: e in old(world.blocks) ==> !CubeSelection.IsSelectedAnchor(old(world.blocks)[e])
      ensures currentSelected == NullEntity ==> world.blocks == old(world.blocks) && ok && !wasInExtendMode
      ensures GetDirectionInput(keys) != Zero3 ==> ok
      ensures currentSelected != NullEntity && GetDirectionInput(keys) != Zero3 ==> currentDirection == GetDirectionInput(keys)
      ensures currentSelected != NullEntity && GetDirectionInput(keys) != Zero3 ==>
                var dir := GetDirectionInput(keys);
                && Hold() == HoldStep(old(Hold()), dir, dt, now, holdThreshold, extendInterval, maxExtendLength)
                && world.blocks == if Grows(old(Hold()), dir, dt, now, holdThreshold, extendInterval)
                                   then WithPreview(old(world.blocks), currentSelected, currentPreviewLength, dir)
                                   else old(world.blocks)
      ensures currentSelected != NullEntity && GetDirectionInput(keys) == Zero3 ==>
                && (ok <==> !ReleaseFails(old(world.blocks), currentSelected, old(Hold())))
                && (ok ==> Hold() == Idle && world.blocks == ReleaseBlocks(old(world.blocks), currentSelected, old(Hold()), clockMillis))
                && (!ok ==> world.blocks == old(world.blocks))
    {
      currentSelected := CubeSelection.FindSelectedAnchor(world);
      var isInExtendMode := currentSelected != NullEntity && currentSelected in world.blocks;
      wasInExtendMode := isInExtendMode;
      if !isInExtendMode {
        ClearPreview(world);
        return true;
      }
      var inputDirection := GetDirectionInput(keys);
      if inputDirection != Zero3 {
        HandleDirectionHold(world, inputDirection, dt, now);
        ok := true;
      } else {
        ok := HandleDirectionRelease(world, clockMillis);
      }
    }
  }
}
