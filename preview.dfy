/**
 * The extension preview: the longest free run of cells along one axis from an
 * anchor, computed against the occupancy map without changing it.
 */
module ExtendPreviewSystem {
  import opened Grid
  import opened Components
  import opened EcsWorld
  import Occupancy

  /**
   * The scan from offset `i` on: it stops before the first occupied cell and
   * never goes past `requested`.
   */
  function FreeRun(start: Int3, dir: Int3, i: int, requested: int, occupied: map<Int3, Entity>): (r: int)
    requires i >= 1
    ensures i - 1 <= r && r <= Max(i - 1, requested)
    ensures forall k :: i <= k <= r ==> Along(start, dir, k) !in occupied
    ensures r < requested ==> Along(start, dir, r + 1) in occupied
    decreases requested - i + 1
  {
    if i > requested then i - 1
    else if Along(start, dir, i) in occupied then i - 1
    else FreeRun(start, dir, i + 1, requested, occupied)
  }

  /**
   * The number of free cells start + dir * i, for i = 1, 2, ..., before the
   * first occupied one, capped at `requestedLength`.
   */
  function CalculateValidLength(start: Int3, dir: Int3, requestedLength: int, occupied: map<Int3, Entity>): (n: int)
    ensures 0 <= n <= Max(0, requestedLength)
    ensures forall i :: 1 <= i <= n ==> Along(start, dir, i) !in occupied
    ensures n < requestedLength ==> Along(start, dir, n + 1) in occupied
  {
    FreeRun(start, dir, 1, requestedLength, occupied)
  }

  /**
   * The three properties above determine the result: any count that is within
   * the cap, sees only free cells and is either the cap or stopped by an
   * occupied cell equals `CalculateValidLength`.
   */
  lemma ValidLengthUnique(start: Int3, dir: Int3, requestedLength: int, occupied: map<Int3, Entity>, n: int)
    requires 0 <= n <= Max(0, requestedLength)
    requires forall i :: 1 <= i <= n ==> Along(start, dir, i) !in occupied
    requires n < requestedLength ==> Along(start, dir, n + 1) in occupied
    ensures n == CalculateValidLength(start, dir, requestedLength, occupied)
  {
  }

  /**
   * Prefix law: asking for fewer cells gives the longer answer cut at the
   * smaller request, so the result is monotone in the requested length.
   */
  lemma {:induction false} PrefixLaw(start: Int3, dir: Int3, l1: int, l2: int, occupied: map<Int3, Entity>)
    requires 0 <= l1 <= l2
    ensures CalculateValidLength(start, dir, l1, occupied) == Min(l1, CalculateValidLength(start, dir, l2, occupied))
    ensures CalculateValidLength(start, dir, l1, occupied) <= CalculateValidLength(start, dir, l2, occupied)
  {
    var v2 := CalculateValidLength(start, dir, l2, occupied);
    ValidLengthUnique(start, dir, l1, occupied, Min(l1, v2));
  }

  /** A walk from an occupied first cell finds nothing, whatever the request. */
  lemma BlockedAtOnce(start: Int3, dir: Int3, requestedLength: int, occupied: map<Int3, Entity>)
    requires Along(start, dir, 1) in occupied
    ensures CalculateValidLength(start, dir, requestedLength, occupied) == 0
  {
  }

  /** The entities the preview query visits. */
  predicate IsPreviewTarget(b: Block)
  {
    b.interactable && b.extendable.Some? && b.preview.Some? && b.selection.Some?
  }

  /**
   * The per-entity preview rule: an unselected anchor shows no valid
   * extension; a selected one shows the free run from its own cell, valid
   * when at least one cell is free. The requested length and direction are
   * kept.
   */
  function PreviewUpdate(isSelected: int, cell: Int3, p: ExtendPreview, occupied: map<Int3, Entity>): (r: ExtendPreview)
    ensures r.previewLength == p.previewLength && r.previewDirection == p.previewDirection
    ensures isSelected == 0 ==> !r.isValid && r.validLength == 0
    ensures isSelected != 0 ==> r.validLength == CalculateValidLength(cell, p.previewDirection, p.previewLength, occupied)
    ensures r.isValid <==> r.validLength > 0
    ensures 0 <= r.validLength <= Max(0, p.previewLength)
  {
    if isSelected == 0 then p.(isValid := false, validLength := 0)
    else
      var n := CalculateValidLength(cell, p.previewDirection, p.previewLength, occupied);
      p.(validLength := n, isValid := n > 0)
  }

  function ApplyPreview(occupied: map<Int3, Entity>): Block -> Block
  {
    b => if IsPreviewTarget(b) then b.(preview := Some(PreviewUpdate(b.selection.value.isSelected, b.cell, b.preview.value, occupied))) else b
  }

  /**
   * The system update: without the map nothing happens; otherwise every
   * preview target gets its preview recomputed and nothing else changes. The
   * map itself is only read.
   */
  method Update(world: World, cubeMap: Occupancy.OccupiedCubeMap?)
    requires world.Valid()
    modifies world`blocks
    ensures world.Valid()
    ensures cubeMap == null ==> world.blocks == old(world.blocks)
    ensures cubeMap != null ==> world.blocks == Mapped(old(world.blocks), IsPreviewTarget, ApplyPreview(cubeMap.entries))
  {
    if cubeMap == null {
      return;
    }
    world.ForEach(IsPreviewTarget, ApplyPreview(cubeMap.entries));
  }
}
