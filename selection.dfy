/**
 * Click selection of interactable cubes: one current selection, marked on the
 * cube by SelectionState.IsSelected = 1 and a highlight, cleared from the
 * previous cube whenever another is chosen or the selection is dropped.
 */
module CubeSelection {
  import opened Grid
  import opened Components
  import opened EcsWorld

  /** What the click ray met. */
  datatype ClickHit =
    | Miss
    | HitWithoutProxy
    | HitProxy(linkedEntity: Entity, proxyColor: Color4)

  const NoColor: Color4 := Color4(0.0, 0.0, 0.0, 0.0)

  /** A cube no longer selected: its existing selection and highlight components are reset. */
  function Unselected(b: Block): (r: Block)
    ensures r.selection.Some? == b.selection.Some? && r.highlight.Some? == b.highlight.Some?
    ensures r.selection.Some? ==> r.selection.value.isSelected == 0
    ensures r.highlight.Some? ==> r.highlight.value.intensity == 0.0
    ensures r.(selection := b.selection, highlight := b.highlight) == b
  {
    b.(selection := if b.selection.Some? then Some(SelectionState(0, 0.0)) else None,
       highlight := if b.highlight.Some? then Some(HighlightState(0.0, NoColor, 0.0)) else None)
  }

  /** The blocks after the cube `prev`, when it is live, has its selection marks cleared. */
  function Cleared(blocks: map<Entity, Block>, prev: Entity): map<Entity, Block>
  {
    if prev != NullEntity && prev in blocks then blocks[prev := Unselected(blocks[prev])] else blocks
  }

  /** A cube selected at time `now`: both components present, set to selected and highlighted. */
  function Chosen(b: Block, intensity: real, color: Color4, now: real): (r: Block)
    ensures r.selection == Some(SelectionState(1, now))
    ensures r.highlight.Some? && r.highlight.value.intensity == intensity && r.highlight.value.color == color
    ensures r.(selection := b.selection, highlight := b.highlight) == b
  {
    b.(selection := Some(SelectionState(1, now)), highlight := Some(HighlightState(intensity, color, 0.0)))
  }

  /** The cube `e` marked as selected. */
  predicate MarkedSelected(blocks: map<Entity, Block>, e: Entity)
  {
    e in blocks && blocks[e].selection.Some? && blocks[e].selection.value.isSelected == 1
  }

  /** The blocks after `prev` is unmarked (when live) and `entity` is marked (when live). */
  function AfterSelect(blocks: map<Entity, Block>, prev: Entity, entity: Entity, intensity: real, color: Color4, now: real): map<Entity, Block>
  {
    var cleared := Cleared(blocks, prev);
    if entity in cleared then cleared[entity := Chosen(cleared[entity], intensity, color, now)] else cleared
  }

  /**
   * After a selection the live chosen cube is marked with the given
   * intensity and colour, a different previous cube is unmarked, no cube is
   * created or destroyed, and every other cube is unchanged. When only the
   * previous selection was marked before, only the new one is marked after.
   */
  lemma AfterSelectSpec(blocks: map<Entity, Block>, prev: Entity, entity: Entity, intensity: real, color: Color4, now: real)
    requires NullEntity !in blocks
    ensures var r := AfterSelect(blocks, prev, entity, intensity, color, now);
            && r.Keys == blocks.Keys
            && (entity in r ==> MarkedSelected(r, entity) && r[entity].highlight.value.intensity == intensity
                                && r[entity].highlight.value.color == color)
            && (prev != entity && prev in r ==> r[prev] == Unselected(blocks[prev]) && !MarkedSelected(r, prev))
            && (forall e :: e in r && e != entity && e != prev ==> r[e] == blocks[e])
            && ((forall e :: MarkedSelected(blocks, e) ==> e == prev) ==> forall e :: MarkedSelected(r, e) ==> e == entity)
  {
    var r := AfterSelect(blocks, prev, entity, intensity, color, now);
    forall e | MarkedSelected(r, e) && e != entity && e != prev
      ensures MarkedSelected(blocks, e)
    {
      assert r[e] == blocks[e];
    }
  }

  /** The query both input managers run to find their anchor: interactable, extendable, with a selection state. */
  predicate IsAnchor(b: Block)
  {
    b.selection.Some? && b.interactable && b.extendable.Some?
  }

  predicate IsSelectedAnchor(b: Block)
  {
    IsAnchor(b) && b.selection.value.isSelected == 1
  }

  /**
   * The first anchor, in query order, whose selection state says selected;
   * Null when there is none.
   */
  method FindSelectedAnchor(world: World) returns (selected: Entity)
    requires world.Valid()
    ensures selected != NullEntity ==> selected in world.blocks && IsSelectedAnchor(world.blocks[selected])
    ensures selected != NullEntity ==> forall e :: e in world.blocks && IsSelectedAnchor(world.blocks[e]) ==> selected <= e
    ensures selected == NullEntity ==> forall e :: e in world.blocks ==> !IsSelectedAnchor(world.blocks[e])
  {
    var es := Select(world.blocks, world.nextId, IsAnchor);
    SelectSpec(world.blocks, world.nextId, IsAnchor);
    selected := NullEntity;
    var i := 0;
    while i < |es|
      invariant 0 <= i <= |es| && selected == NullEntity
      invariant forall k :: 0 <= k < i ==> !IsSelectedAnchor(world.blocks[es[k]])
    {
      if world.blocks[es[i]].selection.value.isSelected == 1 {
        selected := es[i];
        forall e | e in world.blocks && IsSelectedAnchor(world.blocks[e])
          ensures selected <= e
        {
          var k :| 0 <= k < |es| && es[k] == e;
          assert k >= i;
          assert es[i] <= es[k] by {
            if k > i { assert es[i] < es[k]; }
          }
        }
        return;
      }
      i := i + 1;
    }
    forall e | e in world.blocks && IsAnchor(world.blocks[e])
      ensures !IsSelectedAnchor(world.blocks[e])
    {
      assert e in es;
    }
  }

  class CubeSelectionManager {
    var currentSelection: Entity
    const highlightIntensity: real
    const highlightColor: Color4

    constructor (intensity: real, color: Color4)
      ensures currentSelection == NullEntity && highlightIntensity == intensity && highlightColor == color
    {
      currentSelection := NullEntity;
      highlightIntensity := intensity;
      highlightColor := color;
    }

    /** No cube other than the current selection is marked as selected. */
    predicate SingleSelection(world: World)
      reads this, world
    {
      forall e | e in world.blocks :: MarkedSelected(world.blocks, e) ==> e == currentSelection
    }

    /** Whether a live cube is selected. */
    function HasSelection(world: World): (r: bool)
      reads this, world
      ensures r <==> currentSelection in world.blocks && currentSelection != NullEntity
    {
      currentSelection != NullEntity && currentSelection in world.blocks
    }

    /** Clears the selection marks of the current cube, when it is live. */
    method ClearCurrent(world: World)
      requires world.Valid()
      modifies world`blocks
      ensures world.Valid()
      ensures world.blocks == Cleared(old(world.blocks), currentSelection)
    {
      if currentSelection != NullEntity && currentSelection in world.blocks {
        var b := world.blocks[currentSelection];
        if b.selection.Some? {
          b := b.(selection := Some(SelectionState(0, 0.0)));
        }
        if b.highlight.Some? {
          b := b.(highlight := Some(HighlightState(0.0, NoColor, 0.0)));
        }
        world.SetBlock(currentSelection, b);
      }
    }

    /** Marks the live cube `entity` as selected, adding the components it lacks. */
    method MarkSelected(world: World, entity: Entity, color: Color4, now: real)
      requires world.Valid() && entity in world.blocks
      modifies world`blocks
      ensures world.Valid()
      ensures world.blocks == old(world.blocks)[entity := Chosen(old(world.blocks)[entity], highlightIntensity, color, now)]
    {
      var b := world.blocks[entity];
      if b.selection.None? {
        b := b.(selection := Some(SelectionState(0, 0.0)));
      }
      b := b.(selection := Some(SelectionState(1, now)));
      if b.highlight.None? {
        b := b.(highlight := Some(HighlightState(0.0, NoColor, 0.0)));
      }
      b := b.(highlight := Some(HighlightState(highlightIntensity, color, 0.0)));
      world.SetBlock(entity, b);
    }

    /**
     * Selects `entity`: the previous cube is unmarked, the current selection
     * becomes `entity` even when it is not live, and a live `entity` is
     * marked selected with the proxy's highlight colour, or the manager's own
     * when there is no proxy.
     */
    method SelectCube(world: World, entity: Entity, proxyColor: Option<Color4>, now: real)
      requires world.Valid()
      modifies this`currentSelection, world`blocks
      ensures world.Valid() && currentSelection == entity
      ensures world.blocks == AfterSelect(old(world.blocks), old(currentSelection), entity, highlightIntensity,
                                          if proxyColor.Some? then proxyColor.value else highlightColor, now)
    {
      ClearCurrent(world);
      currentSelection := entity;
      if entity in world.blocks {
        var color := if proxyColor.Some? then proxyColor.value else highlightColor;
        MarkSelected(world, entity, color, now);
      }
    }

    /** Drops the selection: the current cube, when live, is unmarked, and the selection becomes Null. */
    method DeselectAll(world: World)
      requires world.Valid()
      modifies this`currentSelection, world`blocks
      ensures world.Valid() && currentSelection == NullEntity
      ensures world.blocks == Cleared(old(world.blocks), old(currentSelection))
      ensures old(SingleSelection(world)) ==> forall e :: !MarkedSelected(world.blocks, e)
    {
      ClearCurrent(world);
      currentSelection := NullEntity;
    }

    /**
     * A click: a proxy with a linked entity selects that entity, a hit
     * without one changes nothing, and a miss drops the selection.
     */
    method TrySelectCube(world: World, hit: ClickHit, now: real)
      requires world.Valid()
      modifies this`currentSelection, world`blocks
      ensures world.Valid()
      ensures hit.HitProxy? && hit.linkedEntity != NullEntity ==> currentSelection == hit.linkedEntity
      ensures hit.Miss? ==> currentSelection == NullEntity
      ensures (hit.HitWithoutProxy? || (hit.HitProxy? && hit.linkedEntity == NullEntity)) ==>
                currentSelection == old(currentSelection) && world.blocks == old(world.blocks)
      ensures hit.HitProxy? && hit.linkedEntity != NullEntity ==>
                world.blocks == AfterSelect(old(world.blocks), old(currentSelection), hit.linkedEntity,
                                            highlightIntensity, hit.proxyColor, now)
      ensures hit.Miss? ==>
                world.blocks == Cleared(old(world.blocks), old(currentSelection))
      ensures old(SingleSelection(world)) ==> SingleSelection(world)
      ensures hit.Miss? && old(SingleSelection(world)) ==> forall e :: !MarkedSelected(world.blocks, e)
    {
      match hit {
        case HitProxy(linked, color) =>
          if linked != NullEntity {
            AfterSelectSpec(world.blocks, currentSelection, linked, highlightIntensity, color, now);
            SelectCube(world, linked, Some(color), now);
          }
        case HitWithoutProxy =>
        case Miss =>
          DeselectAll(world);
      }
    }
  }
}
