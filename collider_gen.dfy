/**
 * Collider generation for a cube layout: boxes as (start, size) on the
 * lattice, either one unit box per layout entry, a greedy 3-D merge of the
 * distinct coordinates into disjoint boxes, or a greedy 2-D merge layer by
 * layer. Each merge grows boxes from a cell still uncovered and removes the
 * cells it covers until none remain.
 */
module ColliderGenerator {
  import opened Grid
  import opened Components

  /** An emitted box collider: `size` cells from `start` along +X, +Y and +Z. */
  datatype Box = Box(start: Int3, size: Int3)

  /** A rectangle size in a layer: x along +X, y along +Z (Vector2Int). */
  datatype Size2 = Size2(x: int, y: int)

  predicate InBox(start: Int3, size: Int3, c: Int3)
  {
    && start.x <= c.x < start.x + size.x
    && start.y <= c.y < start.y + size.y
    && start.z <= c.z < start.z + size.z
  }

  /** The cells of a box. */
  function BoxCells(b: Box): (r: set<Int3>)
    ensures forall c :: c in r <==> InBox(b.start, b.size, c)
  {
    var s := b.start;
    var n := b.size;
    set x, y, z | s.x <= x < s.x + n.x && s.y <= y < s.y + n.y && s.z <= z < s.z + n.z :: Int3(x, y, z)
  }

  /** Every cell start + (x, y, z), 0 <= x < size.x, 0 <= y < size.y, 0 <= z < size.z, is available. */
  predicate CanFormBox(start: Int3, size: Int3, available: set<Int3>)
  {
    forall x, y, z :: 0 <= x < size.x && 0 <= y < size.y && 0 <= z < size.z ==> Add(start, Int3(x, y, z)) in available
  }

  /** The box test is the inclusion of the box's cells in the available set. */
  lemma CanFormBoxIff(start: Int3, size: Int3, available: set<Int3>)
    ensures CanFormBox(start, size, available) <==> BoxCells(Box(start, size)) <= available
  {
    if CanFormBox(start, size, available) {
      forall c | c in BoxCells(Box(start, size))
        ensures c in available
      {
        assert Add(start, Int3(c.x - start.x, c.y - start.y, c.z - start.z)) == c;
      }
    }
    if BoxCells(Box(start, size)) <= available {
      forall x, y, z | 0 <= x < size.x && 0 <= y < size.y && 0 <= z < size.z
        ensures Add(start, Int3(x, y, z)) in available
      {
        assert InBox(start, size, Add(start, Int3(x, y, z)));
      }
    }
  }

  predicate IsSize(s: Int3)
  {
    s.x >= 1 && s.y >= 1 && s.z >= 1
  }

  function Volume(s: Int3): int
  {
    s.x * s.y * s.z
  }

  /** A componentwise smaller size has no larger volume. */
  lemma VolumeMonotone(a: Int3, b: Int3)
    requires a.x >= 0 && a.y >= 0 && a.z >= 0
    requires a.x <= b.x && a.y <= b.y && a.z <= b.z
    ensures Volume(a) <= Volume(b)
  {
    assert a.x * a.y <= b.x * a.y;
    assert a.x * a.y <= b.x * b.y by {
      assert b.x * a.y <= b.x * b.y;
    }
    assert (a.x * a.y) * a.z <= (b.x * b.y) * a.z;
    assert (b.x * b.y) * a.z <= (b.x * b.y) * b.z;
  }

  /** The size `s` with component `axis` (0 = x, 1 = y, 2 = z) replaced by `v`. */
  function WithAxis(s: Int3, axis: int, v: int): Int3
  {
    if axis == 0 then s.(x := v) else if axis == 1 then s.(y := v) else s.(z := v)
  }

  function Unit(axis: int): Int3
  {
    if axis == 0 then Int3(1, 0, 0) else if axis == 1 then Int3(0, 1, 0) else Int3(0, 0, 1)
  }

  /** The first `m` cells from `start` along `d`. */
  function Line(start: Int3, d: Int3, m: nat): set<Int3>
  {
    set i | 0 <= i < m :: Along(start, d, i)
  }

  lemma {:induction false} LineSize(start: Int3, d: Int3, m: nat)
    requires IsUnitAxis(d)
    ensures |Line(start, d, m)| == m
  {
    if m > 0 {
      LineSize(start, d, m - 1);
      assert Line(start, d, m) == Line(start, d, m - 1) + {Along(start, d, m - 1)};
      forall i | 0 <= i < m - 1
        ensures Along(start, d, i) != Along(start, d, m - 1)
      {
        AlongInjective(start, d, i, m - 1);
      }
    }
  }

  /** A box that fits has no side longer than the number of available cells. */
  lemma SideBound(start: Int3, size: Int3, axis: int, available: set<Int3>)
    requires 0 <= axis <= 2 && IsSize(size) && CanFormBox(start, size, available)
    ensures (if axis == 0 then size.x else if axis == 1 then size.y else size.z) <= |available|
  {
    var m := if axis == 0 then size.x else if axis == 1 then size.y else size.z;
    var d := Unit(axis);
    forall c | c in Line(start, d, m)
      ensures c in available
    {
      var i :| 0 <= i < m && c == Along(start, d, i);
      if axis == 0 { assert c == Add(start, Int3(i, 0, 0)); }
      else if axis == 1 { assert c == Add(start, Int3(0, i, 0)); }
      else { assert c == Add(start, Int3(0, 0, i)); }
    }
    LineSize(start, d, m);
    SubsetSize(Line(start, d, m), available);
  }

  lemma {:induction false} SubsetSize<T>(a: set<T>, b: set<T>)
    requires a <= b
    ensures |a| <= |b|
  {
    if a != {} {
      var e :| e in a;
      SubsetSize(a - {e}, b - {e});
    }
  }

  /**
   * The longest fit along one axis, the other two sides held: the side grows
   * from 1 while one more layer of cells is available.
   */
  method GrowSide(start: Int3, size: Int3, axis: int, available: set<Int3>) returns (m: int)
    requires 0 <= axis <= 2 && IsSize(size) && CanFormBox(start, WithAxis(size, axis, 1), available)
    ensures m >= 1 && CanFormBox(start, WithAxis(size, axis, m), available)
    ensures !CanFormBox(start, WithAxis(size, axis, m + 1), available)
  {
    m := 1;
    while CanFormBox(start, WithAxis(size, axis, m + 1), available)
      invariant m >= 1 && CanFormBox(start, WithAxis(size, axis, m), available)
      decreases |available| - m
    {
      SideBound(start, WithAxis(size, axis, m + 1), axis, available);
      m := m + 1;
    }
  }

  /**
   * The box grown from `start`: X as far as it goes, then for every width
   * from the widest down the tallest fit, then for every height the deepest
   * fit, keeping the first strictly larger volume. Because each side's fits
   * are closed downwards, every box that fits at `start` is dominated by one
   * of the sizes tried, so the result has the largest volume of all.
   */
  method FindLargestBox(start: Int3, available: set<Int3>) returns (bestSize: Int3)
    requires start in available
    ensures IsSize(bestSize) && CanFormBox(start, bestSize, available)
    ensures forall s :: IsSize(s) && CanFormBox(start, s, available) ==> Volume(s) <= Volume(bestSize)
  {
    assert Add(start, Int3(0, 0, 0)) == start;
    bestSize := Int3(1, 1, 1);
    var bestVolume := 1;
    var maxX := GrowSide(start, Int3(1, 1, 1), 0, available);
    var x := maxX;
    while x >= 1
      invariant 0 <= x <= maxX
      invariant IsSize(bestSize) && CanFormBox(start, bestSize, available) && bestVolume == Volume(bestSize)
      invariant forall s :: IsSize(s) && CanFormBox(start, s, available) && s.x > x ==> Volume(s) <= bestVolume
    {
      bestSize, bestVolume := LargestOfWidth(start, x, available, bestSize, bestVolume);
      x := x - 1;
    }
  }

  /** One width of FindLargestBox: the heights from the tallest fit down to 1. */
  method LargestOfWidth(start: Int3, x: int, available: set<Int3>, size0: Int3, volume0: int)
    returns (bestSize: Int3, bestVolume: int)
    requires x >= 1 && CanFormBox(start, Int3(x, 1, 1), available)
    requires IsSize(size0) && CanFormBox(start, size0, available) && volume0 == Volume(size0)
    requires forall s :: IsSize(s) && CanFormBox(start, s, available) && s.x > x ==> Volume(s) <= volume0
    ensures IsSize(bestSize) && CanFormBox(start, bestSize, available) && bestVolume == Volume(bestSize)
    ensures forall s :: IsSize(s) && CanFormBox(start, s, available) && s.x >= x ==> Volume(s) <= bestVolume
  {
    bestSize, bestVolume := size0, volume0;
    var maxY := GrowSide(start, Int3(x, 1, 1), 1, available);
    var y := maxY;
    while y >= 1
      invariant 0 <= y <= maxY
      invariant IsSize(bestSize) && CanFormBox(start, bestSize, available) && bestVolume == Volume(bestSize)
      invariant forall s :: IsSize(s) && CanFormBox(start, s, available) && (s.x > x || (s.x == x && s.y > y)) ==>
                  Volume(s) <= bestVolume
    {
      var maxZ := GrowSide(start, Int3(x, y, 1), 2, available);
      var volume := x * y * maxZ;
      if volume > bestVolume {
        bestVolume := volume;
        bestSize := Int3(x, y, maxZ);
      }
      forall s | IsSize(s) && CanFormBox(start, s, available) && s.x == x && s.y == y
        ensures Volume(s) <= bestVolume
      {
        assert s.z <= maxZ;
        VolumeMonotone(s, Int3(x, y, maxZ));
      }
      y := y - 1;
    }
  }

  /** Every cell start + (x, 0, z), 0 <= x < size.x, 0 <= z < size.y, is available. */
  predicate CanFormBox2D(start: Int3, size: Size2, available: set<Int3>)
  {
    forall x, z :: 0 <= x < size.x && 0 <= z < size.y ==> Add(start, Int3(x, 0, z)) in available
  }

  function Area(s: Size2): int
  {
    s.x * s.y
  }

  /** The rectangle test is the box test for a box one cell high. */
  lemma CanFormBox2DIsFlatBox(start: Int3, size: Size2, available: set<Int3>)
    ensures CanFormBox2D(start, size, available) <==> CanFormBox(start, Int3(size.x, 1, size.y), available)
  {
    if CanFormBox2D(start, size, available) {
      forall x, y, z | 0 <= x < size.x && 0 <= y < 1 && 0 <= z < size.y
        ensures Add(start, Int3(x, y, z)) in available
      {
        assert y == 0;
      }
    }
  }

  /**
   * The layer rectangle: every width 1..64, and for each the depths 1..64 up
   * to the first that does not fit, keeping the first strictly larger area.
   * The result always has sides in 1..64; when `start` is available it fits
   * and no rectangle with sides up to 64 that fits at `start` is larger.
   */
  method FindLargestBox2D(start: Int3, available: set<Int3>) returns (bestSize: Size2)
    ensures 1 <= bestSize.x <= 64 && 1 <= bestSize.y <= 64
    ensures start in available ==> CanFormBox2D(start, bestSize, available)
    ensures forall s: Size2 :: 1 <= s.x <= 64 && 1 <= s.y <= 64 && CanFormBox2D(start, s, available) ==> Area(s) <= Area(bestSize)
  {
    bestSize := Size2(1, 1);
    var bestArea := 1;
    assert start in available ==> CanFormBox2D(start, bestSize, available) by {
      assert Add(start, Int3(0, 0, 0)) == start;
    }
    for maxX := 1 to 65
      invariant 1 <= bestSize.x <= 64 && 1 <= bestSize.y <= 64 && bestArea == Area(bestSize)
      invariant start in available ==> CanFormBox2D(start, bestSize, available)
      invariant forall s: Size2 :: 1 <= s.x < maxX && 1 <= s.y <= 64 && CanFormBox2D(start, s, available) ==> Area(s) <= bestArea
    {
      var maxZ := 1;
      while maxZ <= 64
        invariant 1 <= maxZ <= 65
        invariant 1 <= bestSize.x <= 64 && 1 <= bestSize.y <= 64 && bestArea == Area(bestSize)
        invariant start in available ==> CanFormBox2D(start, bestSize, available)
        invariant forall s: Size2 :: 1 <= s.y <= 64 && CanFormBox2D(start, s, available) && (1 <= s.x < maxX || (s.x == maxX && s.y < maxZ)) ==>
                    Area(s) <= bestArea
      {
        if CanFormBox2D(start, Size2(maxX, maxZ), available) {
          var area := maxX * maxZ;
          if area > bestArea {
            bestArea := area;
            bestSize := Size2(maxX, maxZ);
          }
          maxZ := maxZ + 1;
        } else {
          break;
        }
      }
    }
  }

  /** A row of the box one cell longer along z holds one more cell. */
  lemma RowGrows(start: Int3, x: int, y: int, z: int)
    requires z >= 0
    ensures BoxCells(Box(Add(start, Int3(x, y, 0)), Int3(1, 1, z + 1)))
      == BoxCells(Box(Add(start, Int3(x, y, 0)), Int3(1, 1, z))) + {Add(start, Int3(x, y, z))}
  {
    var row := Add(start, Int3(x, y, 0));
    var a, b := BoxCells(Box(row, Int3(1, 1, z + 1))), BoxCells(Box(row, Int3(1, 1, z)));
    forall c | c in a
      ensures c in b || c == Add(start, Int3(x, y, z))
    {
      assert InBox(row, Int3(1, 1, z + 1), c);
    }
  }

  /** A slab of the box one row longer along y holds that row more. */
  lemma SlabGrows(start: Int3, x: int, y: int, sz: int)
    requires y >= 0 && sz >= 0
    ensures BoxCells(Box(Add(start, Int3(x, 0, 0)), Int3(1, y + 1, sz)))
      == BoxCells(Box(Add(start, Int3(x, 0, 0)), Int3(1, y, sz))) + BoxCells(Box(Add(start, Int3(x, y, 0)), Int3(1, 1, sz)))
  {
    var slab, row := Add(start, Int3(x, 0, 0)), Add(start, Int3(x, y, 0));
    forall c | InBox(slab, Int3(1, y + 1, sz), c)
      ensures InBox(slab, Int3(1, y, sz), c) || InBox(row, Int3(1, 1, sz), c)
    {
    }
  }

  /** The box one slab wider along x holds that slab more. */
  lemma BoxGrows(start: Int3, x: int, sy: int, sz: int)
    requires x >= 0 && sy >= 0 && sz >= 0
    ensures BoxCells(Box(start, Int3(x + 1, sy, sz)))
      == BoxCells(Box(start, Int3(x, sy, sz))) + BoxCells(Box(Add(start, Int3(x, 0, 0)), Int3(1, sy, sz)))
  {
    var slab := Add(start, Int3(x, 0, 0));
    forall c | InBox(start, Int3(x + 1, sy, sz), c)
      ensures InBox(start, Int3(x, sy, sz), c) || InBox(slab, Int3(1, sy, sz), c)
    {
    }
  }

  /**
   * Removes the cells of the box from `remaining` one offset at a time,
   * x outermost; absent cells are ignored.
   */
  method RemoveBox(remaining: set<Int3>, start: Int3, size: Int3) returns (r: set<Int3>)
    requires IsSize(size)
    ensures r == remaining - BoxCells(Box(start, size))
  {
    r := remaining;
    for x := 0 to size.x
      invariant r == remaining - BoxCells(Box(start, Int3(x, size.y, size.z)))
    {
      var slab := Add(start, Int3(x, 0, 0));
      for y := 0 to size.y
        invariant r == remaining - BoxCells(Box(start, Int3(x, size.y, size.z))) - BoxCells(Box(slab, Int3(1, y, size.z)))
      {
        var row := Add(start, Int3(x, y, 0));
        for z := 0 to size.z
          invariant r == remaining - BoxCells(Box(start, Int3(x, size.y, size.z))) - BoxCells(Box(slab, Int3(1, y, size.z)))
                        - BoxCells(Box(row, Int3(1, 1, z)))
        {
          r := r - {Add(start, Int3(x, y, z))};
          RowGrows(start, x, y, z);
        }
        SlabGrows(start, x, y, size.z);
      }
      BoxGrows(start, x, size.y, size.z);
    }
  }

  /** The cells covered by a list of boxes. */
  function Covered(boxes: seq<Box>): set<Int3>
  {
    if |boxes| == 0 then {} else Covered(boxes[..|boxes| - 1]) + BoxCells(boxes[|boxes| - 1])
  }

  /** A cell is covered exactly when some box of the list contains it. */
  lemma {:induction false} CoveredMembership(boxes: seq<Box>, c: Int3)
    ensures c in Covered(boxes) <==> exists i :: 0 <= i < |boxes| && c in BoxCells(boxes[i])
  {
    if |boxes| > 0 {
      var front := boxes[..|boxes| - 1];
      CoveredMembership(front, c);
      if c in Covered(front) {
        var i :| 0 <= i < |front| && c in BoxCells(front[i]);
        assert front[i] == boxes[i];
      }
      if exists i :: 0 <= i < |boxes| && c in BoxCells(boxes[i]) {
        var i :| 0 <= i < |boxes| && c in BoxCells(boxes[i]);
        if i < |front| {
          assert front[i] == boxes[i];
        }
      }
    }
  }

  /** No cell lies in two boxes. */
  predicate Disjoint(boxes: seq<Box>)
  {
    forall i, j :: 0 <= i < j < |boxes| ==> BoxCells(boxes[i]) !! BoxCells(boxes[j])
  }

  /**
   * The boxes tile `cells`: the last box is non-empty and lies in `cells`,
   * and the boxes before it tile the cells it leaves.
   */
  predicate Tiles(boxes: seq<Box>, cells: set<Int3>)
    decreases |boxes|
  {
    if |boxes| == 0 then cells == {}
    else
      var last := boxes[|boxes| - 1];
      && IsSize(last.size)
      && BoxCells(last) <= cells
      && Tiles(boxes[..|boxes| - 1], cells - BoxCells(last))
  }

  /** The boxes of a list are non-empty. */
  predicate NonEmpty(boxes: seq<Box>)
  {
    forall i :: 0 <= i < |boxes| ==> IsSize(boxes[i].size)
  }

  /** A tiling is made of non-empty, pairwise disjoint boxes that cover exactly its cells. */
  lemma {:induction false} TilesSound(boxes: seq<Box>, cells: set<Int3>)
    requires Tiles(boxes, cells)
    ensures NonEmpty(boxes) && Disjoint(boxes) && Covered(boxes) == cells
    decreases |boxes|
  {
    if |boxes| > 0 {
      var front, last := boxes[..|boxes| - 1], boxes[|boxes| - 1];
      TilesSound(front, cells - BoxCells(last));
      forall i, j | 0 <= i < j < |boxes|
        ensures BoxCells(boxes[i]) !! BoxCells(boxes[j])
      {
        assert boxes[i] == front[i];
        if j == |boxes| - 1 {
          forall c | c in BoxCells(front[i])
            ensures c in Covered(front)
          {
            CoveredMembership(front, c);
          }
        } else {
          assert boxes[j] == front[j];
        }
      }
      assert forall i :: 0 <= i < |front| ==> front[i] == boxes[i];
    }
  }

  /** Non-empty, pairwise disjoint boxes tile the cells they cover. */
  lemma {:induction false} TilesComplete(boxes: seq<Box>)
    requires NonEmpty(boxes) && Disjoint(boxes)
    ensures Tiles(boxes, Covered(boxes))
    decreases |boxes|
  {
    if |boxes| > 0 {
      var front, last := boxes[..|boxes| - 1], boxes[|boxes| - 1];
      assert forall i :: 0 <= i < |front| ==> front[i] == boxes[i];
      TilesComplete(front);
      forall c | c in Covered(front)
        ensures c !in BoxCells(last)
      {
        CoveredMembership(front, c);
        var i :| 0 <= i < |front| && c in BoxCells(front[i]);
        assert front[i] == boxes[i];
      }
      assert Covered(boxes) - BoxCells(last) == Covered(front);
    }
  }

  /** A tiling is exactly a list of non-empty, pairwise disjoint boxes covering the cells. */
  lemma TilesMeans(boxes: seq<Box>, cells: set<Int3>)
    ensures Tiles(boxes, cells) <==> NonEmpty(boxes) && Disjoint(boxes) && Covered(boxes) == cells
  {
    if Tiles(boxes, cells) {
      TilesSound(boxes, cells);
    }
    if NonEmpty(boxes) && Disjoint(boxes) && Covered(boxes) == cells {
      TilesComplete(boxes);
    }
  }

  /** A non-empty box outside the covered cells extends a tiling by its own cells. */
  lemma TilesStep(boxes: seq<Box>, done: set<Int3>, b: Box)
    requires Tiles(boxes, done) && IsSize(b.size) && BoxCells(b) !! done
    ensures Tiles(boxes + [b], done + BoxCells(b))
  {
    assert (boxes + [b])[..|boxes|] == boxes;
    assert (done + BoxCells(b)) - BoxCells(b) == done;
  }

  /**
   * Removing from the remaining cells a non-empty box that fits in them
   * extends the tiling of the cells already covered and leaves fewer cells.
   */
  lemma RoundTiles(remaining: set<Int3>, all: set<Int3>, added: seq<Box>, start: Int3, size: Int3, rest: set<Int3>)
    requires remaining <= all && Tiles(added, all - remaining)
    requires start in remaining && IsSize(size) && CanFormBox(start, size, remaining)
    requires rest == remaining - BoxCells(Box(start, size))
    ensures rest <= remaining && |rest| < |remaining|
    ensures Tiles(added + [Box(start, size)], all - rest)
  {
    var box := Box(start, size);
    CanFormBoxIff(start, size, remaining);
    TilesStep(added, all - remaining, box);
    assert start == Add(start, Int3(0, 0, 0));
    SmallerAfterRemoval(remaining, rest, start);
    RemovedPart(all, remaining, BoxCells(box));
  }

  /** Taking a part of the remaining cells adds it to the cells already done. */
  lemma RemovedPart<T>(all: set<T>, remaining: set<T>, part: set<T>)
    requires part <= remaining <= all
    ensures all - (remaining - part) == (all - remaining) + part
  {
  }

  lemma SmallerAfterRemoval<T>(a: set<T>, b: set<T>, e: T)
    requires b <= a && e in a && e !in b
    ensures |b| < |a|
  {
    SubsetSize(b, a - {e});
  }

  /** The distinct coordinates of a layout. */
  function Coords(cells: seq<CubeCell>): set<Int3>
  {
    set i | 0 <= i < |cells| :: cells[i].coord
  }

  /** The cells of layer `y`, with y set to 0, lifted back to height `y`. */
  function LiftSet(flat: set<Int3>, y: int): (r: set<Int3>)
    ensures forall c :: c in r <==> c.y == y && Int3(c.x, 0, c.z) in flat
  {
    set c | c in flat && c.y == 0 :: Int3(c.x, y, c.z)
  }

  /** A layer's coordinates with y set to 0, as the layer merge keys them. */
  function FlatCoords(cells: seq<CubeCell>): (r: set<Int3>)
    ensures forall c :: c in r ==> c.y == 0
  {
    set i | 0 <= i < |cells| :: Int3(cells[i].coord.x, 0, cells[i].coord.z)
  }

  /** Flattening layer `y` and lifting it back gives the layer's coordinates. */
  lemma LayerLift(cells: seq<CubeCell>, y: int)
    ensures LiftSet(FlatCoords(LayerOf(cells, y)), y) == LayerCoords(cells, y)
  {
    var layer := LayerOf(cells, y);
    forall c | c in LayerCoords(cells, y)
      ensures c in LiftSet(FlatCoords(layer), y)
    {
      var i :| 0 <= i < |cells| && cells[i].coord == c;
      assert cells[i] in layer;
      var k :| 0 <= k < |layer| && layer[k] == cells[i];
      assert Int3(c.x, 0, c.z) in FlatCoords(layer);
    }
    forall c | c in LiftSet(FlatCoords(layer), y)
      ensures c in LayerCoords(cells, y)
    {
      var k :| 0 <= k < |layer| && Int3(layer[k].coord.x, 0, layer[k].coord.z) == Int3(c.x, 0, c.z);
      assert layer[k] in cells;
      var i :| 0 <= i < |cells| && cells[i] == layer[k];
      assert cells[i].coord == c;
    }
  }

  /** A non-empty finite set of cells has a cell of least height. */
  lemma {:induction false} Lowest(cs: set<Int3>) returns (m: Int3)
    requires cs != {}
    ensures m in cs && forall c :: c in cs ==> m.y <= c.y
    decreases |cs|
  {
    var c0 :| c0 in cs;
    if cs == {c0} {
      m := c0;
    } else {
      var m0 := Lowest(cs - {c0});
      m := if c0.y < m0.y then c0 else m0;
      forall c | c in cs
        ensures m.y <= c.y
      {
        if c != c0 {
          assert c in cs - {c0};
        }
      }
    }
  }

  /** A flat box lifted to height `y` is the box one cell high at that height. */
  lemma LiftBox(start: Int3, size: Int3, y: int)
    requires start.y == 0 && size.y == 1
    ensures BoxCells(Box(Int3(start.x, y, start.z), size)) == LiftSet(BoxCells(Box(start, size)), y)
  {
  }

  /** Lifting distributes over the removal of a flat box from the flattened layer. */
  lemma LiftSplit(all: set<Int3>, remaining: set<Int3>, rest: set<Int3>, y: int)
    requires rest <= remaining <= all
    ensures LiftSet(all - rest, y) == LiftSet(all - remaining, y) + LiftSet(remaining - rest, y)
    ensures LiftSet(remaining, y) !! LiftSet(all - remaining, y)
  {
  }

  /** The layout entries of layer `y`, in layout order. */
  function LayerOf(cells: seq<CubeCell>, y: int): (r: seq<CubeCell>)
    ensures forall c :: c in r <==> c in cells && c.coord.y == y
  {
    if |cells| == 0 then []
    else LayerOf(cells[..|cells| - 1], y) + (if cells[|cells| - 1].coord.y == y then [cells[|cells| - 1]] else [])
  }

  /** The distinct coordinates of the layout that lie in layer `y`. */
  function LayerCoords(cells: seq<CubeCell>, y: int): set<Int3>
  {
    set c | c in Coords(cells) && c.y == y
  }

  /** Two tilings of disjoint sets, one after the other, tile the union. */
  lemma {:induction false} TilesAppend(a: seq<Box>, sa: set<Int3>, b: seq<Box>, sb: set<Int3>)
    requires Tiles(a, sa) && Tiles(b, sb) && sa !! sb
    ensures Tiles(a + b, sa + sb)
    decreases |b|
  {
    if |b| == 0 {
      assert a + b == a && sa + sb == sa;
    } else {
      var front, last := b[..|b| - 1], b[|b| - 1];
      TilesAppend(a, sa, front, sb - BoxCells(last));
      assert (a + b)[..|a + b| - 1] == a + front;
      assert (sa + sb) - BoxCells(last) == sa + (sb - BoxCells(last));
    }
  }

  /** Every box lies in layer `y` and is one cell high. */
  predicate InLayer(boxes: seq<Box>, y: int)
  {
    forall i :: 0 <= i < |boxes| ==> boxes[i].start.y == y && boxes[i].size.y == 1
  }

  lemma InLayerSnoc(boxes: seq<Box>, b: Box, y: int)
    requires InLayer(boxes, y) && b.start.y == y && b.size.y == 1
    ensures InLayer(boxes + [b], y)
  {
  }

  /** The tiling of the done cells followed by a tiling of a pending layer tiles the done cells and that layer. */
  lemma LayerTiles(cells: seq<CubeCell>, pending: set<Int3>, added: seq<Box>, layerBoxes: seq<Box>, y: int)
    requires pending <= Coords(cells) && LayerCoords(cells, y) <= pending
    requires Tiles(added, Coords(cells) - pending) && Tiles(layerBoxes, LayerCoords(cells, y))
    ensures Tiles(added + layerBoxes, Coords(cells) - (pending - LayerCoords(cells, y)))
  {
    TilesAppend(added, Coords(cells) - pending, layerBoxes, LayerCoords(cells, y));
    assert (Coords(cells) - pending) + LayerCoords(cells, y) == Coords(cells) - (pending - LayerCoords(cells, y));
  }

  /**
   * The state of the layer merge: `pending` is a union of whole layers of the
   * layout, the boxes so far tile the rest, are one cell high, lie below every
   * pending layer, and come in non-decreasing layer order.
   */
  ghost predicate LayerProgress(cells: seq<CubeCell>, pending: set<Int3>, added: seq<Box>)
  {
    && pending <= Coords(cells)
    && Tiles(added, Coords(cells) - pending)
    && (forall c, d :: c in pending && d in Coords(cells) && d.y == c.y ==> d in pending)
    && (forall i, c :: 0 <= i < |added| && c in pending ==> added[i].start.y < c.y)
    && (forall i :: 0 <= i < |added| ==> added[i].size.y == 1)
    && (forall i, j :: 0 <= i < j < |added| ==> added[i].start.y <= added[j].start.y)
  }

  /**
   * Merging the lowest pending layer into boxes that tile it, lie in it and
   * are one cell high keeps the merge state and shrinks `pending`.
   */
  lemma LayerStep(cells: seq<CubeCell>, pending: set<Int3>, added: seq<Box>, layerBoxes: seq<Box>, lowest: Int3)
    requires LayerProgress(cells, pending, added)
    requires lowest in pending && forall c :: c in pending ==> lowest.y <= c.y
    requires Tiles(layerBoxes, LiftSet(FlatCoords(LayerOf(cells, lowest.y)), lowest.y)) && InLayer(layerBoxes, lowest.y)
    ensures |pending - LayerCoords(cells, lowest.y)| < |pending|
    ensures LayerProgress(cells, pending - LayerCoords(cells, lowest.y), added + layerBoxes)
  {
    var y := lowest.y;
    var rest := pending - LayerCoords(cells, y);
    LayerLift(cells, y);
    assert LayerCoords(cells, y) <= pending;
    LayerTiles(cells, pending, added, layerBoxes, y);
    assert lowest in LayerCoords(cells, y);
    SmallerAfterRemoval(pending, rest, lowest);
    LayerOrderStep(cells, pending, added, rest, layerBoxes, lowest);
  }

  /** Once no layer is pending, the boxes tile the whole layout in layer order. */
  lemma LayerDone(cells: seq<CubeCell>, added: seq<Box>)
    requires LayerProgress(cells, {}, added)
    ensures Tiles(added, Coords(cells))
    ensures forall i :: 0 <= i < |added| ==> added[i].size.y == 1
    ensures forall i, j :: 0 <= i < j < |added| ==> added[i].start.y <= added[j].start.y
  {
    assert Coords(cells) - {} == Coords(cells);
  }

  /** Appending the boxes of the lowest pending layer keeps the layer order. */
  lemma LayerOrderStep(cells: seq<CubeCell>, pending: set<Int3>, added: seq<Box>, rest: set<Int3>, layerBoxes: seq<Box>, lowest: Int3)
    requires LayerProgress(cells, pending, added)
    requires lowest in pending && forall c :: c in pending ==> lowest.y <= c.y
    requires rest == pending - LayerCoords(cells, lowest.y)
    requires Tiles(added + layerBoxes, Coords(cells) - rest)
    requires InLayer(layerBoxes, lowest.y)
    ensures LayerProgress(cells, rest, added + layerBoxes)
  {
    var next := added + layerBoxes;
    var y := lowest.y;
    forall c, d | c in rest && d in Coords(cells) && d.y == c.y
      ensures d in rest
    {
      assert c !in LayerCoords(cells, y);
    }
    forall i, c | 0 <= i < |next| && c in rest
      ensures next[i].start.y < c.y
    {
      assert c !in LayerCoords(cells, y);
      if i < |added| {
        assert next[i] == added[i];
      } else {
        assert next[i] == layerBoxes[i - |added|];
      }
    }
    forall i | 0 <= i < |next|
      ensures next[i].size.y == 1
    {
      if i < |added| {
        assert next[i] == added[i];
      } else {
        assert next[i] == layerBoxes[i - |added|];
      }
    }
    forall i, j | 0 <= i < j < |next|
      ensures next[i].start.y <= next[j].start.y
    {
      if j < |added| {
        assert next[i] == added[i] && next[j] == added[j];
      } else if i >= |added| {
        assert next[i] == layerBoxes[i - |added|] && next[j] == layerBoxes[j - |added|];
      } else {
        assert next[i] == added[i] && next[j] == layerBoxes[j - |added|];
        assert added[i].start.y < lowest.y;
      }
    }
  }

  /** One unit box per layout entry covers exactly the layout's coordinates. */
  lemma {:induction false} IndividualCover(cells: seq<CubeCell>)
    ensures Covered(seq(|cells|, i requires 0 <= i < |cells| => Box(cells[i].coord, Int3(1, 1, 1)))) == Coords(cells)
  {
    var boxes := seq(|cells|, i requires 0 <= i < |cells| => Box(cells[i].coord, Int3(1, 1, 1)));
    forall c | c in Coords(cells)
      ensures c in Covered(boxes)
    {
      var i :| 0 <= i < |cells| && cells[i].coord == c;
      assert c in BoxCells(boxes[i]);
      CoveredMembership(boxes, c);
    }
    forall c | c in Covered(boxes)
      ensures c in Coords(cells)
    {
      CoveredMembership(boxes, c);
      var i :| 0 <= i < |boxes| && c in BoxCells(boxes[i]);
      assert c == cells[i].coord;
    }
  }

  class CubeLayoutColliderGenerator {
    var generatedColliders: seq<Box>
    const colliderType: ColliderType
    const mergeMode: MergeMode

    constructor (colliderType: ColliderType, mergeMode: MergeMode)
      ensures generatedColliders == [] && this.colliderType == colliderType && this.mergeMode == mergeMode
    {
      generatedColliders := [];
      this.colliderType := colliderType;
      this.mergeMode := mergeMode;
    }

    method AddBoxCollider(start: Int3, size: Int3)
      modifies this`generatedColliders
      ensures generatedColliders == old(generatedColliders) + [Box(start, size)]
    {
      generatedColliders := generatedColliders + [Box(start, size)];
    }

    /** One unit box per layout entry, in layout order, duplicates included. */
    method GenerateIndividualBoxes(cells: seq<CubeCell>)
      modifies this`generatedColliders
      ensures generatedColliders == old(generatedColliders) + seq(|cells|, i requires 0 <= i < |cells| => Box(cells[i].coord, Int3(1, 1, 1)))
    {
      for k := 0 to |cells|
        invariant generatedColliders == old(generatedColliders) + seq(k, i requires 0 <= i < k => Box(cells[i].coord, Int3(1, 1, 1)))
      {
        AddBoxCollider(cells[k].coord, Int3(1, 1, 1));
      }
    }

    /**
     * The greedy 3-D merge: while cells remain, an arbitrary remaining cell
     * starts the largest box that fits in the remaining cells, whose cells
     * are then removed. Each round removes at least its start cell, so the
     * loop ends, and the boxes appended tile the distinct coordinates.
     */
    method GenerateGreedyMergedBoxes(cells: seq<CubeCell>) returns (ghost added: seq<Box>)
      modifies this`generatedColliders
      ensures generatedColliders == old(generatedColliders) + added
      ensures Tiles(added, Coords(cells))
    {
      added := [];
      var remaining := Coords(cells);
      assert Coords(cells) - remaining == {};
      while remaining != {}
        invariant generatedColliders == old(generatedColliders) + added
        invariant remaining <= Coords(cells)
        invariant Tiles(added, Coords(cells) - remaining)
        decreases |remaining|
      {
        var box;
        ghost var before := generatedColliders;
        remaining, box := MergeRound(remaining, Coords(cells), added);
        assert old(generatedColliders) + (added + [box]) == before + [box];
        added := added + [box];
      }
      assert Coords(cells) - remaining == Coords(cells);
    }

    /** One round of the 3-D merge: the largest box at an arbitrary remaining cell is emitted and removed. */
    method MergeRound(remaining: set<Int3>, ghost all: set<Int3>, ghost added: seq<Box>)
      returns (rest: set<Int3>, box: Box)
      requires remaining != {} && remaining <= all && Tiles(added, all - remaining)
      modifies this`generatedColliders
      ensures generatedColliders == old(generatedColliders) + [box]
      ensures rest <= remaining && |rest| < |remaining|
      ensures Tiles(added + [box], all - rest)
    {
      var start :| start in remaining;
      var size := FindLargestBox(start, remaining);
      box := Box(start, size);
      rest := RemoveBox(remaining, start, size);
      RoundTiles(remaining, all, added, start, size, rest);
      AddBoxCollider(start, size);
    }

    /**
     * The greedy 2-D merge of one layer: the layer's cells keyed as
     * (x, 0, z), rectangles grown from arbitrary remaining cells, each
     * emitted as a box one cell high at height `y`. The boxes tile the layer.
     */
    method GenerateGreedyMergedBoxesForLayer(layerCells: seq<CubeCell>, y: int) returns (ghost added: seq<Box>)
      modifies this`generatedColliders
      ensures generatedColliders == old(generatedColliders) + added
      ensures Tiles(added, LiftSet(FlatCoords(layerCells), y))
      ensures InLayer(added, y)
    {
      var remaining := FlatKeys(layerCells);
      ghost var all := remaining;
      added := [];
      assert LiftSet(all - remaining, y) == {};
      while remaining != {}
        invariant remaining <= all && all == FlatCoords(layerCells)
        invariant generatedColliders == old(generatedColliders) + added
        invariant Tiles(added, LiftSet(all - remaining, y)) && InLayer(added, y)
        decreases |remaining|
      {
        var box;
        ghost var before := generatedColliders;
        remaining, box := LayerRound(remaining, y, all, added);
        assert old(generatedColliders) + (added + [box]) == before + [box];
        added := added + [box];
      }
      assert all - remaining == all;
    }

    /** The layer's cells keyed as (x, 0, z), added one entry at a time. */
    static method FlatKeys(layerCells: seq<CubeCell>) returns (keys: set<Int3>)
      ensures keys == FlatCoords(layerCells)
    {
      keys := {};
      for k := 0 to |layerCells|
        invariant keys == FlatCoords(layerCells[..k])
      {
        assert layerCells[..k + 1] == layerCells[..k] + [layerCells[k]];
        keys := keys + {Int3(layerCells[k].coord.x, 0, layerCells[k].coord.z)};
      }
      assert layerCells[..|layerCells|] == layerCells;
    }

    /** One round of the layer merge, over the layer's flattened cells `all`. */
    method LayerRound(remaining: set<Int3>, y: int, ghost all: set<Int3>, ghost added: seq<Box>)
      returns (rest: set<Int3>, box: Box)
      requires remaining != {} && remaining <= all && forall c :: c in all ==> c.y == 0
      requires Tiles(added, LiftSet(all - remaining, y)) && InLayer(added, y)
      modifies this`generatedColliders
      ensures generatedColliders == old(generatedColliders) + [box]
      ensures rest <= remaining && |rest| < |remaining|
      ensures Tiles(added + [box], LiftSet(all - rest, y)) && InLayer(added + [box], y)
    {
      var start :| start in remaining;
      var size := FindLargestBox2D(start, remaining);
      CanFormBox2DIsFlatBox(start, size, remaining);
      var flat := Int3(size.x, 1, size.y);
      CanFormBoxIff(start, flat, remaining);
      box := Box(Int3(start.x, y, start.z), flat);
      ghost var done := LiftSet(all - remaining, y);
      LiftBox(start, flat, y);
      rest := RemoveBox(remaining, start, flat);
      LiftSplit(all, remaining, rest, y);
      assert remaining - rest == BoxCells(Box(start, flat));
      TilesStep(added, done, box);
      assert start in BoxCells(Box(start, flat));
      SmallerAfterRemoval(remaining, rest, start);
      InLayerSnoc(added, box, y);
      AddBoxCollider(box.start, box.size);
    }

    /**
     * The layer merge: the layers in ascending y, each merged on its own.
     * `pending` holds the coordinates of the layers not yet merged. The boxes
     * tile the distinct coordinates, are one cell high, and come in
     * non-decreasing layer order.
     */
    method GenerateLayerMergedBoxes(cells: seq<CubeCell>) returns (ghost added: seq<Box>)
      modifies this`generatedColliders
      ensures generatedColliders == old(generatedColliders) + added
      ensures Tiles(added, Coords(cells))
      ensures forall i :: 0 <= i < |added| ==> added[i].size.y == 1
      ensures forall i, j :: 0 <= i < j < |added| ==> added[i].start.y <= added[j].start.y
    {
      var pending := Coords(cells);
      added := [];
      while pending != {}
        invariant generatedColliders == old(generatedColliders) + added
        invariant LayerProgress(cells, pending, added)
        decreases |pending|
      {
        ghost var layerBoxes;
        ghost var before := generatedColliders;
        pending, layerBoxes := MergeLowestLayer(cells, pending, added);
        assert old(generatedColliders) + (added + layerBoxes) == before + layerBoxes;
        added := added + layerBoxes;
      }
      LayerDone(cells, added);
    }

    /** One layer of the layer merge: the lowest pending layer is merged and leaves `pending`. */
    method MergeLowestLayer(cells: seq<CubeCell>, pending: set<Int3>, ghost added: seq<Box>)
      returns (rest: set<Int3>, ghost layerBoxes: seq<Box>)
      requires pending != {} && LayerProgress(cells, pending, added)
      modifies this`generatedColliders
      ensures generatedColliders == old(generatedColliders) + layerBoxes
      ensures |rest| < |pending|
      ensures LayerProgress(cells, rest, added + layerBoxes)
    {
      ghost var low := Lowest(pending);
      var lowest :| lowest in pending && forall c :: c in pending ==> lowest.y <= c.y;
      var y := lowest.y;
      layerBoxes := GenerateGreedyMergedBoxesForLayer(LayerOf(cells, y), y);
      rest := pending - LayerCoords(cells, y);
      LayerStep(cells, pending, added, layerBoxes, lowest);
    }

    /**
     * The box path: the list of generated boxes is cleared and refilled by
     * the configured merge mode. Whatever the mode, every layout coordinate
     * ends up in some box and no box holds a cell outside the layout.
     */
    method GenerateBoxColliders(cells: seq<CubeCell>)
      modifies this`generatedColliders
      ensures mergeMode.NoMerge? ==> |generatedColliders| == |cells|
      ensures !mergeMode.NoMerge? ==> Tiles(generatedColliders, Coords(cells))
      ensures mergeMode.LayerMerge? ==> forall i :: 0 <= i < |generatedColliders| ==> generatedColliders[i].size.y == 1
      ensures Covered(generatedColliders) == Coords(cells)
    {
      generatedColliders := [];
      match mergeMode
      case NoMerge =>
        GenerateIndividualBoxes(cells);
        assert generatedColliders == seq(|cells|, i requires 0 <= i < |cells| => Box(cells[i].coord, Int3(1, 1, 1)));
        IndividualCover(cells);
      case LayerMerge =>
        ghost var added := GenerateLayerMergedBoxes(cells);
        assert generatedColliders == added;
        TilesMeans(added, Coords(cells));
      case GreedyMerge =>
        ghost var added := GenerateGreedyMergedBoxes(cells);
        assert generatedColliders == added;
        TilesMeans(added, Coords(cells));
    }

    /**
     * The entry point: an empty layout generates nothing; the mesh path
     * leaves the box list alone; the box path rebuilds it from the layout.
     */
    method GenerateCollider(cells: seq<CubeCell>)
      modifies this`generatedColliders
      ensures |cells| == 0 || colliderType.MeshCollider? ==> generatedColliders == old(generatedColliders)
      ensures |cells| > 0 && colliderType.BoxColliders? ==> Covered(generatedColliders) == Coords(cells)
      ensures |cells| > 0 && colliderType.BoxColliders? && !mergeMode.NoMerge? ==> Tiles(generatedColliders, Coords(cells))
    {
      if |cells| == 0 {
        return;
      }
      if colliderType.BoxColliders? {
        GenerateBoxColliders(cells);
      }
    }
  }
}
