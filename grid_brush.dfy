/**
 * The grid brush of the layout editor: a cubic brush preview around the
 * cell under the mouse, painting (upsert by coordinate) and erasing (remove
 * the first entry per coordinate) over the layout's list of cells.
 */
module GridBrush {
  import opened Grid
  import opened Components

  /** The index of the first entry at coordinate `c`, or -1 when there is none. */
  function FindIndex(cells: seq<CubeCell>, c: Int3): (r: int)
    ensures -1 <= r < |cells|
    ensures r >= 0 ==> cells[r].coord == c && forall k :: 0 <= k < r ==> cells[k].coord != c
    ensures r == -1 ==> forall k :: 0 <= k < |cells| ==> cells[k].coord != c
  {
    if |cells| == 0 then -1
    else if cells[0].coord == c then 0
    else
      var k := FindIndex(cells[1..], c);
      if k < 0 then -1 else k + 1
  }

  /** The three properties of `FindIndex` pin down its value. */
  lemma FindIndexUnique(cells: seq<CubeCell>, c: Int3, i: int)
    requires -1 <= i < |cells|
    requires i >= 0 ==> cells[i].coord == c && forall k :: 0 <= k < i ==> cells[k].coord != c
    requires i == -1 ==> forall k :: 0 <= k < |cells| ==> cells[k].coord != c
    ensures FindIndex(cells, c) == i
  {
  }

  /** No two entries share a coordinate. */
  predicate NoDuplicateCoords(cells: seq<CubeCell>)
  {
    forall i, j :: 0 <= i < j < |cells| ==> cells[i].coord != cells[j].coord
  }

  /**
   * Painting one cell: the first entry at its coordinate is replaced in place,
   * otherwise the cell is appended. Afterwards the first entry at that
   * coordinate is the new cell, and the first entry at any other coordinate
   * is where and what it was.
   */
  function Upsert(cells: seq<CubeCell>, cell: CubeCell): (r: seq<CubeCell>)
    ensures FindIndex(r, cell.coord) >= 0 && r[FindIndex(r, cell.coord)] == cell
    ensures FindIndex(r, cell.coord) == FindIndex(cells, cell.coord) || FindIndex(r, cell.coord) == |cells|
    ensures FindIndex(cells, cell.coord) >= 0 ==> |r| == |cells|
    ensures FindIndex(cells, cell.coord) < 0 ==> |r| == |cells| + 1
    ensures forall k :: 0 <= k < |cells| && cells[k].coord != cell.coord ==> r[k] == cells[k]
  {
    var idx := FindIndex(cells, cell.coord);
    if idx >= 0 then
      FindIndexUnique(cells[idx := cell], cell.coord, idx);
      cells[idx := cell]
    else
      FindIndexUnique(cells + [cell], cell.coord, |cells|);
      cells + [cell]
  }

  /** Painting one cell leaves the first entry at every other coordinate where it was. */
  lemma UpsertOther(cells: seq<CubeCell>, cell: CubeCell, d: Int3)
    requires d != cell.coord
    ensures FindIndex(Upsert(cells, cell), d) == FindIndex(cells, d)
  {
    FindIndexUnique(Upsert(cells, cell), d, FindIndex(cells, d));
  }

  /** Painting the coordinates one after another with the same type and colour. */
  function PaintAll(cells: seq<CubeCell>, coords: seq<Int3>, typeId: int, color: Color4): seq<CubeCell>
    decreases |coords|
  {
    if |coords| == 0 then cells
    else PaintAll(Upsert(cells, CubeCell(coords[0], typeId, color)), coords[1..], typeId, color)
  }

  /**
   * After painting, the first entry at every painted coordinate carries the
   * brush's type and colour, and the first entry at every other coordinate is
   * unchanged.
   */
  lemma {:induction false} PaintEffect(cells: seq<CubeCell>, coords: seq<Int3>, typeId: int, color: Color4, d: Int3)
    ensures var r := PaintAll(cells, coords, typeId, color);
      && (d in coords ==> FindIndex(r, d) >= 0 && r[FindIndex(r, d)] == CubeCell(d, typeId, color))
      && (d !in coords ==> FindIndex(r, d) == FindIndex(cells, d))
      && (d !in coords && FindIndex(cells, d) >= 0 ==> r[FindIndex(r, d)] == cells[FindIndex(cells, d)])
    decreases |coords|
  {
    if |coords| > 0 {
      var cell := CubeCell(coords[0], typeId, color);
      var u := Upsert(cells, cell);
      if d != coords[0] {
        UpsertOther(cells, cell, d);
      }
      PaintEffect(u, coords[1..], typeId, color, d);
      assert d in coords <==> d == coords[0] || d in coords[1..];
      if d == coords[0] && d !in coords[1..] {
        assert FindIndex(PaintAll(u, coords[1..], typeId, color), d) == FindIndex(u, d);
      }
    }
  }

  /** Painting keeps the coordinates distinct. */
  lemma {:induction false} PaintKeepsDistinct(cells: seq<CubeCell>, coords: seq<Int3>, typeId: int, color: Color4)
    requires NoDuplicateCoords(cells)
    ensures NoDuplicateCoords(PaintAll(cells, coords, typeId, color))
    decreases |coords|
  {
    if |coords| > 0 {
      var cell := CubeCell(coords[0], typeId, color);
      var u := Upsert(cells, cell);
      forall i, j | 0 <= i < j < |u|
        ensures u[i].coord != u[j].coord
      {
        if FindIndex(cells, cell.coord) < 0 && j == |cells| {
          assert u[i] == cells[i];
        }
      }
      PaintKeepsDistinct(u, coords[1..], typeId, color);
    }
  }

  /** Painting coordinates whose first entries already hold the brush cell changes nothing. */
  lemma {:induction false} PaintFixed(cells: seq<CubeCell>, coords: seq<Int3>, typeId: int, color: Color4)
    requires forall c :: c in coords ==> FindIndex(cells, c) >= 0 && cells[FindIndex(cells, c)] == CubeCell(c, typeId, color)
    ensures PaintAll(cells, coords, typeId, color) == cells
    decreases |coords|
  {
    if |coords| > 0 {
      var cell := CubeCell(coords[0], typeId, color);
      assert coords[0] in coords;
      assert Upsert(cells, cell) == cells;
      PaintFixed(cells, coords[1..], typeId, color);
    }
  }

  /** Painting the same coordinates twice is painting them once. */
  lemma PaintIdempotent(cells: seq<CubeCell>, coords: seq<Int3>, typeId: int, color: Color4)
    ensures PaintAll(PaintAll(cells, coords, typeId, color), coords, typeId, color) == PaintAll(cells, coords, typeId, color)
  {
    var p := PaintAll(cells, coords, typeId, color);
    forall c | c in coords
      ensures FindIndex(p, c) >= 0 && p[FindIndex(p, c)] == CubeCell(c, typeId, color)
    {
      PaintEffect(cells, coords, typeId, color, c);
    }
    PaintFixed(p, coords, typeId, color);
  }

  /**
   * Erasing one coordinate: the first entry at it is removed and the others
   * keep their order, which is the list with the entry at `FindIndex` cut out.
   */
  function RemoveFirst(cells: seq<CubeCell>, c: Int3): (r: seq<CubeCell>)
    ensures FindIndex(cells, c) < 0 ==> r == cells
    ensures FindIndex(cells, c) >= 0 ==> r == cells[..FindIndex(cells, c)] + cells[FindIndex(cells, c) + 1..]
  {
    if |cells| == 0 then []
    else if cells[0].coord == c then cells[1..]
    else
      var rest := RemoveFirst(cells[1..], c);
      assert FindIndex(cells, c) >= 0 ==> cells[..FindIndex(cells, c)] == [cells[0]] + cells[1..][..FindIndex(cells[1..], c)];
      [cells[0]] + rest
  }

  /** Erasing the coordinates one after another. */
  function EraseAll(cells: seq<CubeCell>, coords: seq<Int3>): seq<CubeCell>
    decreases |coords|
  {
    if |coords| == 0 then cells else EraseAll(RemoveFirst(cells, coords[0]), coords[1..])
  }

  /** The reference definition: the entries whose coordinate is not listed, in order. */
  function Outside(cells: seq<CubeCell>, coords: seq<Int3>): seq<CubeCell>
  {
    if |cells| == 0 then []
    else if cells[0].coord in coords then Outside(cells[1..], coords)
    else [cells[0]] + Outside(cells[1..], coords)
  }

  lemma {:induction false} OutsideMembership(cells: seq<CubeCell>, coords: seq<Int3>, x: CubeCell)
    ensures x in Outside(cells, coords) <==> x in cells && x.coord !in coords
  {
    if |cells| > 0 {
      OutsideMembership(cells[1..], coords, x);
      assert x in cells <==> x == cells[0] || x in cells[1..];
    }
  }

  lemma {:induction false} OutsideDistinct(cells: seq<CubeCell>, coords: seq<Int3>)
    requires NoDuplicateCoords(cells)
    ensures NoDuplicateCoords(Outside(cells, coords))
  {
    if |cells| > 0 {
      OutsideDistinct(cells[1..], coords);
      var rest := Outside(cells[1..], coords);
      forall x | x in rest
        ensures x.coord != cells[0].coord
      {
        OutsideMembership(cells[1..], coords, x);
      }
    }
  }

  lemma {:induction false} OutsideTwice(cells: seq<CubeCell>, c: Int3, coords: seq<Int3>)
    ensures Outside(Outside(cells, [c]), coords) == Outside(cells, [c] + coords)
  {
    if |cells| > 0 {
      OutsideTwice(cells[1..], c, coords);
      assert cells[0].coord in [c] + coords <==> cells[0].coord == c || cells[0].coord in coords;
    }
  }

  /** With distinct coordinates, removing the first entry at `c` removes every entry at `c`. */
  lemma {:induction false} RemoveFirstIsOutside(cells: seq<CubeCell>, c: Int3)
    requires NoDuplicateCoords(cells)
    ensures RemoveFirst(cells, c) == Outside(cells, [c])
  {
    if |cells| > 0 {
      RemoveFirstIsOutside(cells[1..], c);
      if cells[0].coord == c {
        forall k | 0 <= k < |cells[1..]|
          ensures cells[1..][k].coord != c
        {
        }
        OutsideNone(cells[1..], [c]);
      }
    }
  }

  lemma {:induction false} OutsideNone(cells: seq<CubeCell>, coords: seq<Int3>)
    requires forall k :: 0 <= k < |cells| ==> cells[k].coord !in coords
    ensures Outside(cells, coords) == cells
  {
    if |cells| > 0 {
      OutsideNone(cells[1..], coords);
    }
  }

  /**
   * On a layout without duplicate coordinates, erasing a list of coordinates
   * leaves exactly the entries at other coordinates, in their original order.
   */
  lemma {:induction false} EraseIsOutside(cells: seq<CubeCell>, coords: seq<Int3>)
    requires NoDuplicateCoords(cells)
    ensures EraseAll(cells, coords) == Outside(cells, coords)
    ensures NoDuplicateCoords(EraseAll(cells, coords))
    decreases |coords|
  {
    if |coords| == 0 {
      OutsideNone(cells, coords);
    } else {
      RemoveFirstIsOutside(cells, coords[0]);
      OutsideDistinct(cells, [coords[0]]);
      EraseIsOutside(Outside(cells, [coords[0]]), coords[1..]);
      OutsideTwice(cells, coords[0], coords[1..]);
      assert [coords[0]] + coords[1..] == coords;
    }
  }

  /** The cells of the brush cube of half-width `r` around `center`. */
  predicate InBrush(c: Int3, center: Int3, r: int)
  {
    && -r <= c.x - center.x <= r
    && -r <= c.y - center.y <= r
    && -r <= c.z - center.z <= r
  }

  /** Whether a click erases: the right button, or the erase toggle flipped by Shift. */
  function IsErase(button: int, eraseMode: bool, shift: bool): (r: bool)
    ensures r <==> button == 1 || (eraseMode && !shift) || (!eraseMode && shift)
  {
    button == 1 || (eraseMode != shift)
  }

  /** Some order in which a set of cells is visited, without repetition. */
  method Enumerate(s: set<Int3>) returns (q: seq<Int3>)
    ensures forall c :: c in q <==> c in s
    ensures forall i, j :: 0 <= i < j < |q| ==> q[i] != q[j]
  {
    q := [];
    var rest := s;
    while rest != {}
      invariant forall c :: c in q <==> c in s && c !in rest
      invariant rest <= s
      invariant forall i, j :: 0 <= i < j < |q| ==> q[i] != q[j]
      decreases |rest|
    {
      var c :| c in rest;
      q := q + [c];
      rest := rest - {c};
    }
  }

  /** Erasing an enumeration of a set of coordinates removes exactly the entries at them. */
  lemma EraseCover(cells: seq<CubeCell>, order: seq<Int3>, s: set<Int3>)
    requires NoDuplicateCoords(cells)
    requires forall c :: c in order <==> c in s
    ensures NoDuplicateCoords(EraseAll(cells, order))
    ensures forall x :: x in EraseAll(cells, order) <==> x in cells && x.coord !in s
  {
    EraseIsOutside(cells, order);
    forall x
      ensures x in EraseAll(cells, order) <==> x in cells && x.coord !in s
    {
      OutsideMembership(cells, order, x);
    }
  }

  /**
   * Painting an enumeration of a set of coordinates puts the brush cell first
   * at each of them and keeps the first entry at every other coordinate.
   */
  lemma PaintCover(cells: seq<CubeCell>, order: seq<Int3>, s: set<Int3>, typeId: int, color: Color4)
    requires forall c :: c in order <==> c in s
    ensures forall c :: c in s ==> var r := PaintAll(cells, order, typeId, color);
      FindIndex(r, c) >= 0 && r[FindIndex(r, c)] == CubeCell(c, typeId, color)
    ensures forall d :: d !in s ==> var r := PaintAll(cells, order, typeId, color);
      && FindIndex(r, d) == FindIndex(cells, d)
      && (FindIndex(cells, d) >= 0 ==> r[FindIndex(r, d)] == cells[FindIndex(cells, d)])
    ensures NoDuplicateCoords(cells) ==> NoDuplicateCoords(PaintAll(cells, order, typeId, color))
  {
    forall c | c in s
      ensures var r := PaintAll(cells, order, typeId, color);
        FindIndex(r, c) >= 0 && r[FindIndex(r, c)] == CubeCell(c, typeId, color)
    {
      PaintEffect(cells, order, typeId, color, c);
    }
    forall d | d !in s
      ensures var r := PaintAll(cells, order, typeId, color);
        && FindIndex(r, d) == FindIndex(cells, d)
        && (FindIndex(cells, d) >= 0 ==> r[FindIndex(r, d)] == cells[FindIndex(cells, d)])
    {
      PaintEffect(cells, order, typeId, color, d);
    }
    if NoDuplicateCoords(cells) {
      PaintKeepsDistinct(cells, order, typeId, color);
    }
  }

  class GridBrushWindow {
    /** The layout's cells, edited in place. */
    var cells: seq<CubeCell>
    var previewCells: set<Int3>
    var brushSize: int
    var typeId: int
    var color: Color4
    var erase: bool

    constructor (layoutCells: seq<CubeCell>)
      ensures cells == layoutCells && previewCells == {}
      ensures brushSize == 1 && typeId == 0 && color == Color4(1.0, 1.0, 1.0, 1.0) && !erase
    {
      cells := layoutCells;
      previewCells := {};
      brushSize := 1;
      typeId := 0;
      color := Color4(1.0, 1.0, 1.0, 1.0);
      erase := false;
    }

    /** The brush-size slider: the value is held to 1..8. */
    method SetBrushSize(v: int)
      modifies this`brushSize
      ensures 1 <= brushSize <= 8
      ensures 1 <= v <= 8 ==> brushSize == v
      ensures v < 1 ==> brushSize == 1
      ensures v > 8 ==> brushSize == 8
    {
      brushSize := Clamp(v, 1, 8);
    }

    method AddRow(center: Int3, x: int, y: int, r: int)
      requires r >= 0
      modifies this`previewCells
      ensures forall c :: c in previewCells <==>
        c in old(previewCells) || (c.x - center.x == x && c.y - center.y == y && -r <= c.z - center.z <= r)
    {
      for z := -r to r + 1
        invariant forall c :: c in previewCells <==>
          c in old(previewCells) || (c.x - center.x == x && c.y - center.y == y && -r <= c.z - center.z < z)
      {
        previewCells := previewCells + {Add(center, Int3(x, y, z))};
      }
    }

    method AddPlane(center: Int3, x: int, r: int)
      requires r >= 0
      modifies this`previewCells
      ensures forall c :: c in previewCells <==>
        c in old(previewCells) || (c.x - center.x == x && -r <= c.y - center.y <= r && -r <= c.z - center.z <= r)
    {
      for y := -r to r + 1
        invariant forall c :: c in previewCells <==>
          c in old(previewCells) || (c.x - center.x == x && -r <= c.y - center.y < y && -r <= c.z - center.z <= r)
      {
        AddRow(center, x, y, r);
      }
    }

    /**
     * The preview is replaced by the brush cube around `center`, of half-width
     * brushSize - 1 (never negative).
     */
    method UpdatePreview(center: Int3)
      modifies this`previewCells
      ensures forall c :: c in previewCells <==> InBrush(c, center, Max(0, brushSize - 1))
      ensures center in previewCells
    {
      previewCells := {};
      var r := Max(0, brushSize - 1);
      for x := -r to r + 1
        invariant forall c :: c in previewCells <==> -r <= c.x - center.x < x && InBrush(c, center, r)
      {
        AddPlane(center, x, r);
      }
      assert InBrush(center, center, r);
    }

    /** Paints the coordinates in the given order with the current type and colour. */
    method PaintCells(coords: seq<Int3>)
      modifies this`cells
      ensures cells == PaintAll(old(cells), coords, typeId, color)
    {
      for k := 0 to |coords|
        invariant PaintAll(old(cells), coords, typeId, color) == PaintAll(cells, coords[k..], typeId, color)
      {
        assert coords[k..][1..] == coords[k + 1..];
        var idx := FindIndex(cells, coords[k]);
        var cell := CubeCell(coords[k], typeId, color);
        if idx >= 0 {
          cells := cells[idx := cell];
        } else {
          cells := cells + [cell];
        }
      }
    }

    /** Erases the coordinates in the given order; absent coordinates are ignored. */
    method EraseCells(coords: seq<Int3>)
      modifies this`cells
      ensures cells == EraseAll(old(cells), coords)
    {
      for k := 0 to |coords|
        invariant EraseAll(old(cells), coords) == EraseAll(cells, coords[k..])
      {
        assert coords[k..][1..] == coords[k + 1..];
        var idx := FindIndex(cells, coords[k]);
        if idx >= 0 {
          cells := cells[..idx] + cells[idx + 1..];
        }
      }
    }

    /**
     * A mouse press or drag with the brush at `center`: the preview moves
     * there, then the left or right button erases or paints the preview's
     * cells, visited in some order. Other buttons only move the preview.
     */
    method Stroke(center: Int3, button: int, shift: bool)
      modifies this`previewCells, this`cells
      ensures forall c :: c in previewCells <==> InBrush(c, center, Max(0, brushSize - 1))
      ensures button != 0 && button != 1 ==> cells == old(cells)
      ensures (button == 0 || button == 1) && IsErase(button, erase, shift) && NoDuplicateCoords(old(cells)) ==>
        NoDuplicateCoords(cells) &&
        forall x :: x in cells <==> x in old(cells) && !InBrush(x.coord, center, Max(0, brushSize - 1))
      ensures (button == 0 || button == 1) && !IsErase(button, erase, shift) ==>
        forall c :: InBrush(c, center, Max(0, brushSize - 1)) ==>
          FindIndex(cells, c) >= 0 && cells[FindIndex(cells, c)] == CubeCell(c, typeId, color)
      ensures (button == 0 || button == 1) && !IsErase(button, erase, shift) ==>
        forall d :: !InBrush(d, center, Max(0, brushSize - 1)) ==>
          && FindIndex(cells, d) == FindIndex(old(cells), d)
          && (FindIndex(old(cells), d) >= 0 ==> cells[FindIndex(cells, d)] == old(cells)[FindIndex(old(cells), d)])
      ensures (button == 0 || button == 1) && !IsErase(button, erase, shift) && NoDuplicateCoords(old(cells)) ==>
        NoDuplicateCoords(cells)
    {
      UpdatePreview(center);
      if button == 0 || button == 1 {
        var order := Enumerate(previewCells);
        if IsErase(button, erase, shift) {
          EraseCells(order);
          if NoDuplicateCoords(old(cells)) {
            EraseCover(old(cells), order, previewCells);
          }
        } else {
          PaintCells(order);
          PaintCover(old(cells), order, previewCells, typeId, color);
        }
      }
    }
  }
}
