/**
 * Row-major cell addressing shared by both grid components: a grid `width`
 * cells wide stores cell (x, y) at index x + y * width of a flat array of
 * length width * height.
 */
module Cells {
  import opened Wrappers

  /**
   * Index of cell (x, y) in a row-major grid `width` cells wide: row y
   * occupies the `width` consecutive indices from y * width on.
   */
  function TileIndex(x: int, y: int, width: int): (k: int)
    ensures 0 <= x < width ==> y * width <= k < (y + 1) * width
  {
    assert (y + 1) * width == y * width + width;
    x + y * width
  }

  predicate InBounds(x: int, y: int, width: int, height: int)
  {
    0 <= x < width && 0 <= y < height
  }

  /** (x, y) lies on the last row or the last column of a width x height grid. */
  predicate OnBorder(x: int, y: int, width: int, height: int)
  {
    InBounds(x, y, width, height) && (x == width - 1 || y == height - 1)
  }

  /** (x, y) lies in the 3x3 block centred on (cx, cy). */
  predicate Near(x: int, y: int, cx: int, cy: int)
  {
    cx - 1 <= x <= cx + 1 && cy - 1 <= y <= cy + 1
  }

  /** The rectangle [left, right) x [bottom, top) of cells a loop pair walks over. */
  datatype Area = Area(left: int, bottom: int, right: int, top: int)

  /** (p, q) lies in `area` and comes before (i, j) in column-by-column order. */
  predicate Before(p: int, q: int, area: Area, i: int, j: int)
  {
    area.left <= p < area.right && area.bottom <= q < area.top && (p < i || (p == i && q < j))
  }

  /** A flat array of `cells` really is a width-by-height grid. */
  predicate GridShape<T>(cells: seq<T>, width: int, height: int)
  {
    0 <= width && 0 <= height && |cells| == width * height
  }

  /** A positive multiple of a natural number is at least that number. */
  lemma {:induction false} MultipleAtLeast(a: int, width: int)
    requires a >= 1 && width >= 0
    ensures a * width >= width
  {
    if a > 1 {
      MultipleAtLeast(a - 1, width);
      assert a * width == (a - 1) * width + width;
    }
  }

  /** Multiples of a natural number grow with the multiplier. */
  lemma {:induction false} MultipleMonotone(a: int, b: int, width: int)
    requires 0 <= a <= b && 0 <= width
    ensures a * width <= b * width
    decreases b - a
  {
    if a < b {
      MultipleMonotone(a + 1, b, width);
      assert (a + 1) * width == a * width + width;
    }
  }

  /** Quotient and remainder are unique: the arithmetic behind row-major addressing. */
  lemma DivModUnique(q1: int, r1: int, q2: int, r2: int, width: int)
    requires 0 <= r1 < width && 0 <= r2 < width
    requires q1 * width + r1 == q2 * width + r2
    ensures q1 == q2 && r1 == r2
  {
    if q1 > q2 {
      MultipleAtLeast(q1 - q2, width);
    } else if q1 < q2 {
      MultipleAtLeast(q2 - q1, width);
    }
  }

  /** Every in-bounds cell has an index inside the flat array. */
  lemma IndexInRange(x: int, y: int, width: int, height: int)
    requires InBounds(x, y, width, height)
    ensures 0 <= TileIndex(x, y, width) < width * height
  {
    MultipleMonotone(0, y, width);
    MultipleMonotone(y + 1, height, width);
    assert (y + 1) * width == y * width + width;
  }

  /** The cell of an index: in-bounds cells and flat indices correspond one to one. */
  lemma CellOfIndex(k: int, width: int, height: int)
    requires 0 <= width && 0 <= height && 0 <= k < width * height
    ensures width > 0 && InBounds(k % width, k / width, width, height)
    ensures TileIndex(k % width, k / width, width) == k
  {
    var x, y := k % width, k / width;
    if y >= height {
      MultipleAtLeast(y - height + 1, width);
    }
  }

  /** Distinct in-bounds cells have distinct indices. */
  lemma IndexInjective(x1: int, y1: int, x2: int, y2: int, width: int, height: int)
    requires InBounds(x1, y1, width, height) && InBounds(x2, y2, width, height)
    requires TileIndex(x1, y1, width) == TileIndex(x2, y2, width)
    ensures x1 == x2 && y1 == y2
  {
    DivModUnique(y1, x1, y2, x2, width);
  }

  /** The index of an in-bounds cell gives the cell back. */
  lemma IndexOfCell(x: int, y: int, width: int, height: int)
    requires InBounds(x, y, width, height)
    ensures width > 0
    ensures TileIndex(x, y, width) % width == x && TileIndex(x, y, width) / width == y
  {
    var k := TileIndex(x, y, width);
    IndexInRange(x, y, width, height);
    CellOfIndex(k, width, height);
    DivModUnique(k / width, k % width, y, x, width);
  }

  /**
   * Bounds-checked lookup: null (None) outside [0, width) x [0, height), the
   * row-major entry inside.
   */
  function GetTileOf<T>(cells: seq<Option<T>>, width: int, height: int, x: int, y: int): (r: Option<T>)
    requires GridShape(cells, width, height)
    ensures !InBounds(x, y, width, height) ==> r == None
    ensures InBounds(x, y, width, height) ==>
              0 <= TileIndex(x, y, width) < |cells| && r == cells[TileIndex(x, y, width)]
  {
    if InBounds(x, y, width, height) then
      IndexInRange(x, y, width, height);
      cells[TileIndex(x, y, width)]
    else
      None
  }

  /**
   * The flat array a grid holds after being resized from oldWidth x oldHeight
   * to width x height: cell (x, y) of the new grid holds what the old grid's
   * bounds-checked lookup gave for (x, y), so the overlapping rectangle is
   * copied and every other cell is None.
   */
  function Resized<T>(cells: seq<Option<T>>, oldWidth: int, oldHeight: int, width: int, height: int): (r: seq<Option<T>>)
    requires GridShape(cells, oldWidth, oldHeight) && 0 <= width && 0 <= height
    ensures GridShape(r, width, height)
  {
    seq(width * height, k requires 0 <= k < width * height =>
      CellOfIndex(k, width, height);
      GetTileOf(cells, oldWidth, oldHeight, k % width, k / width))
  }

  /** Cell by cell, a resized grid agrees with the old grid on the overlap and is empty elsewhere. */
  lemma ResizedAt<T>(cells: seq<Option<T>>, oldWidth: int, oldHeight: int, width: int, height: int, x: int, y: int)
    requires GridShape(cells, oldWidth, oldHeight) && 0 <= width && 0 <= height
    ensures GetTileOf(Resized(cells, oldWidth, oldHeight, width, height), width, height, x, y)
         == if x < oldWidth && y < oldHeight && InBounds(x, y, width, height)
            then GetTileOf(cells, oldWidth, oldHeight, x, y)
            else None
  {
    if InBounds(x, y, width, height) {
      IndexOfCell(x, y, width, height);
    }
  }

  /**
   * Resizing to width x height and back to the original size keeps every cell
   * of the common overlap and empties the cells the smaller size cut off.
   */
  lemma ResizeRoundTrip<T>(cells: seq<Option<T>>, oldWidth: int, oldHeight: int, width: int, height: int, x: int, y: int)
    requires GridShape(cells, oldWidth, oldHeight) && 0 <= width && 0 <= height
    ensures GetTileOf(Resized(Resized(cells, oldWidth, oldHeight, width, height), width, height, oldWidth, oldHeight),
                      oldWidth, oldHeight, x, y)
         == if x < width && y < height then GetTileOf(cells, oldWidth, oldHeight, x, y) else None
  {
    var there := Resized(cells, oldWidth, oldHeight, width, height);
    ResizedAt(there, width, height, oldWidth, oldHeight, x, y);
    ResizedAt(cells, oldWidth, oldHeight, width, height, x, y);
  }
  /**
   * Writing entry TileIndex(cx, cy) of the flat array changes the lookup of
   * exactly the in-bounds cells with that index: (cx, cy) itself when it is in
   * bounds, or the cell its index lands on when it is not.
   */
  lemma GetTileOfUpdate<T>(cells: seq<Option<T>>, width: int, height: int, cx: int, cy: int, v: Option<T>, x: int, y: int)
    requires GridShape(cells, width, height) && 0 <= TileIndex(cx, cy, width) < |cells|
    ensures GridShape(cells[TileIndex(cx, cy, width) := v], width, height)
    ensures GetTileOf(cells[TileIndex(cx, cy, width) := v], width, height, x, y)
         == if InBounds(x, y, width, height) && TileIndex(x, y, width) == TileIndex(cx, cy, width)
            then v
            else GetTileOf(cells, width, height, x, y)
    ensures InBounds(cx, cy, width, height) ==>
              (InBounds(x, y, width, height) && TileIndex(x, y, width) == TileIndex(cx, cy, width) <==> x == cx && y == cy)
  {
    if InBounds(cx, cy, width, height) && InBounds(x, y, width, height) && TileIndex(x, y, width) == TileIndex(cx, cy, width) {
      IndexInjective(x, y, cx, cy, width, height);
    }
  }

  /** Two grids of the same shape whose lookups agree on every cell are the same array. */
  lemma SameCells<T>(a: seq<Option<T>>, b: seq<Option<T>>, width: int, height: int)
    requires GridShape(a, width, height) && GridShape(b, width, height)
    requires forall x, y :: InBounds(x, y, width, height) ==> GetTileOf(a, width, height, x, y) == GetTileOf(b, width, height, x, y)
    ensures a == b
  {
    forall k | 0 <= k < |a|
      ensures a[k] == b[k]
    {
      CellOfIndex(k, width, height);
      assert GetTileOf(a, width, height, k % width, k / width) == GetTileOf(b, width, height, k % width, k / width);
    }
  }

  /** No value is held by two different cells. */
  ghost predicate Unique<T>(cells: seq<Option<T>>, width: int, height: int)
    requires GridShape(cells, width, height)
  {
    forall x1, y1, x2, y2 ::
      GetTileOf(cells, width, height, x1, y1).Some? &&
      GetTileOf(cells, width, height, x1, y1) == GetTileOf(cells, width, height, x2, y2)
      ==> x1 == x2 && y1 == y2
  }

  /** Resizing copies cells without duplicating any, so values stay unique. */
  lemma ResizedUnique<T>(cells: seq<Option<T>>, oldWidth: int, oldHeight: int, width: int, height: int)
    requires GridShape(cells, oldWidth, oldHeight) && 0 <= width && 0 <= height
    requires Unique(cells, oldWidth, oldHeight)
    ensures Unique(Resized(cells, oldWidth, oldHeight, width, height), width, height)
  {
    var r := Resized(cells, oldWidth, oldHeight, width, height);
    forall x1, y1, x2, y2 |
      GetTileOf(r, width, height, x1, y1).Some? && GetTileOf(r, width, height, x1, y1) == GetTileOf(r, width, height, x2, y2)
      ensures x1 == x2 && y1 == y2
    {
      ResizedAt(cells, oldWidth, oldHeight, width, height, x1, y1);
      ResizedAt(cells, oldWidth, oldHeight, width, height, x2, y2);
    }
  }
  /** Writing a value no other cell holds (or None) into an in-bounds cell keeps values unique. */
  lemma UniqueAfterWrite<T>(cells: seq<Option<T>>, width: int, height: int, cx: int, cy: int, v: Option<T>)
    requires GridShape(cells, width, height) && Unique(cells, width, height) && InBounds(cx, cy, width, height)
    requires forall x, y :: (x, y) != (cx, cy) && GetTileOf(cells, width, height, x, y).Some? ==> GetTileOf(cells, width, height, x, y) != v
    ensures 0 <= TileIndex(cx, cy, width) < |cells|
    ensures Unique(cells[TileIndex(cx, cy, width) := v], width, height)
  {
    IndexInRange(cx, cy, width, height);
    var written := cells[TileIndex(cx, cy, width) := v];
    forall x1, y1, x2, y2 |
      GetTileOf(written, width, height, x1, y1).Some? && GetTileOf(written, width, height, x1, y1) == GetTileOf(written, width, height, x2, y2)
      ensures x1 == x2 && y1 == y2
    {
      GetTileOfUpdate(cells, width, height, cx, cy, v, x1, y1);
      GetTileOfUpdate(cells, width, height, cx, cy, v, x2, y2);
    }
  }
}
