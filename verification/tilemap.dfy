/**
 * The 2D grid component: a width x height grid of brush references, stored
 * row-major in a flat array, with a parallel array of the scene instances
 * that display them. Painting a cell refreshes the instances of its 3x3
 * block, since each of those cells may now match a different rule.
 *
 * The methods keep the loops and array updates of the original. They are
 * proved against the functions of this module (what a cell should show) and
 * keep the invariant `Valid` (every live instance is held by exactly one cell
 * and sits at that cell); `Consistent` (every cell shows what its brush allows
 * there) is preserved by painting, rebuilding, clearing and resizing.
 */
module Tilemaps {
  import opened Wrappers
  import opened Cells
  import opened Brushes
  import opened Scenes
  import opened Slots

  /** Width and height of a new grid. */
  const DefaultSize := 10

  /** Every brush painted on the grid can be evaluated. */
  ghost predicate AllWellFormed(tiles: seq<Option<Brush>>, width: int, height: int)
    requires GridShape(tiles, width, height)
  {
    forall x, y :: GetTileOf(tiles, width, height, x, y).Some? ==> WellFormed(GetTileOf(tiles, width, height, x, y).value)
  }

  /** What creating an instance for `brush` at (x, y) shows: nothing for no brush, else what the brush gives there. */
  function Expected(brush: Option<Brush>, tiles: seq<Option<Brush>>, width: int, height: int, x: int, y: int, u: real)
    : Option<PrefabData>
    requires GridShape(tiles, width, height) && (brush.Some? ==> WellFormed(brush.value))
  {
    if brush.None? then None else GetPrefabOnGrid(brush.value, tiles, width, height, x, y, u)
  }

  /** What cell (x, y) shows once its instance is updated with the draw u. */
  function ExpectedAt(tiles: seq<Option<Brush>>, width: int, height: int, x: int, y: int, u: real): Option<PrefabData>
    requires GridShape(tiles, width, height) && AllWellFormed(tiles, width, height)
  {
    Expected(GetTileOf(tiles, width, height, x, y), tiles, width, height, x, y, u)
  }

  /**
   * What cell (x, y) may show whatever the draws: nothing when it is empty,
   * else something its brush admits for the cell's neighbourhood.
   */
  ghost predicate CellConsistent(tiles: seq<Option<Brush>>, width: int, height: int, x: int, y: int, shown: Option<PrefabData>)
    requires GridShape(tiles, width, height) && AllWellFormed(tiles, width, height)
  {
    match GetTileOf(tiles, width, height, x, y)
    case None => shown == None
    case Some(b) => Admissible(b, Neighbors(b, tiles, width, height, x, y), shown)
  }

  /** An updated instance shows something its cell admits. */
  lemma ExpectedIsConsistent(tiles: seq<Option<Brush>>, width: int, height: int, x: int, y: int, u: real)
    requires GridShape(tiles, width, height) && AllWellFormed(tiles, width, height)
    ensures CellConsistent(tiles, width, height, x, y, ExpectedAt(tiles, width, height, x, y, u))
  {
    match GetTileOf(tiles, width, height, x, y)
    case None =>
    case Some(b) => GetPrefabIsAdmissible(b, Neighbors(b, tiles, width, height, x, y), u);
  }

  /** Painting a well-formed brush (or null) into any entry keeps every brush on the grid well-formed. */
  lemma PaintedWellFormed(tiles: seq<Option<Brush>>, width: int, height: int, cx: int, cy: int, v: Option<Brush>)
    requires GridShape(tiles, width, height) && AllWellFormed(tiles, width, height)
    requires 0 <= TileIndex(cx, cy, width) < |tiles| && (v.Some? ==> WellFormed(v.value))
    ensures GridShape(tiles[TileIndex(cx, cy, width) := v], width, height)
    ensures AllWellFormed(tiles[TileIndex(cx, cy, width) := v], width, height)
  {
    var painted := tiles[TileIndex(cx, cy, width) := v];
    forall x, y | GetTileOf(painted, width, height, x, y).Some?
      ensures WellFormed(GetTileOf(painted, width, height, x, y).value)
    {
      GetTileOfUpdate(tiles, width, height, cx, cy, v, x, y);
    }
  }

  /**
   * Painting cell (cx, cy) cannot change what a cell outside its 3x3 block
   * may show: that cell's brush and its 8 neighbours are all untouched.
   */
  lemma PaintIsLocal(tiles: seq<Option<Brush>>, width: int, height: int, cx: int, cy: int, v: Option<Brush>,
                     x: int, y: int, shown: Option<PrefabData>)
    requires GridShape(tiles, width, height) && AllWellFormed(tiles, width, height)
    requires InBounds(cx, cy, width, height) && 0 <= TileIndex(cx, cy, width) < |tiles|
    requires v.Some? ==> WellFormed(v.value)
    requires !Near(x, y, cx, cy)
    ensures GridShape(tiles[TileIndex(cx, cy, width) := v], width, height)
    ensures AllWellFormed(tiles[TileIndex(cx, cy, width) := v], width, height)
    ensures CellConsistent(tiles[TileIndex(cx, cy, width) := v], width, height, x, y, shown)
        <==> CellConsistent(tiles, width, height, x, y, shown)
  {
    var painted := tiles[TileIndex(cx, cy, width) := v];
    PaintedWellFormed(tiles, width, height, cx, cy, v);
    forall p, q | Near(p, q, x, y)
      ensures GetTileOf(painted, width, height, p, q) == GetTileOf(tiles, width, height, p, q)
    {
      GetTileOfUpdate(tiles, width, height, cx, cy, v, p, q);
    }
    match GetTileOf(tiles, width, height, x, y)
    case None =>
    case Some(b) => NeighborsAreLocal(b, painted, width, height, tiles, width, height, x, y);
  }

  /**
   * Painting an in-bounds cell of a consistent grid and refreshing its 3x3
   * block leaves a consistent grid: the block shows what the new brushes
   * give, and every other cell shows what it showed, which painting cannot
   * have invalidated.
   */
  lemma PaintKeepsConsistent(tiles: seq<Option<Brush>>, slots: seq<Option<Handle>>, objects: map<Handle, Instance>,
                             slots': seq<Option<Handle>>, objects': map<Handle, Instance>,
                             width: int, height: int, x: int, y: int, brush: Option<Brush>, draw: (int, int) -> real)
    requires GridShape(tiles, width, height) && AllWellFormed(tiles, width, height)
    requires GridShape(slots, width, height) && GridShape(slots', width, height)
    requires InBounds(x, y, width, height) && 0 <= TileIndex(x, y, width) < |tiles|
    requires brush.Some? ==> WellFormed(brush.value)
    requires forall p, q :: InBounds(p, q, width, height) ==>
               CellConsistent(tiles, width, height, p, q, ShownIn(slots, width, height, objects, p, q))
    requires GridShape(tiles[TileIndex(x, y, width) := brush], width, height)
    requires AllWellFormed(tiles[TileIndex(x, y, width) := brush], width, height)
    requires forall p, q :: InBounds(p, q, width, height) && Near(p, q, x, y) ==>
               ShownIn(slots', width, height, objects', p, q)
               == ExpectedAt(tiles[TileIndex(x, y, width) := brush], width, height, p, q, draw(p, q))
    requires forall p, q :: !(InBounds(p, q, width, height) && Near(p, q, x, y)) ==>
               ShownIn(slots', width, height, objects', p, q) == ShownIn(slots, width, height, objects, p, q)
    ensures forall p, q :: InBounds(p, q, width, height) ==>
              CellConsistent(tiles[TileIndex(x, y, width) := brush], width, height, p, q, ShownIn(slots', width, height, objects', p, q))
  {
    var painted := tiles[TileIndex(x, y, width) := brush];
    forall p, q | InBounds(p, q, width, height)
      ensures CellConsistent(painted, width, height, p, q, ShownIn(slots', width, height, objects', p, q))
    {
      if Near(p, q, x, y) {
        ExpectedIsConsistent(painted, width, height, p, q, draw(p, q));
      } else {
        PaintIsLocal(tiles, width, height, x, y, brush, p, q, ShownIn(slots, width, height, objects, p, q));
      }
    }
  }

  /** Resizing keeps every brush on the grid well-formed. */
  lemma ResizedWellFormed(tiles: seq<Option<Brush>>, oldWidth: int, oldHeight: int, width: int, height: int)
    requires GridShape(tiles, oldWidth, oldHeight) && AllWellFormed(tiles, oldWidth, oldHeight)
    requires 0 <= width && 0 <= height
    ensures AllWellFormed(Resized(tiles, oldWidth, oldHeight, width, height), width, height)
  {
    var r := Resized(tiles, oldWidth, oldHeight, width, height);
    forall x, y | GetTileOf(r, width, height, x, y).Some?
      ensures WellFormed(GetTileOf(r, width, height, x, y).value)
    {
      ResizedAt(tiles, oldWidth, oldHeight, width, height, x, y);
    }
  }

  /**
   * A cell off the new last row and last column sees, after a resize, the
   * same brush and the same 8 neighbours as before (cells beyond the old
   * size were empty before and are empty now), so it may show what it may
   * have shown before. This is why a resize refreshes only the border.
   */
  lemma ResizeKeepsInterior(tiles: seq<Option<Brush>>, oldWidth: int, oldHeight: int, width: int, height: int,
                            x: int, y: int, shown: Option<PrefabData>)
    requires GridShape(tiles, oldWidth, oldHeight) && AllWellFormed(tiles, oldWidth, oldHeight)
    requires 0 <= width && 0 <= height && x < width - 1 && y < height - 1
    ensures AllWellFormed(Resized(tiles, oldWidth, oldHeight, width, height), width, height)
    ensures CellConsistent(Resized(tiles, oldWidth, oldHeight, width, height), width, height, x, y, shown)
        <==> CellConsistent(tiles, oldWidth, oldHeight, x, y, shown)
  {
    var r := Resized(tiles, oldWidth, oldHeight, width, height);
    ResizedWellFormed(tiles, oldWidth, oldHeight, width, height);
    forall p, q | Near(p, q, x, y)
      ensures GetTileOf(r, width, height, p, q) == GetTileOf(tiles, oldWidth, oldHeight, p, q)
    {
      ResizedAt(tiles, oldWidth, oldHeight, width, height, p, q);
    }
    match GetTileOf(tiles, oldWidth, oldHeight, x, y)
    case None =>
    case Some(b) => NeighborsAreLocal(b, r, width, height, tiles, oldWidth, oldHeight, x, y);
  }
  /**
   * One update of the instance of cell (x, y), as a relation between the
   * slots, live instances and next handle before and after: the cell shows
   * what its brush gives with the draw u and its former instance is
   * destroyed; an empty cell keeps its slot; every other cell holds and shows
   * what it did; instances created have handles from `next` on.
   */
  ghost predicate Updated(tiles: seq<Option<Brush>>, width: int, height: int,
                          slots: seq<Option<Handle>>, objects: map<Handle, Instance>, next: nat,
                          slots': seq<Option<Handle>>, objects': map<Handle, Instance>, next': nat,
                          x: int, y: int, u: real)
    requires GridShape(tiles, width, height) && AllWellFormed(tiles, width, height)
    requires GridShape(slots, width, height) && GridShape(slots', width, height)
  {
    && next <= next'
    && (forall h :: h in objects' && h !in objects ==> next <= h)
    && ShownIn(slots', width, height, objects', x, y) == ExpectedAt(tiles, width, height, x, y, u)
    && (GetTileOf(slots, width, height, x, y).Some? ==> GetTileOf(slots, width, height, x, y).value !in objects')
    && (GetTileOf(tiles, width, height, x, y).None? ==> GetTileOf(slots', width, height, x, y) == GetTileOf(slots, width, height, x, y))
    && (forall p, q :: (p, q) != (x, y) ==>
          GetTileOf(slots', width, height, p, q) == GetTileOf(slots, width, height, p, q) &&
          ShownIn(slots', width, height, objects', p, q) == ShownIn(slots, width, height, objects, p, q))
  }

  /**
   * Part way through updating the instances of the in-bounds cells of `area`,
   * starting from slots0 and objects0: every such cell before (i, j) shows
   * what its brush gives with its draw and its former instance is destroyed;
   * every other cell holds and shows what it did; instances created on the
   * way have handles from next0 on.
   */
  ghost predicate RefreshedUpTo(tiles: seq<Option<Brush>>, width: int, height: int,
                                slots0: seq<Option<Handle>>, objects0: map<Handle, Instance>, next0: nat,
                                slots: seq<Option<Handle>>, objects: map<Handle, Instance>,
                                area: Area, i: int, j: int, draw: (int, int) -> real)
    requires GridShape(tiles, width, height) && AllWellFormed(tiles, width, height)
    requires GridShape(slots0, width, height) && GridShape(slots, width, height)
  {
    && (forall h :: h in objects && h !in objects0 ==> next0 <= h)
    && (forall p, q ::
          if InBounds(p, q, width, height) && Before(p, q, area, i, j) then
            && ShownIn(slots, width, height, objects, p, q) == ExpectedAt(tiles, width, height, p, q, draw(p, q))
            && (GetTileOf(slots0, width, height, p, q).Some? ==> GetTileOf(slots0, width, height, p, q).value !in objects)
          else
            && GetTileOf(slots, width, height, p, q) == GetTileOf(slots0, width, height, p, q)
            && ShownIn(slots, width, height, objects, p, q) == ShownIn(slots0, width, height, objects0, p, q))
  }

  /**
   * Updating cell (i, j) of `area` (or skipping it when it is outside the
   * grid) advances the refresh by one cell: the cell now shows what its
   * brush gives, and the instances destroyed before stay destroyed because
   * new handles are never below `next`.
   */
  lemma RefreshStep(tiles: seq<Option<Brush>>, width: int, height: int,
                    slots0: seq<Option<Handle>>, objects0: map<Handle, Instance>, next0: nat,
                    slots: seq<Option<Handle>>, objects: map<Handle, Instance>, next: nat,
                    slots': seq<Option<Handle>>, objects': map<Handle, Instance>, next': nat,
                    area: Area, i: int, j: int, draw: (int, int) -> real)
    requires GridShape(tiles, width, height) && AllWellFormed(tiles, width, height)
    requires GridShape(slots0, width, height) && GridShape(slots, width, height) && GridShape(slots', width, height)
    requires forall p, q :: GetTileOf(slots0, width, height, p, q).Some? ==> GetTileOf(slots0, width, height, p, q).value < next0
    requires next0 <= next && area.left <= i < area.right && area.bottom <= j < area.top
    requires RefreshedUpTo(tiles, width, height, slots0, objects0, next0, slots, objects, area, i, j, draw)
    requires !InBounds(i, j, width, height) ==> slots' == slots && objects' == objects && next' == next
    requires InBounds(i, j, width, height) ==>
               Updated(tiles, width, height, slots, objects, next, slots', objects', next', i, j, draw(i, j))
    ensures next0 <= next'
    ensures RefreshedUpTo(tiles, width, height, slots0, objects0, next0, slots', objects', area, i, j + 1, draw)
  {
  }

  /** Past the top of column i, the refresh continues at the bottom of column i + 1. */
  lemma RefreshNextColumn(tiles: seq<Option<Brush>>, width: int, height: int,
                          slots0: seq<Option<Handle>>, objects0: map<Handle, Instance>, next0: nat,
                          slots: seq<Option<Handle>>, objects: map<Handle, Instance>,
                          area: Area, i: int, draw: (int, int) -> real)
    requires GridShape(tiles, width, height) && AllWellFormed(tiles, width, height)
    requires GridShape(slots0, width, height) && GridShape(slots, width, height)
    requires RefreshedUpTo(tiles, width, height, slots0, objects0, next0, slots, objects, area, i, area.top, draw)
    ensures RefreshedUpTo(tiles, width, height, slots0, objects0, next0, slots, objects, area, i + 1, area.bottom, draw)
  {
  }

  /**
   * Two refreshes in a row, the second starting where the first stopped,
   * amount to one over the union of the cells they updated.
   */
  lemma RefreshComposed(tiles: seq<Option<Brush>>, width: int, height: int,
                        slots0: seq<Option<Handle>>, objects0: map<Handle, Instance>, next0: nat,
                        slots1: seq<Option<Handle>>, objects1: map<Handle, Instance>, next1: nat,
                        slots2: seq<Option<Handle>>, objects2: map<Handle, Instance>,
                        area1: Area, i1: int, j1: int, area2: Area, i2: int, j2: int, draw: (int, int) -> real)
    requires GridShape(tiles, width, height) && AllWellFormed(tiles, width, height)
    requires GridShape(slots0, width, height) && GridShape(slots1, width, height) && GridShape(slots2, width, height)
    requires forall p, q :: GetTileOf(slots0, width, height, p, q).Some? ==> GetTileOf(slots0, width, height, p, q).value < next0
    requires next0 <= next1
    requires RefreshedUpTo(tiles, width, height, slots0, objects0, next0, slots1, objects1, area1, i1, j1, draw)
    requires RefreshedUpTo(tiles, width, height, slots1, objects1, next1, slots2, objects2, area2, i2, j2, draw)
    ensures forall h :: h in objects2 && h !in objects0 ==> next0 <= h
    ensures forall p, q :: InBounds(p, q, width, height) && (Before(p, q, area1, i1, j1) || Before(p, q, area2, i2, j2)) ==>
              ShownIn(slots2, width, height, objects2, p, q) == ExpectedAt(tiles, width, height, p, q, draw(p, q)) &&
              (GetTileOf(slots0, width, height, p, q).Some? ==> GetTileOf(slots0, width, height, p, q).value !in objects2)
    ensures forall p, q :: !(InBounds(p, q, width, height) && (Before(p, q, area1, i1, j1) || Before(p, q, area2, i2, j2))) ==>
              GetTileOf(slots2, width, height, p, q) == GetTileOf(slots0, width, height, p, q) &&
              ShownIn(slots2, width, height, objects2, p, q) == ShownIn(slots0, width, height, objects0, p, q)
  {
  }

  /**
   * Resizing a consistent grid and updating the instances of the new last
   * row and last column leaves a consistent grid: every other cell keeps its
   * brush, its neighbours and what it shows.
   */
  lemma ResizeKeepsConsistent(tiles: seq<Option<Brush>>, slots: seq<Option<Handle>>, objects: map<Handle, Instance>,
                              slots': seq<Option<Handle>>, objects': map<Handle, Instance>,
                              oldWidth: int, oldHeight: int, width: int, height: int, draw: (int, int) -> real)
    requires GridShape(tiles, oldWidth, oldHeight) && AllWellFormed(tiles, oldWidth, oldHeight)
    requires GridShape(slots, oldWidth, oldHeight) && 0 <= width && 0 <= height && GridShape(slots', width, height)
    requires forall p, q :: InBounds(p, q, oldWidth, oldHeight) ==>
               CellConsistent(tiles, oldWidth, oldHeight, p, q, ShownIn(slots, oldWidth, oldHeight, objects, p, q))
    requires AllWellFormed(Resized(tiles, oldWidth, oldHeight, width, height), width, height)
    requires forall p, q :: OnBorder(p, q, width, height) ==>
               ShownIn(slots', width, height, objects', p, q)
               == ExpectedAt(Resized(tiles, oldWidth, oldHeight, width, height), width, height, p, q, draw(p, q))
    requires forall p, q :: p < width - 1 && q < height - 1 ==>
               ShownIn(slots', width, height, objects', p, q) == ShownIn(slots, oldWidth, oldHeight, objects, p, q)
    ensures forall p, q :: InBounds(p, q, width, height) ==>
              CellConsistent(Resized(tiles, oldWidth, oldHeight, width, height), width, height, p, q,
                             ShownIn(slots', width, height, objects', p, q))
  {
    var r := Resized(tiles, oldWidth, oldHeight, width, height);
    forall p, q | InBounds(p, q, width, height)
      ensures CellConsistent(r, width, height, p, q, ShownIn(slots', width, height, objects', p, q))
    {
      if p == width - 1 || q == height - 1 {
        ExpectedIsConsistent(r, width, height, p, q, draw(p, q));
      } else {
        ResizeKeepsInterior(tiles, oldWidth, oldHeight, width, height, p, q, ShownIn(slots, oldWidth, oldHeight, objects, p, q));
      }
    }
  }

  /**
   * The border update of a resize, as a relation between the slots and live
   * instances before and after: every cell of the last row and last column
   * shows what its brush gives with its draw and its former instance is
   * destroyed; every other cell holds and shows what it did; instances
   * created have handles from `next` on.
   */
  ghost predicate BorderRefreshed(tiles: seq<Option<Brush>>, width: int, height: int,
                                  slots: seq<Option<Handle>>, objects: map<Handle, Instance>, next: nat,
                                  slots': seq<Option<Handle>>, objects': map<Handle, Instance>, draw: (int, int) -> real)
    requires GridShape(tiles, width, height) && AllWellFormed(tiles, width, height)
    requires GridShape(slots, width, height) && GridShape(slots', width, height)
  {
    && (forall h :: h in objects' && h !in objects ==> next <= h)
    && (forall x, y ::
          if OnBorder(x, y, width, height) then
            && ShownIn(slots', width, height, objects', x, y) == ExpectedAt(tiles, width, height, x, y, draw(x, y))
            && (GetTileOf(slots, width, height, x, y).Some? ==> GetTileOf(slots, width, height, x, y).value !in objects')
          else
            && GetTileOf(slots', width, height, x, y) == GetTileOf(slots, width, height, x, y)
            && ShownIn(slots', width, height, objects', x, y) == ShownIn(slots, width, height, objects, x, y))
  }

  /**
   * What a resize achieves, from the state before it (tiles, slots, objects)
   * through the state once the cut-off instances are destroyed (objects1) to
   * the state after the border update (slots2, objects2): border cells show
   * what their brushes give, the other cells of the new size keep their slot
   * and what they show, the instances of cut-off cells are destroyed, and a
   * consistent grid stays consistent.
   */
  lemma ResizeOutcome(tiles: seq<Option<Brush>>, slots: seq<Option<Handle>>, objects: map<Handle, Instance>, next: nat,
                      objects1: map<Handle, Instance>, slots2: seq<Option<Handle>>, objects2: map<Handle, Instance>,
                      oldWidth: int, oldHeight: int, width: int, height: int, draw: (int, int) -> real)
    requires GridShape(tiles, oldWidth, oldHeight) && AllWellFormed(tiles, oldWidth, oldHeight)
    requires GridShape(slots, oldWidth, oldHeight) && 0 <= width && 0 <= height && GridShape(slots2, width, height)
    requires forall x, y :: GetTileOf(slots, oldWidth, oldHeight, x, y).Some? ==> GetTileOf(slots, oldWidth, oldHeight, x, y).value < next
    requires forall x, y :: ShownIn(slots, oldWidth, oldHeight, objects1, x, y)
                            == if x < width && y < height then ShownIn(slots, oldWidth, oldHeight, objects, x, y) else None
    requires AllWellFormed(Resized(tiles, oldWidth, oldHeight, width, height), width, height)
    requires forall x, y :: x < width && y < height ==>
               ShownIn(Resized(slots, oldWidth, oldHeight, width, height), width, height, objects1, x, y)
               == ShownIn(slots, oldWidth, oldHeight, objects1, x, y)
    requires BorderRefreshed(Resized(tiles, oldWidth, oldHeight, width, height), width, height,
                             Resized(slots, oldWidth, oldHeight, width, height), objects1, next, slots2, objects2, draw)
    ensures forall x, y ::
              if OnBorder(x, y, width, height) then
                && ShownIn(slots2, width, height, objects2, x, y)
                   == ExpectedAt(Resized(tiles, oldWidth, oldHeight, width, height), width, height, x, y, draw(x, y))
                && (GetTileOf(slots, oldWidth, oldHeight, x, y).Some? ==> GetTileOf(slots, oldWidth, oldHeight, x, y).value !in objects2)
              else if x < width && y < height then
                && GetTileOf(slots2, width, height, x, y) == GetTileOf(slots, oldWidth, oldHeight, x, y)
                && ShownIn(slots2, width, height, objects2, x, y) == ShownIn(slots, oldWidth, oldHeight, objects, x, y)
              else
                GetTileOf(slots, oldWidth, oldHeight, x, y).Some? ==> GetTileOf(slots, oldWidth, oldHeight, x, y).value !in objects2
    ensures (forall x, y :: InBounds(x, y, oldWidth, oldHeight) ==>
               CellConsistent(tiles, oldWidth, oldHeight, x, y, ShownIn(slots, oldWidth, oldHeight, objects, x, y))) ==>
            (forall x, y :: InBounds(x, y, width, height) ==>
               CellConsistent(Resized(tiles, oldWidth, oldHeight, width, height), width, height, x, y,
                              ShownIn(slots2, width, height, objects2, x, y)))
  {
    var r := Resized(slots, oldWidth, oldHeight, width, height);
    forall x, y
      ensures GetTileOf(r, width, height, x, y) == if x < width && y < height then GetTileOf(slots, oldWidth, oldHeight, x, y) else None
    {
      ResizedAt(slots, oldWidth, oldHeight, width, height, x, y);
    }
    if forall x, y :: InBounds(x, y, oldWidth, oldHeight) ==>
         CellConsistent(tiles, oldWidth, oldHeight, x, y, ShownIn(slots, oldWidth, oldHeight, objects, x, y))
    {
      ResizeKeepsConsistent(tiles, slots, objects, slots2, objects2, oldWidth, oldHeight, width, height, draw);
    }
  }

  class Tilemap {
    var tileSize: real
    var width: int
    var height: int
    /** Cell (x, y) holds the brush painted there, at index x + y * width. */
    var tiles: array<Option<Brush>>
    /** Cell (x, y) holds the instance displaying it; a destroyed instance's handle may linger. */
    var instances: array<Option<Handle>>
    /** The scene the instances live in. */
    const scene: Scene

    ghost predicate Shaped()
      reads this, tiles, instances
    {
      GridShape(tiles[..], width, height) && GridShape(instances[..], width, height)
    }

    /** The brush painted at (x, y): the public GetTile as a function. */
    ghost function TileAt(x: int, y: int): Option<Brush>
      reads this, tiles
      requires GridShape(tiles[..], width, height)
    {
      GetTileOf(tiles[..], width, height, x, y)
    }

    /** The instance handle held at (x, y). */
    ghost function SlotAt(x: int, y: int): Option<Handle>
      reads this, instances
      requires GridShape(instances[..], width, height)
    {
      GetTileOf(instances[..], width, height, x, y)
    }

    /** What cell (x, y) displays: the prefab of its instance, if that instance is live. */
    ghost function ShownAt(x: int, y: int): Option<PrefabData>
      reads this, instances, scene
      requires GridShape(instances[..], width, height)
    {
      ShownIn(instances[..], width, height, scene.objects, x, y)
    }

    /**
     * The arrays have the grid's shape, every painted brush can be evaluated,
     * the live instances are exactly those held by cells, each by one cell
     * only, and each sits at the centre of its cell.
     */
    ghost predicate Valid()
      reads this, tiles, instances, scene
    {
      && Shaped()
      && AllWellFormed(tiles[..], width, height)
      && scene.Valid()
      && Bookkeeping(instances[..], width, height, scene.objects.Keys, scene.next)
      && PlacedIn(instances[..], width, height, scene.objects, tileSize)
    }

    /** Every cell displays something its brush admits there (nothing when empty). */
    ghost predicate Consistent()
      reads this, tiles, instances, scene
      requires Valid()
    {
      forall x, y :: InBounds(x, y, width, height) ==> CellConsistent(tiles[..], width, height, x, y, ShownAt(x, y))
    }

    /** A new component: 10 x 10 empty cells of size 1. */
    constructor ()
      ensures Valid() && Consistent()
      ensures width == DefaultSize && height == DefaultSize && tileSize == 1.0
      ensures forall x, y :: TileAt(x, y) == None && SlotAt(x, y) == None
      ensures fresh(tiles) && fresh(instances) && fresh(scene) && scene.objects == map[]
    {
      tileSize := 1.0;
      width := DefaultSize;
      height := DefaultSize;
      tiles := new Option<Brush>[DefaultSize * DefaultSize](_ => None);
      instances := new Option<Handle>[DefaultSize * DefaultSize](_ => None);
      scene := new Scene();
    }

    /** The brush at (x, y); null outside the grid. */
    method GetTile(x: int, y: int) returns (r: Option<Brush>)
      requires Valid()
      ensures r == TileAt(x, y)
      ensures !InBounds(x, y, width, height) ==> r == None
    {
      if 0 <= x < width && 0 <= y < height {
        IndexInRange(x, y, width, height);
        return tiles[TileIndex(x, y, width)];
      }
      return None;
    }

    /** The instance at (x, y); null outside the grid. */
    method GetTileInstance(x: int, y: int) returns (r: Option<Handle>)
      requires Valid()
      ensures r == SlotAt(x, y)
      ensures !InBounds(x, y, width, height) ==> r == None
    {
      if 0 <= x < width && 0 <= y < height {
        IndexInRange(x, y, width, height);
        return instances[TileIndex(x, y, width)];
      }
      return None;
    }

    /**
     * Instantiates what `brush` gives at (x, y) and places it at the centre
     * of the cell; nothing for no brush or a brush without rules.
     */
    method CreateInstance(brush: Option<Brush>, x: int, y: int, u: real) returns (instance: Option<Handle>)
      requires Shaped() && scene.Valid() && (brush.Some? ==> WellFormed(brush.value))
      modifies scene
      ensures scene.Valid() && old(scene.next) <= scene.next
      ensures Expected(brush, tiles[..], width, height, x, y, u).None? ==>
                instance == None && scene.objects == old(scene.objects)
      ensures Expected(brush, tiles[..], width, height, x, y, u).Some? ==>
                instance.Some? && old(scene.next) <= instance.value < scene.next &&
                scene.objects == old(scene.objects)[instance.value :=
                  Instance(Expected(brush, tiles[..], width, height, x, y, u).value, Placement(x, y, tileSize))]
    {
      if brush.None? {
        return None;
      }
      var prefab := brush.value.GetPrefabAt(tiles[..], width, height, x, y, u);
      if prefab.Some? {
        var h := scene.Instantiate(prefab.value, Placement(x, y, tileSize));
        return Some(h);
      }
      return None;
    }

    /**
     * Destroys the instance of (x, y) and, when the cell holds a brush, puts a
     * fresh one in its place. An empty cell keeps the destroyed instance's
     * handle, which no longer refers to a live instance.
     */
    method UpdateInstance(x: int, y: int, u: real)
      requires Valid() && InBounds(x, y, width, height)
      modifies instances, scene
      ensures Valid()
      ensures Updated(tiles[..], width, height, old(instances[..]), old(scene.objects), old(scene.next),
                      instances[..], scene.objects, scene.next, x, y, u)
    {
      var index := TileIndex(x, y, width);
      IndexInRange(x, y, width, height);
      DestroyKeeps(instances[..], width, height, scene.objects, scene.next, tileSize, x, y);
      scene.DestroyImmediate(instances[index]);
      if tiles[index].Some? {
        assert TileAt(x, y) == tiles[index];
        ghost var objects, next := scene.objects, scene.next;
        var instance := CreateInstance(tiles[index], x, y, u);
        PlaceKeeps(instances[..], width, height, objects, next, tileSize, x, y, instance, scene.objects, scene.next);
        instances[index] := instance;
      }
    }
    /**
     * Paints `brush` (null erases) at (x, y) and refreshes the instances of
     * the 3x3 block around it. Only the array index is required to be valid:
     * the write itself is not bounds-checked.
     */
    method SetTile(x: int, y: int, brush: Option<Brush>, draw: (int, int) -> real)
      requires Valid() && 0 <= TileIndex(x, y, width) < tiles.Length
      requires brush.Some? ==> WellFormed(brush.value)
      modifies tiles, instances, scene
      ensures Valid()
      ensures tiles[..] == old(tiles[..])[TileIndex(x, y, width) := brush]
      ensures forall i, j :: InBounds(i, j, width, height) && Near(i, j, x, y) ==>
                ShownAt(i, j) == ExpectedAt(tiles[..], width, height, i, j, draw(i, j)) &&
                (old(SlotAt(i, j)).Some? ==> old(SlotAt(i, j)).value !in scene.objects)
      ensures forall i, j :: !(InBounds(i, j, width, height) && Near(i, j, x, y)) ==>
                SlotAt(i, j) == old(SlotAt(i, j)) && ShownAt(i, j) == old(ShownAt(i, j))
      ensures InBounds(x, y, width, height) && old(Consistent()) ==> Consistent()
    {
      PaintedWellFormed(tiles[..], width, height, x, y, brush);
      tiles[TileIndex(x, y, width)] := brush;
      RefreshBlock(x, y, draw);
      if InBounds(x, y, width, height) && old(Consistent()) {
        PaintKeepsConsistent(old(tiles[..]), old(instances[..]), old(scene.objects), instances[..], scene.objects,
                             width, height, x, y, brush, draw);
      }
    }

    /**
     * One step of a refresh loop: updates the instance of in-bounds cell
     * (i, j), which advances a refresh of `area` begun in the state
     * (slots0, objects0, next0) by one cell.
     */
    method RefreshCell(i: int, j: int, draw: (int, int) -> real, ghost area: Area,
                       ghost slots0: seq<Option<Handle>>, ghost objects0: map<Handle, Instance>, ghost next0: nat)
      requires Valid() && InBounds(i, j, width, height) && GridShape(slots0, width, height)
      requires forall p, q :: GetTileOf(slots0, width, height, p, q).Some? ==> GetTileOf(slots0, width, height, p, q).value < next0
      requires next0 <= scene.next && area.left <= i < area.right && area.bottom <= j < area.top
      requires RefreshedUpTo(tiles[..], width, height, slots0, objects0, next0, instances[..], scene.objects, area, i, j, draw)
      modifies instances, scene
      ensures Valid() && next0 <= scene.next
      ensures RefreshedUpTo(tiles[..], width, height, slots0, objects0, next0, instances[..], scene.objects, area, i, j + 1, draw)
    {
      ghost var slots, objects, next := instances[..], scene.objects, scene.next;
      UpdateInstance(i, j, draw(i, j));
      RefreshStep(tiles[..], width, height, slots0, objects0, next0, slots, objects, next,
                  instances[..], scene.objects, scene.next, area, i, j, draw);
    }

    /** The loops of SetTile: updates the instance of every in-bounds cell of the 3x3 block around (x, y). */
    method RefreshBlock(x: int, y: int, draw: (int, int) -> real)
      requires Valid()
      modifies instances, scene
      ensures Valid()
      ensures forall i, j :: InBounds(i, j, width, height) && Near(i, j, x, y) ==>
                ShownAt(i, j) == ExpectedAt(tiles[..], width, height, i, j, draw(i, j)) &&
                (old(SlotAt(i, j)).Some? ==> old(SlotAt(i, j)).value !in scene.objects)
      ensures forall i, j :: !(InBounds(i, j, width, height) && Near(i, j, x, y)) ==>
                SlotAt(i, j) == old(SlotAt(i, j)) && ShownAt(i, j) == old(ShownAt(i, j))
    {
      ghost var slots0, objects0, next0 := instances[..], scene.objects, scene.next;
      ghost var block := Area(x - 1, y - 1, x + 2, y + 2);
      for i := x - 1 to x + 2
        invariant Valid() && next0 <= scene.next
        invariant RefreshedUpTo(tiles[..], width, height, slots0, objects0, next0, instances[..], scene.objects, block, i, y - 1, draw)
      {
        for j := y - 1 to y + 2
          invariant Valid() && next0 <= scene.next
          invariant RefreshedUpTo(tiles[..], width, height, slots0, objects0, next0, instances[..], scene.objects, block, i, j, draw)
        {
          if 0 <= i < width && 0 <= j < height {
            RefreshCell(i, j, draw, block, slots0, objects0, next0);
          } else {
            RefreshStep(tiles[..], width, height, slots0, objects0, next0, instances[..], scene.objects, scene.next,
                        instances[..], scene.objects, scene.next, block, i, j, draw);
          }
        }
        RefreshNextColumn(tiles[..], width, height, slots0, objects0, next0, instances[..], scene.objects, block, i, draw);
      }
    }

    /** Re-creates every cell's instance. */
    method Rebuild(draw: (int, int) -> real)
      requires Valid()
      modifies instances, scene
      ensures Valid() && Consistent()
      ensures forall x, y :: InBounds(x, y, width, height) ==>
                ShownAt(x, y) == ExpectedAt(tiles[..], width, height, x, y, draw(x, y)) &&
                (old(SlotAt(x, y)).Some? ==> old(SlotAt(x, y)).value !in scene.objects)
    {
      ghost var slots0, objects0, next0 := instances[..], scene.objects, scene.next;
      ghost var grid := Area(0, 0, width, height);
      for x := 0 to width
        invariant Valid() && next0 <= scene.next
        invariant RefreshedUpTo(tiles[..], width, height, slots0, objects0, next0, instances[..], scene.objects, grid, x, 0, draw)
      {
        for y := 0 to height
          invariant Valid() && next0 <= scene.next
          invariant RefreshedUpTo(tiles[..], width, height, slots0, objects0, next0, instances[..], scene.objects, grid, x, y, draw)
        {
          RefreshCell(x, y, draw, grid, slots0, objects0, next0);
        }
        RefreshNextColumn(tiles[..], width, height, slots0, objects0, next0, instances[..], scene.objects, grid, x, draw);
      }
      forall p, q | InBounds(p, q, width, height)
        ensures CellConsistent(tiles[..], width, height, p, q, ShownAt(p, q))
      {
        ExpectedIsConsistent(tiles[..], width, height, p, q, draw(p, q));
      }
    }

    /** Destroys every instance and empties every cell. */
    method Clear()
      requires Valid()
      modifies tiles, instances, scene
      ensures Valid() && Consistent()
      ensures forall x, y :: TileAt(x, y) == None && SlotAt(x, y) == None
      ensures scene.objects == map[]
    {
      for x := 0 to width
        invariant Valid()
        invariant forall p, q :: InBounds(p, q, width, height) && p < x ==> TileAt(p, q) == None && SlotAt(p, q) == None
      {
        for y := 0 to height
          invariant Valid()
          invariant forall p, q :: InBounds(p, q, width, height) && (p < x || (p == x && q < y)) ==>
                      TileAt(p, q) == None && SlotAt(p, q) == None
        {
          var index := TileIndex(x, y, width);
          IndexInRange(x, y, width, height);
          DestroyKeeps(instances[..], width, height, scene.objects, scene.next, tileSize, x, y);
          scene.DestroyImmediate(instances[index]);
          forall p, q
            ensures GetTileOf(tiles[..][index := None], width, height, p, q)
                 == if p == x && q == y then None else GetTileOf(tiles[..], width, height, p, q)
          {
            GetTileOfUpdate(tiles[..], width, height, x, y, None, p, q);
          }
          PaintedWellFormed(tiles[..], width, height, x, y, None);
          tiles[index] := None;
          PlaceKeeps(instances[..], width, height, scene.objects, scene.next, tileSize, x, y, None, scene.objects, scene.next);
          instances[index] := None;
        }
      }
      EmptyHoldsNothing(instances[..], width, height);
    }

    /** Sets the tile size and moves every live instance to the centre of its cell. */
    method ChangeTileSize(size: real)
      requires Valid()
      modifies this, scene
      ensures Valid() && tileSize == size
      ensures width == old(width) && height == old(height) && tiles == old(tiles) && instances == old(instances)
      ensures scene.objects.Keys == old(scene.objects).Keys
      ensures forall x, y :: ShownAt(x, y) == old(ShownAt(x, y))
      ensures old(Consistent()) ==> Consistent()
    {
      ghost var slots0, objects0, oldSize := instances[..], scene.objects, tileSize;
      PlacedUpToEnds(slots0, width, height, objects0, size, oldSize);
      tileSize := size;
      for x := 0 to width
        modifies scene
        invariant scene.next == old(scene.next)
        invariant SameShows(objects0, scene.objects)
        invariant PlacedUpTo(slots0, width, height, scene.objects, size, oldSize, x, 0)
      {
        for y := 0 to height
          modifies scene
          invariant scene.next == old(scene.next)
          invariant SameShows(objects0, scene.objects)
          invariant PlacedUpTo(slots0, width, height, scene.objects, size, oldSize, x, y)
        {
          IndexInRange(x, y, width, height);
          var inst := instances[TileIndex(x, y, width)];
          assert GetTileOf(slots0, width, height, x, y) == inst;
          ghost var moved := MovedTo(scene.objects, inst, Placement(x, y, size));
          MoveStep(slots0, width, height, scene.objects, size, oldSize, x, y);
          if inst.Some? && scene.Alive(inst.value) {
            scene.Move(inst.value, Placement(x, y, tileSize));
          }
          assert scene.objects == moved;
        }
        NextColumn(slots0, width, height, scene.objects, size, oldSize, x);
      }
      PlacedUpToEnds(slots0, width, height, scene.objects, size, oldSize);
      MovedKeeps(slots0, width, height, objects0, scene.objects, scene.next);
      assert instances[..] == slots0 && tiles[..] == old(tiles[..]);
    }

    /**
     * Resizes the grid to w x h: destroys the instances of the cells the new
     * size cuts off, copies the overlapping rectangle of both arrays into new
     * arrays, and updates the instances of the new last row and last column,
     * the only cells whose neighbourhood the resize can change. The sizes
     * allowed are those for which the border loops stay inside the new
     * arrays.
     */
    method Resize(w: int, h: int, draw: (int, int) -> real)
      requires Valid()
      requires (1 <= w && 1 <= h) || (w == 0 && 0 <= h <= 1)
      modifies this, tiles, instances, scene
      ensures Valid() && width == w && height == h && tileSize == old(tileSize)
      ensures fresh(tiles) && fresh(instances)
      ensures tiles[..] == Resized(old(tiles[..]), old(width), old(height), w, h)
      ensures forall x, y ::
                if OnBorder(x, y, w, h) then
                  && ShownAt(x, y) == ExpectedAt(tiles[..], w, h, x, y, draw(x, y))
                  && (old(SlotAt(x, y)).Some? ==> old(SlotAt(x, y)).value !in scene.objects)
                else if x < w && y < h then
                  SlotAt(x, y) == old(SlotAt(x, y)) && ShownAt(x, y) == old(ShownAt(x, y))
                else
                  old(SlotAt(x, y)).Some? ==> old(SlotAt(x, y)).value !in scene.objects
      ensures old(Consistent()) ==> Consistent()
    {
      ghost var slots0, objects0, next0 := instances[..], scene.objects, scene.next;
      DestroyCutOff(w, h);
      ghost var objects1 := scene.objects;
      ResizeKeeps(slots0, width, height, w, h, objects1, next0, tileSize);
      ResizedWellFormed(tiles[..], width, height, w, h);
      var newTiles, newInstances := CopyOverlap(w, h);
      tiles := newTiles;
      instances := newInstances;
      width := w;
      height := h;
      RefreshBorder(draw);
      ResizeOutcome(old(tiles[..]), slots0, objects0, next0, objects1, instances[..], scene.objects,
                    old(width), old(height), w, h, draw);
    }

    /** The third loop of Resize: new w x h arrays holding the overlapping rectangle of the old ones. */
    method CopyOverlap(w: int, h: int) returns (newTiles: array<Option<Brush>>, newInstances: array<Option<Handle>>)
      requires Shaped() && 0 <= w && 0 <= h
      ensures fresh(newTiles) && fresh(newInstances)
      ensures newTiles[..] == Resized(tiles[..], width, height, w, h)
      ensures newInstances[..] == Resized(instances[..], width, height, w, h)
    {
      if 1 <= h {
        MultipleAtLeast(h, w);
      }
      newTiles := new Option<Brush>[w * h](_ => None);
      newInstances := new Option<Handle>[w * h](_ => None);
      var copyWidth := if width < w then width else w;
      var copyHeight := if height < h then height else h;
      for x := 0 to copyWidth
        invariant forall p, q :: InBounds(p, q, w, h) ==>
                    && GetTileOf(newTiles[..], w, h, p, q) == (if p < x && q < copyHeight then TileAt(p, q) else None)
                    && GetTileOf(newInstances[..], w, h, p, q) == (if p < x && q < copyHeight then SlotAt(p, q) else None)
      {
        for y := 0 to copyHeight
          invariant forall p, q :: InBounds(p, q, w, h) ==>
                      && GetTileOf(newTiles[..], w, h, p, q)
                         == (if (p < x || (p == x && q < y)) && q < copyHeight then TileAt(p, q) else None)
                      && GetTileOf(newInstances[..], w, h, p, q)
                         == (if (p < x || (p == x && q < y)) && q < copyHeight then SlotAt(p, q) else None)
        {
          var index := TileIndex(x, y, width);
          var newIndex := x + y * w;
          IndexInRange(x, y, width, height);
          IndexInRange(x, y, w, h);
          forall p, q
            ensures GetTileOf(newTiles[..][newIndex := tiles[index]], w, h, p, q)
                 == if p == x && q == y then tiles[index] else GetTileOf(newTiles[..], w, h, p, q)
            ensures GetTileOf(newInstances[..][newIndex := instances[index]], w, h, p, q)
                 == if p == x && q == y then instances[index] else GetTileOf(newInstances[..], w, h, p, q)
          {
            GetTileOfUpdate(newTiles[..], w, h, x, y, tiles[index], p, q);
            GetTileOfUpdate(newInstances[..], w, h, x, y, instances[index], p, q);
          }
          newTiles[newIndex] := tiles[index];
          newInstances[newIndex] := instances[index];
        }
      }
      forall p, q | InBounds(p, q, w, h)
        ensures GetTileOf(newTiles[..], w, h, p, q) == GetTileOf(Resized(tiles[..], width, height, w, h), w, h, p, q)
        ensures GetTileOf(newInstances[..], w, h, p, q) == GetTileOf(Resized(instances[..], width, height, w, h), w, h, p, q)
      {
        ResizedAt(tiles[..], width, height, w, h, p, q);
        ResizedAt(instances[..], width, height, w, h, p, q);
      }
      SameCells(newTiles[..], Resized(tiles[..], width, height, w, h), w, h);
      SameCells(newInstances[..], Resized(instances[..], width, height, w, h), w, h);
    }

    /** The first two loops of Resize: destroys the instances of the cells outside [0, w) x [0, h). */
    method DestroyCutOff(w: int, h: int)
      requires Valid() && 0 <= w && 0 <= h
      modifies scene
      ensures Valid() && scene.next == old(scene.next)
      ensures forall x, y :: ShownIn(instances[..], width, height, scene.objects, x, y)
                             == if x < w && y < h then ShownIn(instances[..], width, height, old(scene.objects), x, y) else None
    {
      ghost var slots0, objects0 := instances[..], scene.objects;
      var x := w;
      while x < width
        invariant Valid() && scene.next == old(scene.next)
        invariant forall p, q :: ShownIn(slots0, width, height, scene.objects, p, q)
                     == if w <= p < x then None else ShownIn(slots0, width, height, objects0, p, q)
      {
        for y := 0 to height
          invariant Valid() && scene.next == old(scene.next)
          invariant forall p, q :: ShownIn(slots0, width, height, scene.objects, p, q)
                       == if w <= p < x || (p == x && q < y) then None else ShownIn(slots0, width, height, objects0, p, q)
        {
          IndexInRange(x, y, width, height);
          DestroyKeeps(instances[..], width, height, scene.objects, scene.next, tileSize, x, y);
          scene.DestroyImmediate(instances[TileIndex(x, y, width)]);
        }
        x := x + 1;
      }
      var y := h;
      while y < height
        invariant Valid() && scene.next == old(scene.next)
        invariant forall p, q :: ShownIn(slots0, width, height, scene.objects, p, q)
                     == if w <= p || h <= q < y then None else ShownIn(slots0, width, height, objects0, p, q)
      {
        for i := 0 to width
          invariant Valid() && scene.next == old(scene.next)
          invariant forall p, q :: ShownIn(slots0, width, height, scene.objects, p, q)
                       == if w <= p || h <= q < y || (q == y && p < i) then None else ShownIn(slots0, width, height, objects0, p, q)
        {
          IndexInRange(i, y, width, height);
          DestroyKeeps(instances[..], width, height, scene.objects, scene.next, tileSize, i, y);
          scene.DestroyImmediate(instances[TileIndex(i, y, width)]);
        }
        y := y + 1;
      }
    }

    /** The last two loops of Resize: updates the instances of the last row, then of the rest of the last column. */
    method RefreshBorder(draw: (int, int) -> real)
      requires Valid() && ((1 <= width && 1 <= height) || (width == 0 && height <= 1))
      modifies instances, scene
      ensures Valid()
      ensures BorderRefreshed(tiles[..], width, height, old(instances[..]), old(scene.objects), old(scene.next),
                              instances[..], scene.objects, draw)
    {
      ghost var slots0, objects0, next0 := instances[..], scene.objects, scene.next;
      RefreshLastRow(draw);
      ghost var slots1, objects1, next1 := instances[..], scene.objects, scene.next;
      RefreshLastColumn(draw);
      RefreshComposed(tiles[..], width, height, slots0, objects0, next0, slots1, objects1, next1, instances[..], scene.objects,
                      Area(0, height - 1, width, height), width, height - 1,
                      Area(width - 1, 0, width, height - 1), width, 0, draw);
    }

    /** The first border loop of Resize: updates the instance of every cell of the last row. */
    method RefreshLastRow(draw: (int, int) -> real)
      requires Valid() && (1 <= width ==> 1 <= height)
      modifies instances, scene
      ensures Valid() && old(scene.next) <= scene.next
      ensures RefreshedUpTo(tiles[..], width, height, old(instances[..]), old(scene.objects), old(scene.next),
                            instances[..], scene.objects, Area(0, height - 1, width, height), width, height - 1, draw)
    {
      ghost var slots0, objects0, next0 := instances[..], scene.objects, scene.next;
      ghost var row := Area(0, height - 1, width, height);
      for x := 0 to width
        invariant Valid() && next0 <= scene.next
        invariant RefreshedUpTo(tiles[..], width, height, slots0, objects0, next0, instances[..], scene.objects, row, x, height - 1, draw)
      {
        RefreshCell(x, height - 1, draw, row, slots0, objects0, next0);
        RefreshNextColumn(tiles[..], width, height, slots0, objects0, next0, instances[..], scene.objects, row, x, draw);
      }
    }

    /** The second border loop of Resize: updates the instance of every cell of the last column but the last row's. */
    method RefreshLastColumn(draw: (int, int) -> real)
      requires Valid() && (2 <= height ==> 1 <= width)
      modifies instances, scene
      ensures Valid() && old(scene.next) <= scene.next
      ensures RefreshedUpTo(tiles[..], width, height, old(instances[..]), old(scene.objects), old(scene.next),
                            instances[..], scene.objects, Area(width - 1, 0, width, height - 1), width, 0, draw)
    {
      ghost var slots0, objects0, next0 := instances[..], scene.objects, scene.next;
      ghost var column := Area(width - 1, 0, width, height - 1);
      assert forall p, q :: GetTileOf(slots0, width, height, p, q).Some? ==> GetTileOf(slots0, width, height, p, q).value < next0;
      var y := 0;
      while y < height - 1
        invariant Valid() && next0 <= scene.next && 0 <= y
        invariant RefreshedUpTo(tiles[..], width, height, slots0, objects0, next0, instances[..], scene.objects, column, width - 1, y, draw)
      {
        RefreshCell(width - 1, y, draw, column, slots0, objects0, next0);
        y := y + 1;
      }
      RefreshNextColumn(tiles[..], width, height, slots0, objects0, next0, instances[..], scene.objects, column, width - 1, draw);
    }
  }
}
