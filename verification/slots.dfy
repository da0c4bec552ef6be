/**
 * The relation between a grid's instance slots and the live instances of the
 * scene, shared by both grid components, with the facts that destroying,
 * placing and resizing keep it.
 *
 * A slot may hold the handle of a destroyed instance (an empty cell keeps it
 * after an update); what a cell displays is the instance its slot holds when
 * that instance is live, and nothing otherwise.
 */
module Slots {
  import opened Wrappers
  import opened Cells
  import opened Brushes
  import opened Scenes

  /** The handles the slots hold. */
  function Held(slots: seq<Option<Handle>>): set<Handle>
  {
    if slots == [] then {}
    else Held(slots[..|slots| - 1]) + (if slots[|slots| - 1].Some? then {slots[|slots| - 1].value} else {})
  }

  /** A handle is held exactly when some entry holds it. */
  lemma {:induction false} HeldIff(slots: seq<Option<Handle>>, h: Handle)
    ensures h in Held(slots) <==> exists k :: 0 <= k < |slots| && slots[k] == Some(h)
  {
    if slots != [] {
      var init := slots[..|slots| - 1];
      HeldIff(init, h);
      if exists k :: 0 <= k < |init| && init[k] == Some(h) {
        var k :| 0 <= k < |init| && init[k] == Some(h);
        assert slots[k] == Some(h);
      }
      if exists k :: 0 <= k < |slots| && slots[k] == Some(h) {
        var k :| 0 <= k < |slots| && slots[k] == Some(h);
        if k < |init| {
          assert init[k] == Some(h);
        }
      }
    }
  }

  /** The handle a cell holds is held. */
  lemma HeldByCell(slots: seq<Option<Handle>>, width: int, height: int, x: int, y: int)
    requires GridShape(slots, width, height) && GetTileOf(slots, width, height, x, y).Some?
    ensures GetTileOf(slots, width, height, x, y).value in Held(slots)
  {
    HeldIff(slots, GetTileOf(slots, width, height, x, y).value);
  }

  /** A held handle is held by some cell. */
  lemma CellHolding(slots: seq<Option<Handle>>, width: int, height: int, h: Handle) returns (x: int, y: int)
    requires GridShape(slots, width, height) && h in Held(slots)
    ensures GetTileOf(slots, width, height, x, y) == Some(h)
  {
    HeldIff(slots, h);
    var k :| 0 <= k < |slots| && slots[k] == Some(h);
    CellOfIndex(k, width, height);
    x, y := k % width, k / width;
  }

  /** A grid whose every cell is empty holds no handle. */
  lemma EmptyHoldsNothing(slots: seq<Option<Handle>>, width: int, height: int)
    requires GridShape(slots, width, height)
    requires forall x, y :: InBounds(x, y, width, height) ==> GetTileOf(slots, width, height, x, y) == None
    ensures Held(slots) == {}
  {
    forall h
      ensures h !in Held(slots)
    {
      if h in Held(slots) {
        var x, y := CellHolding(slots, width, height, h);
        assert false;
      }
    }
  }

  /**
   * Handles are issued below `next`; no handle sits in two cells; every live
   * instance is held by some cell (none is leaked).
   */
  ghost predicate Bookkeeping(slots: seq<Option<Handle>>, width: int, height: int, live: set<Handle>, next: nat)
    requires GridShape(slots, width, height)
  {
    && (forall h :: h in live ==> h < next)
    && (forall x, y :: GetTileOf(slots, width, height, x, y).Some? ==> GetTileOf(slots, width, height, x, y).value < next)
    && Unique(slots, width, height)
    && live <= Held(slots)
  }

  /** Every live instance held by a cell sits at the centre of that cell. */
  ghost predicate PlacedIn(slots: seq<Option<Handle>>, width: int, height: int, objects: map<Handle, Instance>, tileSize: real)
    requires GridShape(slots, width, height)
  {
    forall x, y :: GetTileOf(slots, width, height, x, y).Some? && GetTileOf(slots, width, height, x, y).value in objects ==>
      objects[GetTileOf(slots, width, height, x, y).value].at == Placement(x, y, tileSize)
  }

  /** What cell (x, y) displays: the prefab of its instance when that instance is live. */
  function ShownIn(slots: seq<Option<Handle>>, width: int, height: int, objects: map<Handle, Instance>, x: int, y: int)
    : Option<PrefabData>
    requires GridShape(slots, width, height)
  {
    var s := GetTileOf(slots, width, height, x, y);
    if s.Some? && s.value in objects then Some(objects[s.value].shows) else None
  }

  /**
   * Destroying the instance held by cell (x, y) keeps the bookkeeping; the
   * cell then displays nothing and every other cell what it displayed before.
   */
  lemma DestroyKeeps(slots: seq<Option<Handle>>, width: int, height: int, objects: map<Handle, Instance>, next: nat,
                     tileSize: real, x: int, y: int)
    requires GridShape(slots, width, height) && InBounds(x, y, width, height)
    requires Bookkeeping(slots, width, height, objects.Keys, next) && PlacedIn(slots, width, height, objects, tileSize)
    ensures Bookkeeping(slots, width, height, Destroyed(objects, GetTileOf(slots, width, height, x, y)).Keys, next)
    ensures PlacedIn(slots, width, height, Destroyed(objects, GetTileOf(slots, width, height, x, y)), tileSize)
    ensures ShownIn(slots, width, height, Destroyed(objects, GetTileOf(slots, width, height, x, y)), x, y) == None
    ensures forall p, q :: (p, q) != (x, y) ==>
              ShownIn(slots, width, height, Destroyed(objects, GetTileOf(slots, width, height, x, y)), p, q)
              == ShownIn(slots, width, height, objects, p, q)
  {
  }

  /**
   * Storing in the dead slot of cell (x, y) either nothing or a handle just
   * issued for an instance placed at that cell keeps the bookkeeping; the
   * cell then displays the new instance and every other cell what it
   * displayed before.
   */
  lemma PlaceKeeps(slots: seq<Option<Handle>>, width: int, height: int, objects: map<Handle, Instance>, next: nat,
                   tileSize: real, x: int, y: int, inst: Option<Handle>, objects': map<Handle, Instance>, next': nat)
    requires GridShape(slots, width, height) && InBounds(x, y, width, height)
    requires Bookkeeping(slots, width, height, objects.Keys, next) && PlacedIn(slots, width, height, objects, tileSize)
    requires ShownIn(slots, width, height, objects, x, y) == None
    requires next <= next'
    requires inst.None? ==> objects' == objects
    requires inst.Some? ==>
               && next <= inst.value < next' && inst.value in objects'
               && objects' == objects[inst.value := objects'[inst.value]]
               && objects'[inst.value].at == Placement(x, y, tileSize)
    ensures 0 <= TileIndex(x, y, width) < |slots|
    ensures GridShape(slots[TileIndex(x, y, width) := inst], width, height)
    ensures Bookkeeping(slots[TileIndex(x, y, width) := inst], width, height, objects'.Keys, next')
    ensures PlacedIn(slots[TileIndex(x, y, width) := inst], width, height, objects', tileSize)
    ensures ShownIn(slots[TileIndex(x, y, width) := inst], width, height, objects', x, y)
         == if inst.Some? then Some(objects'[inst.value].shows) else None
    ensures forall p, q :: (p, q) != (x, y) ==>
              GetTileOf(slots[TileIndex(x, y, width) := inst], width, height, p, q) == GetTileOf(slots, width, height, p, q) &&
              ShownIn(slots[TileIndex(x, y, width) := inst], width, height, objects', p, q) == ShownIn(slots, width, height, objects, p, q)
  {
    IndexInRange(x, y, width, height);
    var slots' := slots[TileIndex(x, y, width) := inst];
    forall p, q
      ensures GetTileOf(slots', width, height, p, q) == if p == x && q == y then inst else GetTileOf(slots, width, height, p, q)
    {
      GetTileOfUpdate(slots, width, height, x, y, inst, p, q);
    }
    UniqueAfterWrite(slots, width, height, x, y, inst);
    forall h | h in objects'
      ensures h in Held(slots')
    {
      if inst == Some(h) {
        HeldByCell(slots', width, height, x, y);
      } else {
        var p, q := CellHolding(slots, width, height, h);
        HeldByCell(slots', width, height, p, q);
      }
    }
  }

  /**
   * Once every cell the new size cuts off displays nothing, copying the slots
   * into the resized grid keeps the bookkeeping, and every cell of the new
   * size displays what it displayed before (nothing, for cells beyond the
   * old size).
   */
  lemma ResizeKeeps(slots: seq<Option<Handle>>, oldWidth: int, oldHeight: int, width: int, height: int,
                    objects: map<Handle, Instance>, next: nat, tileSize: real)
    requires GridShape(slots, oldWidth, oldHeight) && 0 <= width && 0 <= height
    requires Bookkeeping(slots, oldWidth, oldHeight, objects.Keys, next) && PlacedIn(slots, oldWidth, oldHeight, objects, tileSize)
    requires forall x, y :: !(x < width && y < height) ==> ShownIn(slots, oldWidth, oldHeight, objects, x, y) == None
    ensures Bookkeeping(Resized(slots, oldWidth, oldHeight, width, height), width, height, objects.Keys, next)
    ensures PlacedIn(Resized(slots, oldWidth, oldHeight, width, height), width, height, objects, tileSize)
    ensures forall x, y :: x < width && y < height ==>
              ShownIn(Resized(slots, oldWidth, oldHeight, width, height), width, height, objects, x, y)
              == ShownIn(slots, oldWidth, oldHeight, objects, x, y)
  {
    var r := Resized(slots, oldWidth, oldHeight, width, height);
    forall x, y
      ensures GetTileOf(r, width, height, x, y)
           == if x < oldWidth && y < oldHeight && InBounds(x, y, width, height) then GetTileOf(slots, oldWidth, oldHeight, x, y) else None
    {
      ResizedAt(slots, oldWidth, oldHeight, width, height, x, y);
    }
    ResizedUnique(slots, oldWidth, oldHeight, width, height);
    forall h | h in objects
      ensures h in Held(r)
    {
      var x, y := CellHolding(slots, oldWidth, oldHeight, h);
      assert ShownIn(slots, oldWidth, oldHeight, objects, x, y) != None;
      HeldByCell(r, width, height, x, y);
    }
  }
  /**
   * Part way through re-placing the instances for a new tile size: live
   * instances of the cells before (x, y), column by column, sit at `size`,
   * the others still at `oldSize`.
   */
  ghost predicate PlacedUpTo(slots: seq<Option<Handle>>, width: int, height: int, objects: map<Handle, Instance>,
                             size: real, oldSize: real, x: int, y: int)
    requires GridShape(slots, width, height)
  {
    forall p, q :: GetTileOf(slots, width, height, p, q).Some? && GetTileOf(slots, width, height, p, q).value in objects ==>
      objects[GetTileOf(slots, width, height, p, q).value].at
      == Placement(p, q, if p < x || (p == x && q < y) then size else oldSize)
  }

  /** Moving the instance of cell (x, y) to its place at the new size advances the re-placement by one cell. */
  lemma MoveStep(slots: seq<Option<Handle>>, width: int, height: int, objects: map<Handle, Instance>,
                 size: real, oldSize: real, x: int, y: int)
    requires GridShape(slots, width, height) && Unique(slots, width, height) && InBounds(x, y, width, height)
    requires PlacedUpTo(slots, width, height, objects, size, oldSize, x, y)
    ensures PlacedUpTo(slots, width, height, MovedTo(objects, GetTileOf(slots, width, height, x, y), Placement(x, y, size)),
                       size, oldSize, x, y + 1)
  {
  }

  /** Past the last row of column x, the re-placement continues at the top of column x + 1. */
  lemma NextColumn(slots: seq<Option<Handle>>, width: int, height: int, objects: map<Handle, Instance>,
                   size: real, oldSize: real, x: int)
    requires GridShape(slots, width, height)
    requires PlacedUpTo(slots, width, height, objects, size, oldSize, x, height)
    ensures PlacedUpTo(slots, width, height, objects, size, oldSize, x + 1, 0)
  {
  }

  /** Before the first cell nothing has moved; after the last column everything has. */
  lemma PlacedUpToEnds(slots: seq<Option<Handle>>, width: int, height: int, objects: map<Handle, Instance>,
                       size: real, oldSize: real)
    requires GridShape(slots, width, height)
    ensures PlacedIn(slots, width, height, objects, oldSize) <==> PlacedUpTo(slots, width, height, objects, size, oldSize, 0, 0)
    ensures PlacedUpTo(slots, width, height, objects, size, oldSize, width, 0) <==> PlacedIn(slots, width, height, objects, size)
  {
  }

  /** The instances of `objects'` are those of `objects`, showing the same prefabs, wherever they are placed. */
  ghost predicate SameShows(objects: map<Handle, Instance>, objects': map<Handle, Instance>)
  {
    objects'.Keys == objects.Keys && forall h :: h in objects' ==> objects'[h].shows == objects[h].shows
  }

  /** Moving instances keeps the bookkeeping and what every cell displays. */
  lemma MovedKeeps(slots: seq<Option<Handle>>, width: int, height: int, objects: map<Handle, Instance>,
                   objects': map<Handle, Instance>, next: nat)
    requires GridShape(slots, width, height) && Bookkeeping(slots, width, height, objects.Keys, next)
    requires SameShows(objects, objects')
    ensures Bookkeeping(slots, width, height, objects'.Keys, next)
    ensures forall x, y :: ShownIn(slots, width, height, objects', x, y) == ShownIn(slots, width, height, objects, x, y)
  {
  }
}
