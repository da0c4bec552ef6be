/**
 * The engine as the grids see it: a factory that instantiates prefabs into
 * the scene, destroys instances and moves them. An instance is known by a
 * handle; handles are never reused, so a destroyed instance whose handle is
 * still stored somewhere is simply no longer live (the engine's "destroyed
 * object compares equal to null").
 */
module Scenes {
  import opened Wrappers
  import opened Brushes

  type Handle = nat

  /**
   * Where an instance sits: cell (x, y) of a grid with the given tile size.
   * The engine's local position is x * tileSize + tileSize / 2 across and
   * y * tileSize + tileSize / 2 deep, a function of these three values.
   */
  datatype Placement = Placement(x: int, y: int, tileSize: real)

  /** A live instance: the prefab and rotation it was made from, and its placement. */
  datatype Instance = Instance(shows: PrefabData, at: Placement)

  /** The live instances once `obj` is destroyed; null or an already destroyed instance changes nothing. */
  function Destroyed(objects: map<Handle, Instance>, obj: Option<Handle>): (r: map<Handle, Instance>)
    ensures obj.Some? ==> obj.value !in r
    ensures forall h :: h in r <==> h in objects && obj != Some(h)
    ensures forall h :: h in r ==> r[h] == objects[h]
  {
    if obj.Some? then objects - {obj.value} else objects
  }

  /** The live instances once the instance `obj`, if live, is moved to `at`. */
  function MovedTo(objects: map<Handle, Instance>, obj: Option<Handle>, at: Placement): (r: map<Handle, Instance>)
    ensures r.Keys == objects.Keys
    ensures forall h :: h in r ==> r[h].shows == objects[h].shows
  {
    if obj.Some? && obj.value in objects then objects[obj.value := objects[obj.value].(at := at)] else objects
  }

  class Scene {
    /** The live instances. */
    var objects: map<Handle, Instance>
    /** The handle the next instantiation returns. */
    var next: Handle

    ghost predicate Valid()
      reads this
    {
      forall h :: h in objects ==> h < next
    }

    constructor ()
      ensures Valid() && objects == map[]
    {
      objects := map[];
      next := 0;
    }

    /** The engine's `instance != null`: false for a destroyed instance. */
    predicate Alive(h: Handle)
      reads this
      ensures Valid() && Alive(h) ==> h < next
    {
      h in objects
    }

    /** Instantiate a prefab, parent it to the grid and place and rotate it. */
    method Instantiate(shows: PrefabData, at: Placement) returns (h: Handle)
      requires Valid()
      modifies this
      ensures Valid() && old(next) <= h < next
      ensures objects == old(objects)[h := Instance(shows, at)]
    {
      h := next;
      objects := objects[h := Instance(shows, at)];
      next := next + 1;
    }

    /** Destroy an instance; destroying null or an already destroyed instance does nothing. */
    method DestroyImmediate(obj: Option<Handle>)
      requires Valid()
      modifies this
      ensures Valid() && next == old(next)
      ensures objects == Destroyed(old(objects), obj)
    {
      if obj.Some? {
        objects := objects - {obj.value};
      }
    }

    /** Set a live instance's local position. */
    method Move(h: Handle, at: Placement)
      requires Valid() && h in objects
      modifies this
      ensures Valid() && next == old(next)
      ensures objects == MovedTo(old(objects), Some(h), at)
    {
      objects := objects[h := objects[h].(at := at)];
    }
  }
}
