/**
 * The autotile rule engine of a brush: a brush is an ordered list of rules,
 * each a pattern of 8 tri-state neighbour conditions with a rotation and a
 * weighted list of prefab variants. Painting a cell samples its 8 neighbours,
 * picks the first rule whose pattern they satisfy (rule 0 when none does) and
 * draws one of that rule's variants.
 *
 * The methods keep the loops of the original (the neighbour fill, the nested
 * rule scan, the group scan, the two weight walks) and are proved against the
 * functions beside them; the engine's Random.value is the parameter `u`.
 */
module Brushes {
  import opened Wrappers
  import opened Cells

  /** A prefab asset as the engine references it. */
  type PrefabRef = nat

  /** The rotation a rule gives its instances; carried through, never inspected. */
  type Rotation = nat

  /** Stands for the null prefab reference a freshly added variant holds. */
  const NoPrefab: PrefabRef := 0

  /** The rotation a freshly made rule holds: the engine's default rotation value. */
  const DefaultRotation: Rotation := 0

  /** Number of neighbours of a cell, and the length of an authored rule pattern. */
  const NeighborCount := 8

  /**
   * Neighbour position k of a cell lies at offset (DX[k], DY[k]); the layout,
   * with y growing upwards, is
   *     5 6 7
   *     3   4
   *     0 1 2
   */
  const DX: seq<int> := [-1, 0, 1, -1, 1, -1, 0, 1]
  const DY: seq<int> := [-1, -1, -1, 0, 0, 1, 1, 1]

  datatype NeighborState = Undefined | Empty | Filled

  datatype RandomPrefab = RandomPrefab(prefab: PrefabRef, weight: real)

  /** What a rule hands to the grid: the prefab to instantiate and its rotation. */
  datatype PrefabData = PrefabData(prefab: PrefabRef, rotation: Rotation)

  /** The pattern a new rule starts with: every position Undefined. */
  const AllUndefined: seq<NeighborState> :=
    [Undefined, Undefined, Undefined, Undefined, Undefined, Undefined, Undefined, Undefined]

  datatype AutotileRule = AutotileRule(prefabs: seq<RandomPrefab>, rule: seq<NeighborState>, rotation: Rotation)
  {
    /**
     * Weighted draw over the variants: scale the draw u by the total weight,
     * then walk the variants subtracting each weight until the remainder falls
     * below the current variant's weight; when no variant takes it, the last
     * variant is returned.
     */
    method GetRandomPrefab(u: real) returns (p: PrefabRef)
      requires |prefabs| > 0
      ensures p == Pick(this, u)
    {
      var totalWeight := 0.0;
      var index := |prefabs| - 1;
      for i := 0 to |prefabs|
        invariant totalWeight == Sum(prefabs, i)
      {
        totalWeight := totalWeight + prefabs[i].weight;
      }
      var randVal := Scale(totalWeight, u);
      ghost var drawn := randVal;
      var i := 0;
      while i < |prefabs|
        invariant 0 <= i <= |prefabs|
        invariant randVal == drawn - Sum(prefabs, i)
        invariant index == |prefabs| - 1
        invariant FirstHit(prefabs, drawn, i) == VariantIndex(prefabs, drawn)
      {
        if randVal < prefabs[i].weight {
          index := i;
          break;
        }
        randVal := randVal - prefabs[i].weight;
        i := i + 1;
      }
      p := prefabs[index].prefab;
    }
  }

  /**
   * A new rule: one variant holding no prefab yet, with weight 1, a pattern
   * of 8 Undefined positions, and the rotation a rule starts with.
   */
  function DefaultRule(): (r: AutotileRule)
    ensures r.prefabs == [RandomPrefab(NoPrefab, 1.0)] && TotalWeight(r.prefabs) == 1.0
    ensures |r.rule| == NeighborCount && forall j :: 0 <= j < |r.rule| ==> r.rule[j] == Undefined
    ensures r.rotation == DefaultRotation
  {
    var prefabs := [RandomPrefab(NoPrefab, 1.0)];
    assert Sum(prefabs, 0) == 0.0;
    AutotileRule(prefabs, AllUndefined, DefaultRotation)
  }

  datatype Brush = Brush(tiles: seq<AutotileRule>, group: string, interactGroups: seq<string>)
  {
    /** Whether a neighbour painted with `other` counts as occupied for this brush. */
    method CanInteractWith(other: Brush) returns (r: bool)
      ensures r <==> other.group in interactGroups
    {
      for i := 0 to |interactGroups|
        invariant other.group !in interactGroups[..i]
      {
        if interactGroups[i] == other.group {
          return true;
        }
      }
      return false;
    }

    /**
     * Scans the rules in order; within a rule, the positions in order, leaving
     * the rule at the first position that fails and reporting success only on
     * reaching its last position.
     */
    method FindPrefab(neighbors: seq<bool>, u: real) returns (found: bool, prefab: Option<PrefabData>)
      requires WellFormed(this) && |neighbors| == NeighborCount
      ensures match FirstMatch(tiles, neighbors, 0)
              case None => !found && prefab == None
              case Some(i) => found && prefab == Some(PrefabData(Pick(tiles[i], u), tiles[i].rotation))
    {
      prefab := None;
      for i := 0 to |tiles|
        invariant forall k :: 0 <= k < i ==> !RuleMatches(tiles[k].rule, neighbors)
      {
        var rule := tiles[i].rule;
        var j := 0;
        while j < |rule|
          invariant j <= |rule| && (|rule| > 0 ==> j < |rule|)
          invariant forall m :: 0 <= m < j ==> PositionMatches(rule[m], neighbors[m])
        {
          if rule[j] == Undefined || (rule[j] == Filled && neighbors[j]) || (rule[j] == Empty && !neighbors[j]) {
            if j == |rule| - 1 {
              var chosen := tiles[i].GetRandomPrefab(u);
              prefab := Some(PrefabData(chosen, tiles[i].rotation));
              FirstMatchIsFirst(tiles, neighbors, i);
              return true, prefab;
            }
          } else {
            break;
          }
          j := j + 1;
        }
      }
      FirstMatchIsFirst(tiles, neighbors, |tiles|);
      return false, prefab;
    }

    /** Rule lookup for a sampled neighbour vector, falling back to rule 0 when no rule matches. */
    method GetPrefab(neighbors: seq<bool>, u: real) returns (p: Option<PrefabData>)
      requires WellFormed(this) && |neighbors| == NeighborCount
      ensures p == GetPrefabFor(this, neighbors, u)
    {
      var found, prefab := FindPrefab(neighbors, u);
      if !found && |tiles| > 0 {
        var chosen := tiles[0].GetRandomPrefab(u);
        return Some(PrefabData(chosen, tiles[0].rotation));
      }
      return prefab;
    }

    /**
     * Samples the 8 neighbours of (x, y) on a grid whose cells hold `tiles`,
     * rows y-1 to y+1 and within each row columns x-1 to x+1, skipping the
     * centre, then looks the resulting vector up.
     */
    method GetPrefabAt(tiles: seq<Option<Brush>>, width: int, height: int, x: int, y: int, u: real)
      returns (p: Option<PrefabData>)
      requires WellFormed(this) && GridShape(tiles, width, height)
      ensures p == GetPrefabFor(this, Neighbors(this, tiles, width, height, x, y), u)
    {
      var index := 0;
      var neighbors := new bool[NeighborCount];
      for j := y - 1 to y + 2
        invariant index == 3 * (j - y + 1) - (if j > y then 1 else 0)
        invariant forall k :: 0 <= k < index ==>
                    neighbors[k] == Occupied(this, tiles, width, height, x + DX[k], y + DY[k])
      {
        for i := x - 1 to x + 2
          invariant index == 3 * (j - y + 1) + (i - x + 1) - (if j > y || (j == y && i > x) then 1 else 0)
          invariant forall k :: 0 <= k < index ==>
                      neighbors[k] == Occupied(this, tiles, width, height, x + DX[k], y + DY[k])
        {
          if i == x && j == y {
            continue;
          }
          var tile := GetTileOf(tiles, width, height, i, j);
          var interacts := false;
          if tile.Some? {
            interacts := CanInteractWith(tile.value);
          }
          PositionOfOffset(i - x, j - y);
          neighbors[index] := tile.Some? && interacts;
          index := index + 1;
        }
      }
      assert neighbors[..] == Neighbors(this, tiles, width, height, x, y);
      p := GetPrefab(neighbors[..], u);
    }
  }

  /** A new brush: one catch-all rule, group "Default", interacting with group "Default". */
  function DefaultBrush(): (b: Brush)
    ensures WellFormed(b) && |b.tiles| == 1 && CanInteract(b, b)
    ensures b.tiles[0] == DefaultRule()
  {
    Brush([DefaultRule()], "Default", ["Default"])
  }

  /**
   * What the engine can evaluate without failing: every pattern fits the
   * 8-entry neighbour vector and every rule has a variant to draw from.
   */
  predicate WellFormed(b: Brush)
  {
    forall i :: 0 <= i < |b.tiles| ==> |b.tiles[i].rule| <= NeighborCount && |b.tiles[i].prefabs| > 0
  }

  // ----- Neighbour sampling -----

  /** One-directional interaction: `other`'s group is among `b`'s interact groups. */
  predicate CanInteract(b: Brush, other: Brush)
    ensures CanInteract(b, other) <==> exists i :: 0 <= i < |b.interactGroups| && b.interactGroups[i] == other.group
  {
    other.group in b.interactGroups
  }

  /** Cell (x, y) counts as occupied for brush b: it holds a brush b interacts with. */
  predicate Occupied(b: Brush, tiles: seq<Option<Brush>>, width: int, height: int, x: int, y: int)
    requires GridShape(tiles, width, height)
    ensures Occupied(b, tiles, width, height, x, y) <==>
              (InBounds(x, y, width, height) && GetTileOf(tiles, width, height, x, y).Some? &&
               CanInteract(b, GetTileOf(tiles, width, height, x, y).value))
  {
    match GetTileOf(tiles, width, height, x, y)
    case None => false
    case Some(t) => CanInteract(b, t)
  }

  /** The occupancy vector of (x, y) as brush b sees it, in the 5 6 7 / 3 4 / 0 1 2 layout. */
  function Neighbors(b: Brush, tiles: seq<Option<Brush>>, width: int, height: int, x: int, y: int): (nb: seq<bool>)
    requires GridShape(tiles, width, height)
    ensures |nb| == NeighborCount
  {
    seq(NeighborCount, k requires 0 <= k < NeighborCount => Occupied(b, tiles, width, height, x + DX[k], y + DY[k]))
  }

  /** The row-major scan of the 3x3 block, skipping the centre, visits offset (dx, dy) at this position. */
  lemma PositionOfOffset(dx: int, dy: int)
    requires -1 <= dx <= 1 && -1 <= dy <= 1 && (dx, dy) != (0, 0)
    ensures var k := 3 * (dy + 1) + (dx + 1) - (if dy > 0 || (dy == 0 && dx > 0) then 1 else 0);
            0 <= k < NeighborCount && DX[k] == dx && DY[k] == dy
  {
  }

  // ----- Rule matching -----

  /** One rule position against one neighbour. */
  predicate PositionMatches(state: NeighborState, occupied: bool)
    ensures state == Undefined ==> PositionMatches(state, occupied)
    ensures state == Filled ==> (PositionMatches(state, occupied) <==> occupied)
    ensures state == Empty ==> (PositionMatches(state, occupied) <==> !occupied)
  {
    state == Undefined || (state == Filled && occupied) || (state == Empty && !occupied)
  }

  /**
   * A pattern matches when every position does; an empty pattern never
   * matches, because the scan reports success only on reaching its last position.
   */
  predicate RuleMatches(rule: seq<NeighborState>, neighbors: seq<bool>)
    requires |rule| <= |neighbors|
    ensures |rule| == 0 ==> !RuleMatches(rule, neighbors)
    ensures forall j :: 0 <= j < |rule| && !PositionMatches(rule[j], neighbors[j]) ==> !RuleMatches(rule, neighbors)
    ensures 0 < |rule| && (forall j :: 0 <= j < |rule| ==> rule[j] == Undefined) ==> RuleMatches(rule, neighbors)
  {
    |rule| > 0 && forall j :: 0 <= j < |rule| ==> PositionMatches(rule[j], neighbors[j])
  }

  predicate Fits(rules: seq<AutotileRule>, neighbors: seq<bool>)
  {
    forall i :: 0 <= i < |rules| ==> |rules[i].rule| <= |neighbors|
  }

  /** The first rule at or after `from` whose pattern matches, if any. */
  function FirstMatch(rules: seq<AutotileRule>, neighbors: seq<bool>, from: nat): (r: Option<nat>)
    requires Fits(rules, neighbors) && from <= |rules|
    ensures r.Some? ==> from <= r.value < |rules| && RuleMatches(rules[r.value].rule, neighbors)
    ensures r.Some? ==> forall k :: from <= k < r.value ==> !RuleMatches(rules[k].rule, neighbors)
    ensures r.None? ==> forall k :: from <= k < |rules| ==> !RuleMatches(rules[k].rule, neighbors)
    decreases |rules| - from
  {
    if from == |rules| then None
    else if RuleMatches(rules[from].rule, neighbors) then Some(from)
    else FirstMatch(rules, neighbors, from + 1)
  }

  /** Rules before `i` fail, so the search from 0 gives what the search from i gives. */
  lemma {:induction false} FirstMatchIsFirst(rules: seq<AutotileRule>, neighbors: seq<bool>, i: nat)
    requires Fits(rules, neighbors) && i <= |rules|
    requires forall k :: 0 <= k < i ==> !RuleMatches(rules[k].rule, neighbors)
    ensures FirstMatch(rules, neighbors, 0) == FirstMatch(rules, neighbors, i)
  {
    if i > 0 {
      FirstMatchIsFirst(rules, neighbors, i - 1);
    }
  }

  /** The rule that decides a cell: the first matching one, else rule 0; none for a brush without rules. */
  function ChosenRule(b: Brush, neighbors: seq<bool>): (r: Option<nat>)
    requires WellFormed(b) && |neighbors| == NeighborCount
    ensures r.None? <==> |b.tiles| == 0
    ensures r.Some? ==> r.value < |b.tiles|
    ensures r.Some? ==> forall k :: 0 <= k < r.value ==> !RuleMatches(b.tiles[k].rule, neighbors)
    ensures r.Some? && r.value > 0 ==> RuleMatches(b.tiles[r.value].rule, neighbors)
    ensures r == Some(0) && !RuleMatches(b.tiles[0].rule, neighbors) ==>
              forall k :: 0 <= k < |b.tiles| ==> !RuleMatches(b.tiles[k].rule, neighbors)
  {
    match FirstMatch(b.tiles, neighbors, 0)
    case Some(i) => Some(i)
    case None => if |b.tiles| > 0 then Some(0) else None
  }

  /** What brush b gives for a neighbour vector and draw u. */
  function GetPrefabFor(b: Brush, neighbors: seq<bool>, u: real): (r: Option<PrefabData>)
    requires WellFormed(b) && |neighbors| == NeighborCount
    ensures r.None? <==> |b.tiles| == 0
    ensures r.Some? ==> var i := ChosenRule(b, neighbors).value;
                        r.value.prefab in Variants(b.tiles[i]) && r.value.rotation == b.tiles[i].rotation
  {
    match ChosenRule(b, neighbors)
    case None => None
    case Some(i) => Some(PrefabData(Pick(b.tiles[i], u), b.tiles[i].rotation))
  }

  /** What brush b gives when painted at (x, y) of a grid. */
  function GetPrefabOnGrid(b: Brush, tiles: seq<Option<Brush>>, width: int, height: int, x: int, y: int, u: real)
    : Option<PrefabData>
    requires WellFormed(b) && GridShape(tiles, width, height)
  {
    GetPrefabFor(b, Neighbors(b, tiles, width, height, x, y), u)
  }

  // ----- Weighted variant choice -----

  /** Sum of the first n weights. */
  function Sum(prefabs: seq<RandomPrefab>, n: nat): real
    requires n <= |prefabs|
  {
    if n == 0 then 0.0 else Sum(prefabs, n - 1) + prefabs[n - 1].weight
  }

  function TotalWeight(prefabs: seq<RandomPrefab>): real
  {
    Sum(prefabs, |prefabs|)
  }

  /** The draw the weight walk starts from: the total weight times the engine's uniform value u. */
  function Scale(totalWeight: real, u: real): real
  {
    totalWeight * u
  }

  predicate NonNegative(prefabs: seq<RandomPrefab>)
  {
    forall i :: 0 <= i < |prefabs| ==> prefabs[i].weight >= 0.0
  }

  /** The walk stops at variant i: what is left of randVal after the earlier weights is below weight i. */
  predicate Hits(prefabs: seq<RandomPrefab>, randVal: real, i: nat)
    requires i < |prefabs|
  {
    randVal - Sum(prefabs, i) < prefabs[i].weight
  }

  /** The first variant at or after `from` the walk stops at, else the last variant. */
  function FirstHit(prefabs: seq<RandomPrefab>, randVal: real, from: nat): (i: nat)
    requires 0 < |prefabs| && from <= |prefabs|
    ensures i < |prefabs|
    ensures forall k :: from <= k < i ==> !Hits(prefabs, randVal, k)
    ensures (from <= i && Hits(prefabs, randVal, i))
         || (i == |prefabs| - 1 && forall k :: from <= k < |prefabs| ==> !Hits(prefabs, randVal, k))
    decreases |prefabs| - from
  {
    if from == |prefabs| then |prefabs| - 1
    else if Hits(prefabs, randVal, from) then from
    else FirstHit(prefabs, randVal, from + 1)
  }

  /** Index of the variant chosen for the scaled draw randVal. */
  function VariantIndex(prefabs: seq<RandomPrefab>, randVal: real): (i: nat)
    requires 0 < |prefabs|
    ensures i < |prefabs|
    ensures forall k :: 0 <= k < i ==> !Hits(prefabs, randVal, k)
    ensures Hits(prefabs, randVal, i) || (i == |prefabs| - 1 && !Hits(prefabs, randVal, i))
  {
    FirstHit(prefabs, randVal, 0)
  }

  /** The prefab a rule draws for u, the engine's uniform value. */
  function Pick(rule: AutotileRule, u: real): (p: PrefabRef)
    requires 0 < |rule.prefabs|
    ensures p in Variants(rule)
  {
    var i := VariantIndex(rule.prefabs, Scale(TotalWeight(rule.prefabs), u));
    assert rule.prefabs[i].prefab in Variants(rule);
    rule.prefabs[i].prefab
  }

  /** The prefabs a rule can place. */
  function Variants(rule: AutotileRule): set<PrefabRef>
  {
    set i | 0 <= i < |rule.prefabs| :: rule.prefabs[i].prefab
  }

  /**
   * What a cell painted with b may show whatever the draw: nothing when b has
   * no rules, otherwise one of the chosen rule's variants with that rule's rotation.
   */
  ghost predicate Admissible(b: Brush, neighbors: seq<bool>, shown: Option<PrefabData>)
    requires WellFormed(b) && |neighbors| == NeighborCount
  {
    match ChosenRule(b, neighbors)
    case None => shown == None
    case Some(i) => shown.Some? && shown.value.rotation == b.tiles[i].rotation
                    && shown.value.prefab in Variants(b.tiles[i])
  }

  // ----- Properties -----

  /** The layout of the occupancy vector, position by position. */
  lemma NeighborLayout(b: Brush, tiles: seq<Option<Brush>>, width: int, height: int, x: int, y: int)
    requires GridShape(tiles, width, height)
    ensures var nb := Neighbors(b, tiles, width, height, x, y);
            && nb[0] == Occupied(b, tiles, width, height, x - 1, y - 1)
            && nb[1] == Occupied(b, tiles, width, height, x, y - 1)
            && nb[2] == Occupied(b, tiles, width, height, x + 1, y - 1)
            && nb[3] == Occupied(b, tiles, width, height, x - 1, y)
            && nb[4] == Occupied(b, tiles, width, height, x + 1, y)
            && nb[5] == Occupied(b, tiles, width, height, x - 1, y + 1)
            && nb[6] == Occupied(b, tiles, width, height, x, y + 1)
            && nb[7] == Occupied(b, tiles, width, height, x + 1, y + 1)
  {
  }

  /** The occupancy vector of (x, y) depends only on the 8 cells around it. */
  lemma NeighborsAreLocal(b: Brush, tiles1: seq<Option<Brush>>, width1: int, height1: int,
                          tiles2: seq<Option<Brush>>, width2: int, height2: int, x: int, y: int)
    requires GridShape(tiles1, width1, height1) && GridShape(tiles2, width2, height2)
    requires forall p, q :: x - 1 <= p <= x + 1 && y - 1 <= q <= y + 1 && (p, q) != (x, y) ==>
               GetTileOf(tiles1, width1, height1, p, q) == GetTileOf(tiles2, width2, height2, p, q)
    ensures Neighbors(b, tiles1, width1, height1, x, y) == Neighbors(b, tiles2, width2, height2, x, y)
  {
    forall k | 0 <= k < NeighborCount
      ensures Neighbors(b, tiles1, width1, height1, x, y)[k] == Neighbors(b, tiles2, width2, height2, x, y)[k]
    {
      assert -1 <= DX[k] <= 1 && -1 <= DY[k] <= 1 && (DX[k], DY[k]) != (0, 0);
    }
  }

  /** A cell outside the grid is never occupied, whatever the brushes. */
  lemma OutsideIsUnoccupied(b: Brush, tiles: seq<Option<Brush>>, width: int, height: int, x: int, y: int)
    requires GridShape(tiles, width, height) && !InBounds(x, y, width, height)
    ensures !Occupied(b, tiles, width, height, x, y)
  {
  }

  /** Interaction is not symmetric: a brush may see another that does not see it. */
  lemma InteractionIsDirectional()
    ensures exists a: Brush, c: Brush :: CanInteract(a, c) && !CanInteract(c, a)
  {
    var path := Brush([], "Path", ["Path", "Grass"]);
    var grass := Brush([], "Grass", ["Grass"]);
    assert CanInteract(path, grass);
    assert !CanInteract(grass, path) by {
      assert grass.interactGroups == ["Grass"];
      assert "Path" != "Grass" by { assert "Path"[0] != "Grass"[0]; }
    }
  }

  /** A non-empty pattern of Undefined positions matches every neighbour vector. */
  lemma AllUndefinedMatches(rule: seq<NeighborState>, neighbors: seq<bool>)
    requires 0 < |rule| <= |neighbors|
    requires forall j :: 0 <= j < |rule| ==> rule[j] == Undefined
    ensures RuleMatches(rule, neighbors)
  {
  }

  /** A zero-length pattern matches no neighbour vector. */
  lemma EmptyPatternNeverMatches(neighbors: seq<bool>)
    ensures !RuleMatches([], neighbors)
  {
  }

  /**
   * What a brush gives: nothing exactly when it has no rules; otherwise the
   * variant and rotation of the first rule whose pattern matches, or of rule 0
   * when none matches.
   */
  lemma GetPrefabChoosesFirstMatch(b: Brush, neighbors: seq<bool>, u: real)
    requires WellFormed(b) && |neighbors| == NeighborCount
    ensures GetPrefabFor(b, neighbors, u).None? <==> |b.tiles| == 0
    ensures forall i :: 0 <= i < |b.tiles| && RuleMatches(b.tiles[i].rule, neighbors)
                        && (forall k :: 0 <= k < i ==> !RuleMatches(b.tiles[k].rule, neighbors))
              ==> GetPrefabFor(b, neighbors, u) == Some(PrefabData(Pick(b.tiles[i], u), b.tiles[i].rotation))
    ensures (0 < |b.tiles| && forall k :: 0 <= k < |b.tiles| ==> !RuleMatches(b.tiles[k].rule, neighbors))
            ==> GetPrefabFor(b, neighbors, u) == Some(PrefabData(Pick(b.tiles[0], u), b.tiles[0].rotation))
  {
    forall i | 0 <= i < |b.tiles| && RuleMatches(b.tiles[i].rule, neighbors)
               && (forall k :: 0 <= k < i ==> !RuleMatches(b.tiles[k].rule, neighbors))
      ensures FirstMatch(b.tiles, neighbors, 0) == Some(i)
    {
      FirstMatchIsFirst(b.tiles, neighbors, i);
    }
  }

  /** Whatever the draw, a brush shows one of its chosen rule's variants, with that rule's rotation. */
  lemma GetPrefabIsAdmissible(b: Brush, neighbors: seq<bool>, u: real)
    requires WellFormed(b) && |neighbors| == NeighborCount
    ensures Admissible(b, neighbors, GetPrefabFor(b, neighbors, u))
  {
    match ChosenRule(b, neighbors)
    case None =>
    case Some(i) =>
      var rule := b.tiles[i];
      var k := VariantIndex(rule.prefabs, Scale(TotalWeight(rule.prefabs), u));
      assert rule.prefabs[k].prefab in Variants(rule);
  }

  /** Example: a brush whose one rule is the catch-all with a single variant shows that variant, with the rule's rotation, at every cell. */
  lemma CatchAllShowsItsVariant(b: Brush, v: PrefabRef, weight: real, rotation: Rotation, neighbors: seq<bool>, u: real)
    requires b.tiles == [AutotileRule([RandomPrefab(v, weight)], AllUndefined, rotation)]
    requires |neighbors| == NeighborCount
    ensures WellFormed(b) && GetPrefabFor(b, neighbors, u) == Some(PrefabData(v, rotation))
  {
    AllUndefinedMatches(AllUndefined, neighbors);
  }

  /** Example: when cell (1, 0) holds a brush that interacts with itself, cell (0, 0) painted with it sees position 4 (east) occupied. */
  lemma EastNeighborSeen(b: Brush, tiles: seq<Option<Brush>>, width: int, height: int)
    requires GridShape(tiles, width, height)
    requires GetTileOf(tiles, width, height, 1, 0) == Some(b) && CanInteract(b, b)
    ensures Neighbors(b, tiles, width, height, 0, 0)[4]
  {
  }

  /** If the walk passes variants 0..n-1, the draw is at least their total weight. */
  lemma {:induction false} PassedWeights(prefabs: seq<RandomPrefab>, randVal: real, n: nat)
    requires n <= |prefabs| && 0.0 <= randVal
    requires forall k :: 0 <= k < n ==> !Hits(prefabs, randVal, k)
    ensures Sum(prefabs, n) <= randVal
  {
    if n > 0 {
      PassedWeights(prefabs, randVal, n - 1);
      assert !Hits(prefabs, randVal, n - 1);
    }
  }

  /** With non-negative weights, partial sums only grow. */
  lemma {:induction false} SumMonotone(prefabs: seq<RandomPrefab>, m: nat, n: nat)
    requires NonNegative(prefabs) && m <= n <= |prefabs|
    ensures Sum(prefabs, m) <= Sum(prefabs, n)
  {
    if m < n {
      SumMonotone(prefabs, m, n - 1);
    }
  }

  /** A draw in [0, total) stops the walk at a variant, and that variant has positive weight. */
  lemma ChosenVariantHasWeight(prefabs: seq<RandomPrefab>, randVal: real)
    requires 0 < |prefabs| && 0.0 <= randVal < TotalWeight(prefabs)
    ensures Hits(prefabs, randVal, VariantIndex(prefabs, randVal))
    ensures prefabs[VariantIndex(prefabs, randVal)].weight > 0.0
  {
    var i := VariantIndex(prefabs, randVal);
    if !Hits(prefabs, randVal, i) {
      PassedWeights(prefabs, randVal, |prefabs|);
      assert false;
    }
    PassedWeights(prefabs, randVal, i);
  }

  /**
   * With non-negative weights and a draw in [0, total), variant i is chosen
   * exactly when the draw falls in [Sum(i), Sum(i + 1)), an interval as long
   * as its weight: a uniform draw chooses it with probability weight / total.
   */
  lemma VariantIntervals(prefabs: seq<RandomPrefab>, randVal: real, i: nat)
    requires NonNegative(prefabs) && 0.0 <= randVal < TotalWeight(prefabs) && i < |prefabs|
    ensures VariantIndex(prefabs, randVal) == i <==> Sum(prefabs, i) <= randVal < Sum(prefabs, i + 1)
  {
    var j := VariantIndex(prefabs, randVal);
    ChosenVariantHasWeight(prefabs, randVal);
    PassedWeights(prefabs, randVal, j);
    if j < i {
      SumMonotone(prefabs, j + 1, i);
    } else if j > i {
      SumMonotone(prefabs, i + 1, j);
    }
  }

  /**
   * With non-negative weights, a draw at or above the total weight (in
   * particular any draw when the total is 0) falls through to the last variant.
   */
  lemma DrawPastTotalTakesLast(prefabs: seq<RandomPrefab>, randVal: real)
    requires 0 < |prefabs| && NonNegative(prefabs) && randVal >= TotalWeight(prefabs)
    ensures VariantIndex(prefabs, randVal) == |prefabs| - 1
    ensures forall k :: 0 <= k < |prefabs| ==> !Hits(prefabs, randVal, k)
  {
    forall k | 0 <= k < |prefabs|
      ensures !Hits(prefabs, randVal, k)
    {
      SumMonotone(prefabs, k + 1, |prefabs|);
    }
  }

  /** Weights [1, 3]: the first variant is chosen exactly when u < 1/4. */
  lemma OneInFour(a: PrefabRef, c: PrefabRef, u: real)
    requires 0.0 <= u <= 1.0
    ensures var prefabs := [RandomPrefab(a, 1.0), RandomPrefab(c, 3.0)];
            VariantIndex(prefabs, Scale(TotalWeight(prefabs), u)) == 0 <==> u < 0.25
  {
    var prefabs := [RandomPrefab(a, 1.0), RandomPrefab(c, 3.0)];
    assert Sum(prefabs, 1) == 1.0;
    assert TotalWeight(prefabs) == Sum(prefabs, 2) == 4.0;
    var randVal := 4.0 * u;
    assert Hits(prefabs, randVal, 0) <==> u < 0.25;
    assert FirstHit(prefabs, randVal, 1) == 1;
  }
}
