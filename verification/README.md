# AutoTiles autotiling core in Dafny

This project models the core of AutoTiles, a Unity tool that paints tile
grids. Each painted cell gets a placed prefab instance, chosen by the cell's
neighbourhood.

- A **brush** (`Brush`) is an ordered list of autotile rules. Each rule has
  an 8-position pattern of neighbour conditions (Undefined, Empty, Filled), a
  rotation, and a weighted list of prefab variants.
- For a cell, the brush samples its 8 neighbours in the layout
  `5 6 7 / 3 . 4 / 0 1 2`. A neighbour counts as occupied when it holds a
  brush whose group is one of this brush's interact groups. The brush then
  takes the first rule whose pattern matches, or rule 0 when none does, and
  draws one of that rule's variants by a weighted walk.
- A **grid component** (`Tilemap`, and the near-copy `Tilemap3D` for 3D
  brushes) keeps two parallel row-major arrays: the brush painted at each
  cell, and the scene instance that displays it. Their operations are
  bounds-checked lookups, painting (which refreshes the 3x3 block around the
  cell), rebuilding, clearing, changing the tile size and resizing.

## Modules

- `Wrappers` holds `Option`, which stands for C#'s nullable references.
- `Cells` holds row-major addressing, the bounds-checked lookup, and what a
  resize does to a flat array.
- `Brushes` models `Brush.cs`. Its methods keep the original loops and are
  proved against specification functions (`Neighbors`, `FirstMatch`,
  `ChosenRule`, `GetPrefabFor`, `VariantIndex`, `Pick`).
- `Scenes` models the engine as the grids use it: Instantiate,
  DestroyImmediate and setting a local position, over a map of live handles.
  Handles are never reused, so a destroyed instance is one whose handle is
  no longer live.
- `Slots` relates a grid's instance array to the live instances. Its lemmas
  show that destroying, placing, resizing and moving keep that relation.
- `Tilemaps` models `Tilemap.cs` as a class over two arrays.
  - The invariant `Valid` says:
    - the arrays have the grid's shape;
    - every painted brush can be evaluated;
    - every live instance is held by exactly one cell;
    - each live instance sits at the centre of its cell.
  - `Consistent` says every cell shows a variant and rotation that its
    brush's chosen rule allows for the cell's current neighbours.
  - Painting, rebuilding, clearing, resizing and changing the tile size keep
    `Consistent`.
- `Tilemaps3D` models `Tilemap3D.cs` in the same way. `Brush3D`'s prefab
  choice is not part of this model, so it is a function `getPrefab` given to
  the component when it is created.

## Model

| member | source | states |
|---|---|---|
| Cells.GetTileOf | Assets/Scripts/Tilemap.cs:27-35 | null outside [0, width) x [0, height); inside, the entry at index x + y * width, which lies within the array |
| Cells.TileIndex | Assets/Scripts/Tilemap.cs:63-66 | cell (x, y) of a grid `width` cells wide, with x in [0, width), sits among the `width` consecutive indices of row y, from y * width up to (y + 1) * width |
| Cells.IndexInRange | Assets/Scripts/Tilemap.cs:63-66 | every in-bounds cell's row-major index x + y * width lies in [0, width * height) |
| Cells.CellOfIndex | Assets/Scripts/Tilemap.cs:63-66 | every index of a width x height array is the row-major index of the in-bounds cell (k % width, k / width) |
| Cells.IndexInjective | Assets/Scripts/Tilemap.cs:63-66 | two in-bounds cells with the same row-major index are the same cell |
| Cells.IndexOfCell | Assets/Scripts/Tilemap.cs:63-66 | the row-major index of an in-bounds cell gives back its x (remainder) and y (quotient) |
| Cells.Resized | Assets/Scripts/Tilemap.cs:162-176 | the array a resize builds has length width * height |
| Cells.ResizedAt | Assets/Scripts/Tilemap.cs:162-176 | after a resize, each cell of the overlap [0, min(oldW, w)) x [0, min(oldH, h)) holds its old entry, and every other cell is null |
| Cells.ResizeRoundTrip | Assets/Scripts/Tilemap.cs:144-182 | resizing to w x h and back to the old size keeps every cell of the common overlap and leaves the cut-off cells null |
| Cells.GetTileOfUpdate | Assets/Scripts/Tilemap.cs:49 | writing entry TileIndex(cx, cy) changes the lookup of only the cells with that index: just (cx, cy) when it is in bounds, or the cell its unchecked index lands on when it is not |
| Cells.ResizedUnique | Assets/Scripts/Tilemap.cs:162-176 | copying the overlap never puts one value into two cells |
| Cells.UniqueAfterWrite | Assets/Scripts/Tilemap.cs:97 | storing a value that no other cell holds keeps every value in at most one cell |
| Brushes.AutotileRule.GetRandomPrefab | Assets/Scripts/Brush.cs:136-160 | the two loops (total weight, then the walk that subtracts each weight) return exactly the variant `Pick` specifies for the draw u |
| Brushes.DefaultRule | Assets/Scripts/Brush.cs:124-134 | a new rule has exactly one variant, which holds no prefab and has weight 1, a pattern of 8 Undefined positions, and the default rotation (the constructor never sets it) |
| Brushes.DefaultBrush | Assets/Scripts/Brush.cs:11-18 | a new brush has one rule, the default rule; it can be evaluated, and with group "Default" and interact groups {"Default"} it sees itself as a neighbour |
| Brushes.Brush.CanInteractWith | Assets/Scripts/Brush.cs:104-112 | the loop over the interact groups returns true exactly when the other brush's group is one of them |
| Brushes.Brush.FindPrefab | Assets/Scripts/Brush.cs:73-102 | the nested scan, which leaves a rule at its first failing position, reports the first matching rule in list order with its variant and rotation, and reports not found (with a null prefab) when no rule matches |
| Brushes.Brush.GetPrefab | Assets/Scripts/Brush.cs:41-66 | returns the first matching rule's choice; if none matches and there are rules, rule 0's variant and rotation; if there are no rules, null |
| Brushes.Brush.GetPrefabAt | Assets/Scripts/Brush.cs:20-39 | the fill loop over rows y-1..y+1 and columns x-1..x+1, skipping the centre, builds exactly the occupancy vector `Neighbors`, which is then looked up |
| Brushes.CanInteract | Assets/Scripts/Brush.cs:108-111 | b interacts with another brush exactly when some entry of b's interact groups equals that brush's group |
| Brushes.Occupied | Assets/Scripts/Brush.cs:31-32 | a neighbour counts as occupied exactly when it is inside the grid, holds a brush, and b interacts with that brush |
| Brushes.Neighbors | Assets/Scripts/Brush.cs:22-36 | the occupancy vector has exactly 8 entries |
| Brushes.PositionOfOffset | Assets/Scripts/Brush.cs:25-34 | the scan's running index reaches offset (dx, dy) at the position the layout 5 6 7 / 3 4 / 0 1 2 gives it |
| Brushes.NeighborLayout | Assets/Scripts/Brush.cs:68-71 | entry k of the vector is the occupancy of the neighbour the layout comment places at k: 0 south-west, 1 south, 2 south-east, 3 west, 4 east, 5 north-west, 6 north, 7 north-east |
| Brushes.NeighborsAreLocal | Assets/Scripts/Brush.cs:25-36 | the occupancy vector of a cell depends only on the 8 cells around it |
| Brushes.OutsideIsUnoccupied | Assets/Scripts/Brush.cs:31-32 | a cell outside the grid is never occupied, because GetTile returns null there |
| Brushes.InteractionIsDirectional | Assets/Scripts/Brush.cs:104-112 | there are brushes a and c such that a interacts with c but c does not interact with a |
| Brushes.FirstMatch | Assets/Scripts/Brush.cs:77-101 | the rule found matches, and every earlier rule fails; when none is found, every rule fails |
| Brushes.FirstMatchIsFirst | Assets/Scripts/Brush.cs:77-101 | when every rule before i fails, the search from rule 0 gives what the search from rule i gives |
| Brushes.PositionMatches | Assets/Scripts/Brush.cs:81-83 | an Undefined position accepts any neighbour, a Filled one exactly an occupied neighbour, an Empty one exactly an unoccupied neighbour |
| Brushes.RuleMatches | Assets/Scripts/Brush.cs:79-91 | a zero-length pattern never matches; one failing position rejects the whole pattern; a non-empty all-Undefined pattern always matches |
| Brushes.ChosenRule | Assets/Scripts/Brush.cs:41-66 | there is no rule exactly when the brush has none; otherwise the chosen index is a rule of the brush, every earlier rule fails, a chosen rule other than 0 matches, and rule 0 chosen without matching means no rule matches |
| Brushes.GetPrefabFor | Assets/Scripts/Brush.cs:41-66 | null exactly for a brush without rules; otherwise the prefab is one of the chosen rule's variants and the rotation is that rule's rotation |
| Brushes.AllUndefinedMatches | Assets/Scripts/Brush.cs:79-91 | a non-empty pattern of only Undefined positions matches every neighbour vector |
| Brushes.EmptyPatternNeverMatches | Assets/Scripts/Brush.cs:79-91 | a zero-length pattern matches nothing, since success is reported only at its last position |
| Brushes.GetPrefabChoosesFirstMatch | Assets/Scripts/Brush.cs:41-101 | the result is null exactly when the brush has no rules. A matching rule i before which every rule fails is the one used. When no rule matches, rule 0 is used |
| Brushes.GetPrefabIsAdmissible | Assets/Scripts/Brush.cs:41-66 | whatever the draw, the result is one of the chosen rule's variants with that rule's rotation |
| Brushes.CatchAllShowsItsVariant | Assets/Scripts/Brush.cs:128-160 | a brush whose one rule is all Undefined with a single variant shows that variant and rotation everywhere |
| Brushes.EastNeighborSeen | Assets/Scripts/Brush.cs:25-36 | a brush painted at (1, 0) that interacts with its own group makes position 4 (east) of cell (0, 0) occupied |
| Brushes.FirstHit | Assets/Scripts/Brush.cs:148-157 | the walk stops at the first variant whose weight exceeds what is left of the draw; when none does, the index stays at the last variant |
| Brushes.VariantIndex | Assets/Scripts/Brush.cs:136-160 | the index is a variant of the rule; the walk passes every earlier variant; it stops at this one, or this is the last variant and the walk passed it too |
| Brushes.Pick | Assets/Scripts/Brush.cs:136-160 | the prefab drawn, for any value of the engine's random number, is one of the rule's variants |
| Brushes.PassedWeights | Assets/Scripts/Brush.cs:148-157 | if the walk passes variants 0..n-1, the draw is at least the sum of their weights |
| Brushes.SumMonotone | Assets/Scripts/Brush.cs:141-144 | with non-negative weights, the running total only grows |
| Brushes.ChosenVariantHasWeight | Assets/Scripts/Brush.cs:139-157 | a draw in [0, total) stops the walk at some variant, and that variant has positive weight |
| Brushes.VariantIntervals | Assets/Scripts/Brush.cs:146-157 | with non-negative weights and a draw in [0, total), variant i is chosen if and only if the draw falls in [Sum(i), Sum(i + 1)), an interval as long as its weight |
| Brushes.DrawPastTotalTakesLast | Assets/Scripts/Brush.cs:139-157 | with non-negative weights, a draw at or above the total weight (for example any draw when the total is 0) passes every variant and returns the last one |
| Brushes.OneInFour | Assets/Scripts/Brush.cs:136-160 | with weights 1 and 3 and any engine value in [0, 1], both ends included, the first variant is chosen exactly when the value is below 1/4 |
| Scenes.Destroyed | Assets/Scripts/Tilemap.cs:94 | destroying removes exactly that instance from the live set and changes no other instance; destroying null changes nothing |
| Scenes.MovedTo | Assets/Scripts/Tilemap.cs:138 | moving keeps the same live instances, each showing the same prefab |
| Scenes.Scene.Alive | Assets/Scripts/Tilemap.cs:136 | the engine's non-null test on an instance; in a consistent scene every live handle is below the next handle to be issued |
| Scenes.Scene.Instantiate | Assets/Scripts/Tilemap.cs:80-84 | returns a handle never issued before, now live with the given prefab, rotation and placement; nothing else changes |
| Scenes.Scene.DestroyImmediate | Assets/Scripts/Tilemap.cs:94 | the live instances become `Destroyed(old, obj)`, and no handle is issued |
| Scenes.Scene.Move | Assets/Scripts/Tilemap.cs:138 | only the given live instance changes, and only its placement |
| Slots.EmptyHoldsNothing | Assets/Scripts/Tilemap.cs:101-114 | a grid whose every slot is null holds no handle |
| Slots.DestroyKeeps | Assets/Scripts/Tilemap.cs:94 | destroying a cell's instance keeps the bookkeeping. That cell then shows nothing, and every other cell shows what it did |
| Slots.PlaceKeeps | Assets/Scripts/Tilemap.cs:95-98 | storing null or a new instance placed at the cell into a cell that shows nothing keeps the bookkeeping. That cell then shows the new instance, and every other cell holds and shows what it did |
| Slots.ResizeKeeps | Assets/Scripts/Tilemap.cs:162-179 | once the cut-off cells show nothing, copying the slots into the resized array keeps the bookkeeping, and every remaining cell shows what it did |
| Slots.MoveStep | Assets/Scripts/Tilemap.cs:135-139 | moving the instance of cell (x, y) to its new placement advances the re-placement by one cell |
| Slots.NextColumn | Assets/Scripts/Tilemap.cs:131-141 | the re-placement goes on from the end of column x to the start of column x + 1 |
| Slots.PlacedUpToEnds | Assets/Scripts/Tilemap.cs:127-142 | before the loops every instance sits at the old size; after the last column every instance sits at the new size |
| Slots.MovedKeeps | Assets/Scripts/Tilemap.cs:127-142 | moving instances keeps the bookkeeping and what every cell shows |
| Tilemaps.ExpectedIsConsistent | Assets/Scripts/Tilemap.cs:91-99 | an updated instance shows something its cell's brush admits for the cell's neighbourhood |
| Tilemaps.PaintedWellFormed | Assets/Scripts/Tilemap.cs:49 | painting a brush that can be evaluated (or null) keeps every brush on the grid evaluable |
| Tilemaps.PaintIsLocal | Assets/Scripts/Tilemap.cs:47-61 | painting an in-bounds cell (cx, cy) cannot change what a cell outside its 3x3 block may show, so refreshing only that block is enough |
| Tilemaps.PaintKeepsConsistent | Assets/Scripts/Tilemap.cs:47-61 | painting an in-bounds cell of a consistent grid and refreshing its 3x3 block leaves a consistent grid |
| Tilemaps.ResizedWellFormed | Assets/Scripts/Tilemap.cs:162-179 | resizing keeps every brush on the grid evaluable |
| Tilemaps.ResizeKeepsInterior | Assets/Scripts/Tilemap.cs:184-192 | after a resize, a cell off the new last row and last column sees the same brush and neighbours as before. That is why only the border is refreshed |
| Tilemaps.RefreshStep | Assets/Scripts/Tilemap.cs:51-60 | updating the next cell of a refresh loop (or skipping it when it is outside the grid) advances the refresh by one cell |
| Tilemaps.RefreshNextColumn | Assets/Scripts/Tilemap.cs:51-60 | the refresh goes on from the top of column i to the bottom of column i + 1 |
| Tilemaps.RefreshComposed | Assets/Scripts/Tilemap.cs:184-192 | two refresh loops in a row amount to one refresh over the union of their cells |
| Tilemaps.ResizeKeepsConsistent | Assets/Scripts/Tilemap.cs:144-193 | resizing a consistent grid and refreshing the new last row and last column leaves a consistent grid |
| Tilemaps.ResizeOutcome | Assets/Scripts/Tilemap.cs:144-193 | after a resize, border cells show what their brushes give and their old instances are destroyed. Other cells of the new size keep their slot and what they show. Cut-off instances are destroyed. A consistent grid stays consistent |
| Tilemaps.Tilemap.constructor | Assets/Scripts/Tilemap.cs:8-21 | a new component is 10 x 10 with tile size 1, every cell empty, and consistent |
| Tilemaps.Tilemap.GetTile | Assets/Scripts/Tilemap.cs:27-35 | returns the brush at (x, y), which is null outside the grid |
| Tilemaps.Tilemap.GetTileInstance | Assets/Scripts/Tilemap.cs:37-45 | returns the instance slot at (x, y), which is null outside the grid |
| Tilemaps.Tilemap.CreateInstance | Assets/Scripts/Tilemap.cs:73-89 | null for no brush or for a brush that gives nothing. Otherwise a new live instance showing what the brush gives at the cell, placed at the cell's centre; nothing else in the scene changes |
| Tilemaps.Tilemap.UpdateInstance | Assets/Scripts/Tilemap.cs:91-99 | the cell's old instance is destroyed and the cell shows what its brush gives; `tiles` is unchanged. An empty cell keeps its now-dead slot. Every other cell holds and shows what it did |
| Tilemaps.Tilemap.SetTile | Assets/Scripts/Tilemap.cs:47-61 | `tiles` changes only at index TileIndex(x, y). Exactly the in-bounds cells of the 3x3 block are refreshed (old instance destroyed, new choice shown). Every other slot holds and shows what it did. Consistency is kept |
| Tilemaps.Tilemap.RefreshCell | Assets/Scripts/Tilemap.cs:57 | one UpdateInstance call in a refresh loop advances that loop's refresh by one cell |
| Tilemaps.Tilemap.RefreshBlock | Assets/Scripts/Tilemap.cs:51-60 | the in-bounds cells of the 3x3 block show what their brushes give and their old instances are destroyed; every other cell holds and shows what it did |
| Tilemaps.Tilemap.Rebuild | Assets/Scripts/Tilemap.cs:116-125 | every cell shows what its brush gives and every old instance is destroyed; `tiles` is unchanged; the grid is consistent |
| Tilemaps.Tilemap.Clear | Assets/Scripts/Tilemap.cs:101-114 | every brush and instance slot is null, no instance is left live, and the size is unchanged |
| Tilemaps.Tilemap.ChangeTileSize | Assets/Scripts/Tilemap.cs:127-142 | the tile size is set and every live instance moves to the centre of its cell. No instance is created or destroyed. Arrays, size and what every cell shows are unchanged |
| Tilemaps.Tilemap.Resize | Assets/Scripts/Tilemap.cs:144-193 | width and height become w and h, and `tiles` becomes `Resized` of the old one. Border cells are refreshed, cut-off instances are destroyed, and every other cell keeps its slot and what it shows. Consistency is kept |
| Tilemaps.Tilemap.DestroyCutOff | Assets/Scripts/Tilemap.cs:146-160 | the instances of the cells outside [0, w) x [0, h) are destroyed, and every other cell shows what it did |
| Tilemaps.Tilemap.CopyOverlap | Assets/Scripts/Tilemap.cs:162-176 | the new arrays are the old ones resized to w x h: the overlap at x + y * w, null elsewhere |
| Tilemaps.Tilemap.RefreshBorder | Assets/Scripts/Tilemap.cs:184-192 | every cell of the last row and last column shows what its brush gives, and its old instance is destroyed; every other cell holds and shows what it did |
| Tilemaps.Tilemap.RefreshLastRow | Assets/Scripts/Tilemap.cs:185-188 | every cell of row height-1 is refreshed; all other cells are untouched |
| Tilemaps.Tilemap.RefreshLastColumn | Assets/Scripts/Tilemap.cs:189-192 | every cell of column width-1 below the last row is refreshed; all other cells are untouched |
| Tilemaps3D.RefreshStep | Assets/Scripts/Tilemap3D.cs:66-75 | updating the next cell of a refresh loop (or skipping it when it is outside the grid) advances the refresh by one cell |
| Tilemaps3D.RefreshNextColumn | Assets/Scripts/Tilemap3D.cs:66-75 | the refresh goes on from the top of column i to the bottom of column i + 1 |
| Tilemaps3D.RefreshComposed | Assets/Scripts/Tilemap3D.cs:215-223 | two refresh loops in a row amount to one refresh over the union of their cells |
| Tilemaps3D.ResizeOutcome | Assets/Scripts/Tilemap3D.cs:165-224 | after a resize, border cells show what their brushes give and their old instances are destroyed. Other cells of the new size keep their slot and what they show. Cut-off instances are destroyed |
| Tilemaps3D.Tilemap3D.constructor | Assets/Scripts/Tilemap3D.cs:8-21 | a new component is 10 x 10 with tile size 1 and every cell empty |
| Tilemaps3D.Tilemap3D.GetTile | Assets/Scripts/Tilemap3D.cs:32-40 | returns the brush at (x, y), which is null outside the grid |
| Tilemaps3D.Tilemap3D.GetTileAt | Assets/Scripts/Tilemap3D.cs:27-30 | the Vector2Int form returns what GetTile(cell.x, cell.y) returns |
| Tilemaps3D.Tilemap3D.GetTileInstance | Assets/Scripts/Tilemap3D.cs:47-55 | returns the instance slot at (x, y), which is null outside the grid |
| Tilemaps3D.Tilemap3D.GetTileInstanceAt | Assets/Scripts/Tilemap3D.cs:42-45 | the Vector2Int form returns what GetTileInstance(cell.x, cell.y) returns |
| Tilemaps3D.Tilemap3D.CreateInstance | Assets/Scripts/Tilemap3D.cs:83-99 | null for no brush or when the brush gives nothing. Otherwise a new live instance showing what `getPrefab` gives at the cell, placed at the cell's centre |
| Tilemaps3D.Tilemap3D.UpdateInstance | Assets/Scripts/Tilemap3D.cs:101-115 | the old instance is destroyed only when non-null and live; the cell then shows what its brush gives; `tiles` is unchanged. An empty cell keeps its slot. Every other cell holds and shows what it did |
| Tilemaps3D.Tilemap3D.SetTile | Assets/Scripts/Tilemap3D.cs:62-76 | `tiles` changes only at index TileIndex(x, y). Exactly the in-bounds cells of the 3x3 block are refreshed. Every other slot holds and shows what it did |
| Tilemaps3D.Tilemap3D.SetTileAt | Assets/Scripts/Tilemap3D.cs:57-60 | the Vector2Int form has the effect of SetTile(cell.x, cell.y, brush) |
| Tilemaps3D.Tilemap3D.RefreshCell | Assets/Scripts/Tilemap3D.cs:72 | one UpdateInstance call in a refresh loop advances that loop's refresh by one cell |
| Tilemaps3D.Tilemap3D.RefreshBlock | Assets/Scripts/Tilemap3D.cs:66-75 | the in-bounds cells of the 3x3 block show what their brushes give and their old instances are destroyed; every other cell holds and shows what it did |
| Tilemaps3D.Tilemap3D.Rebuild | Assets/Scripts/Tilemap3D.cs:137-146 | every cell shows what its brush gives and every old instance is destroyed; `tiles` is unchanged |
| Tilemaps3D.Tilemap3D.Clear | Assets/Scripts/Tilemap3D.cs:117-135 | every brush and instance slot is null and no instance is left live; non-null instances are destroyed |
| Tilemaps3D.Tilemap3D.ChangeTileSize | Assets/Scripts/Tilemap3D.cs:148-163 | the tile size is set and every live instance moves to the centre of its cell. The same handles stay in every slot, no instance is created or destroyed, and what every cell shows is unchanged |
| Tilemaps3D.Tilemap3D.Resize | Assets/Scripts/Tilemap3D.cs:165-224 | width and height become w and h, and `tiles` becomes `Resized` of the old one. Border cells are refreshed, non-null cut-off instances are destroyed, and every other cell keeps its slot and what it shows |
| Tilemaps3D.Tilemap3D.DestroyCutOff | Assets/Scripts/Tilemap3D.cs:167-191 | the non-null instances of the cells outside [0, w) x [0, h) are destroyed, and every other cell shows what it did |
| Tilemaps3D.Tilemap3D.CopyOverlap | Assets/Scripts/Tilemap3D.cs:193-213 | the new arrays are the old ones resized to w x h: the overlap at x + y * w, null elsewhere |
| Tilemaps3D.Tilemap3D.RefreshBorder | Assets/Scripts/Tilemap3D.cs:215-223 | every cell of the last row and last column shows what its brush gives, and its old instance is destroyed; every other cell holds and shows what it did |
| Tilemaps3D.Tilemap3D.RefreshLastRow | Assets/Scripts/Tilemap3D.cs:216-219 | every cell of row height-1 is refreshed; all other cells are untouched |
| Tilemaps3D.Tilemap3D.RefreshLastColumn | Assets/Scripts/Tilemap3D.cs:220-223 | every cell of column width-1 below the last row is refreshed; all other cells are untouched |

## Left out

- The engine is abstract.
  - Instantiate, DestroyImmediate and transform parenting become the `Scene` operations.
  - A local position is modelled as the placement (x, y, tileSize) it is computed from: InstancePosition in Tilemap.cs, and CellToLocal in Tilemap3D.cs.
  - Rotations (Quaternion) are opaque values that are carried through and never combined.
- Floats (weights, tileSize) are modelled as exact reals. Rounding in the weighted walk and in positions is not modelled.
- Random.value is a parameter. GetRandomPrefab takes it as `u`. Grid operations take a function `draw` that gives the value used for each cell they refresh. The engine's value lies in [0, 1] inclusive; the lemmas that need a draw below the total weight say so.
- Debug.LogWarning and Debug.LogError are dropped.
  - The LogError branch of Brush.GetPrefab (Brush.cs:59-62) cannot run, because its outer test already requires rules. The model returns FindPrefab's null there.
- Brush3D is not part of this model. Its GetPrefab is the function `getPrefab` the 3D component is created with, over the grid's brushes, size, cell and draw. Therefore Tilemap3D has no consistency invariant like Tilemap's `Consistent`.
- The coordinate helpers of Tilemap3D.cs (CellToLocal, LocalToCell, WorldToCell, from line 226 on), the brush's `size` field, and the editor scripts under Assets/Scripts/Editor are not part of this model.
- Brushes.WellFormed: the model admits on the grid only brushes whose every rule has a pattern of at most 8 positions and at least one variant. The engine is more lenient and still evaluates other brushes until it reaches the offending part:
  - A longer pattern fails only when the scan reaches a Filled or Empty position at index 8 or beyond. An Undefined position there is accepted without reading the neighbour, and the scan leaves a rule at its first failing position.
  - A rule with no variants fails (index -1) only when it is the rule chosen for a cell.
  - The brush editor lets an author delete every variant of a rule, so such brushes can exist. Painting one is not modelled: the model has no error outcome for these late failures, which can also appear after a neighbour is painted.
- Scenes.Scene.Instantiate: instantiating a null prefab reference (a freshly added variant) is modelled as instantiating prefab reference 0. The engine's argument error is not modelled.
- Tilemaps.Tilemap.Resize: the sizes are restricted so that the original completes with a grid of non-negative size. Either both sizes are at least 1, or the width is 0 and the height at most 1. The same applies to Tilemaps3D.Tilemap3D.Resize. Other sizes behave as follows:
  - With a positive width and a height of 0, the last-row loop updates row -1, at negative indices.
  - With a width of 0 and a height of 2 or more, the last-column loop updates column -1, at index -1.
  - A negative width or height fails in the destroy loops once they visit a cell at a negative index. That happens for example with a negative width on a grid of positive width and height.
  - A negative width or height can also complete and leave a grid of negative size. For example, Resize(-1, -1) on a 0 x 0 grid runs no loop, allocates (-1) * (-1) = 1 cell, and sets width and height to -1.
  - The tilemap editor never passes such sizes: it clamps both to at least 1 (Assets/Scripts/Editor/TilemapEditor.cs:229-230).
- Tilemaps.Tilemap.SetTile: the caller must pass coordinates whose unchecked index lies inside the array, as in the original. For an out-of-bounds (x, y) whose index still fits, the write lands on another cell, and consistency is then claimed only for in-bounds (x, y). The same applies to Tilemaps3D.Tilemap3D.SetTile.
- The loop pairs of Resize and SetTile are helper methods (DestroyCutOff, CopyOverlap, RefreshBlock, RefreshBorder, RefreshLastRow, RefreshLastColumn). Rebuild keeps its loop pair inline; only the loop body is the helper RefreshCell. Every helper performs the same updates in the same order as the source's loops.
