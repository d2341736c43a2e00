# Roguelike grid, dungeon carving and movement rules in Dafny

This project models the computational core of a small roguelike built from
the rltk tutorial:

- the dungeon **grid** of `src/map.rs`: an 80 x 50 row-major vector of
  `Wall`/`Floor` tiles, the coordinate-to-index mapping `xy_idx`, the in-place
  carving of rooms and of horizontal and vertical tunnels, the
  room-and-corridor generator `new_map_rooms_and_corridors`, and the
  `is_opaque` and `dimensions` queries;
- the **monster AI pass** of `src/monster_ai_system.rs`: each monster that
  sees the player requests an A* path and steps to `steps[1]`, marking its
  viewshed dirty;
- the **player move rule** of `src/player.rs`: a key becomes a unit step,
  refused onto a Wall tile and otherwise clamped to the map.

Files and modules:

- `grid.dfy`, module `Grid`: constants, `TileType`, `Point`, `Rect`,
  `XyIdx` and its arithmetic lemmas; the specification functions
  `CarveRoom`, `CarveHorizontal`, `CarveVertical` and `CarveCorridor` on a
  tile sequence; the class `Map`, whose `tiles` array is updated in place by
  `ApplyRoomToMap`, `ApplyHorizontalTunnel` and `ApplyVerticalTunnel`, each
  proved equal to its specification function; and the generator
  `Map.NewMapRoomsAndCorridors`.
- `components.dfy`, module `Components`: one `Entity` record per ECS entity.
  A component storage becomes an optional field (`position`, `viewshed`,
  `name`) or a marker flag (`monster`, `player`), so a `join()` over
  storages becomes a test that the wanted fields are present.
- `monster_ai.dfy`, module `MonsterAi`: `MonsterStep`, the rule for one
  entity, and `Run`, the loop that applies it in place to an array of
  entities.
- `player.dfy`, module `PlayerMove`: `PlayerStep`, `TryMovePlayer`,
  `KeyDelta` and `PlayerInput`.

Inputs that come from outside the core are parameters:

- The random number generator is a sequence of `MAX_ROOMS` `RoomDraw`
  records. Each holds the values one placement attempt draws: a width and a
  height between `MIN_SIZE` and `MAX_SIZE`, two dice rolls for the corner,
  and the value that picks the corridor's elbow. `MAX_SIZE` itself is
  allowed, so the model holds whether `range` excludes its upper bound or
  not.
- `Rect::new`, `Rect::intersect` and `Rect::center` are function values in a
  `RectOps` record. The generator assumes only two things of them: a room
  built from in-range draws lies in the grid, and the centre of such a room
  is a grid cell.
- The A* search is a function from (start index, goal index) to a
  `NavigationPath` of a success flag and a sequence of indices. For a fixed
  map the search is deterministic, so a function is a faithful stand-in.
- The player position read by the AI pass, the pressed key and the tile
  vector read by the player move are plain parameters.

What is proved, in short:

- `xy_idx` is injective on in-row coordinates, stays inside the vector for
  in-grid coordinates, and round-trips with `% width` and `/ width`.
- Room carving turns exactly the interior cells to Floor. Tunnels touch only
  indices strictly between 0 and the vector length. Every carve is monotone:
  it changes no Floor tile and writes only Floor. Each tunnel is symmetric in
  its end points.
- The generator returns a valid 80 x 50 map whose rooms and corridors are
  exactly those of the greedy rule `RectOps.Generate`. The attempts are taken
  in order. A candidate is kept iff it intersects no room kept before it. A
  corridor's horizontal leg comes first iff its attempt's coin is 1. From
  that rule it follows that there is at least one room, and the first is
  attempt 0's candidate. There are at most `MAX_ROOMS` rooms. Every room is a
  drawn candidate and lies in the grid. A rejected candidate intersects an
  earlier room. The rooms are pairwise non-intersecting. There are exactly `|rooms| - 1` corridors,
  corridor k joining the centres of rooms k and k+1, so the first room gets
  none. The Floor tiles are exactly the room interiors plus the corridor
  cells.
- A monster moves only if it joins all four components, sees the player, and
  got a successful path with more than one step. It then stands on the cell
  whose index is `steps[1]`, and only its position and dirty flag change.
- A player step onto a Wall is refused. An accepted step lands in the map.
  From a map cell a unit step changes each coordinate by at most one. Only
  entities with a Player component and a position move. Only the four arrow
  keys move the player.

Behaviour of the source that the model keeps:

- The player move does not mark the player's viewshed dirty in
  `src/player.rs`.
- Room carving does no bounds check at all, so an in-grid room is a
  precondition of `ApplyRoomToMap`.
- The tunnels do not clamp indices. They skip an index outside
  `(0, width*height)`, so index 0 is never carved.
- A horizontal tunnel index past the end of a row wraps to the next row,
  because `xy_idx` does no column check. The model keeps that, and so the
  tunnel's cells are described by index, not by coordinate.

## Model

| member | source | states |
|---|---|---|
| `Grid.XyIdx` | src/map.rs:77-79 | row-major layout: for `0 <= x < width`, the index of `(x, y)` lies in row `y`'s block `[y*width, (y+1)*width)` |
| `Grid.XyIdxInRange` | src/map.rs:77-79 | an in-grid coordinate's index lies in `[0, width*height)` |
| `Grid.XyIdxRoundTrip` | src/map.rs:77-79 | for `0 <= x < width`, `0 <= y`, the index decodes back to `x` with `% width` and to `y` with `/ width` |
| `Grid.XyIdxInjective` | src/map.rs:77-79 | distinct coordinates with `0 <= x < width` have distinct indices |
| `Grid.XyIdxOfIndex` | src/monster_ai_system.rs:36-37 | every non-negative index is the index of its decoded `(idx % width, idx / width)` |
| `Grid.CarveRoom` | src/map.rs:81-88 | room carving keeps the length, keeps every Floor tile, and writes only Floor |
| `Grid.RoomCarvedExactly` | src/map.rs:81-88 | a cell becomes Floor if it is in the room interior `x1 < x <= x2`, `y1 < y <= y2`; every other cell is unchanged |
| `Grid.CarveHorizontal` | src/map.rs:90-97 | horizontal tunnel: same length, Floor tiles kept, only Floor written, and never at index 0 |
| `Grid.CarveVertical` | src/map.rs:99-106 | vertical tunnel: same length, Floor tiles kept, only Floor written, and never at index 0 |
| `Grid.HorizontalTunnelCarves` | src/map.rs:90-97 | every cell `(x, y)` with `x` between the end points and an index strictly inside the vector becomes Floor |
| `Grid.VerticalTunnelCarves` | src/map.rs:99-106 | every cell `(x, y)` with `y` between the end points and an index strictly inside the vector becomes Floor |
| `Grid.HorizontalTunnelSymmetric` | src/map.rs:91 | the horizontal tunnel from `a` to `b` carves the same tiles as the one from `b` to `a` |
| `Grid.VerticalTunnelSymmetric` | src/map.rs:100 | the vertical tunnel from `a` to `b` carves the same tiles as the one from `b` to `a` |
| `Grid.CarveCorridor` | src/map.rs:58-67 | after both legs of a corridor, a tile is Floor iff it was Floor or lies on one of the two legs |
| `Grid.LayoutAddRoom` | src/map.rs:53 | carving one more room keeps "Floor = room interiors + corridor cells" exact |
| `Grid.LayoutAddCorridor` | src/map.rs:56-67 | carving one more corridor keeps "Floor = room interiors + corridor cells" exact |
| `Grid.RoomInteriorIsFloor` | src/map.rs:52-71 | in a generated layout, every interior cell of every accepted room is Floor |
| `Grid.InSomeRoomOf` | src/map.rs:53 | an index inside room k's interior is inside some room |
| `Grid.RectOps.Step` | src/map.rs:44-71 | an attempt either keeps the room list or appends exactly its own candidate |
| `Grid.RectOps.Generate` | src/map.rs:39-72 | the attempts taken in order keep at most one room each |
| `Grid.RectOps.GenerateFirst` | src/map.rs:46-52 | attempt 0 meets no room and is always accepted, so a level has at least one room and its first room is attempt 0's candidate |
| `Grid.RectOps.GenerateDisjoint` | src/map.rs:46-52 | the accepted rooms are pairwise non-intersecting |
| `Grid.RectOps.GenerateJoins` | src/map.rs:55-67 | there are `|rooms| - 1` corridors and corridor k runs from the centre of room k to the centre of room k+1 |
| `Grid.RectOps.GenerateRejects` | src/map.rs:46-52 | a candidate that is not kept intersects a room accepted by an earlier attempt |
| `Grid.RectOps.GenerateGrows` | src/map.rs:70 | an attempt never removes an accepted room |
| `Grid.RectOps.DisjointAppend` | src/map.rs:46-52 | a candidate that intersects no earlier room keeps the room list pairwise non-intersecting |
| `Grid.RectOps.JoinsFirst` | src/map.rs:55 | the first room needs no corridor |
| `Grid.RectOps.JoinsAppend` | src/map.rs:55-67 | a later room joined to the last room's centre by either elbow keeps corridor k joining rooms k and k+1 |
| `Grid.DrawnFromAppend` | src/map.rs:70 | pushing a candidate keeps every room a drawn candidate |
| `Grid.Map.constructor` | src/map.rs:30-35 | a fresh map is 80 x 50 with `width*height` tiles, all Wall, and no rooms |
| `Grid.Map.Dimensions` | src/map.rs:149-151 | the dimensions are (80, 50) and their product is the tile count |
| `Grid.Map.OpaqueOutsideLayout` | src/map.rs:143-145 | on a map whose Floor tiles are the room interiors and corridor cells, `IsOpaque(i)` holds iff `i` is in no room interior and on no corridor |
| `Grid.Map.ApplyRoomToMap` | src/map.rs:81-88 | the tile array afterwards is `CarveRoom` of the tile array before |
| `Grid.Map.ApplyHorizontalTunnel` | src/map.rs:90-97 | the tile array afterwards is `CarveHorizontal` of the tile array before |
| `Grid.Map.ApplyVerticalTunnel` | src/map.rs:99-106 | the tile array afterwards is `CarveVertical` of the tile array before |
| `Grid.Map.AddRoom` | src/map.rs:52-71 | an accepted room is carved and pushed; unless it is the first, exactly one corridor is logged, from the last room's centre to the new centre, horizontal leg first iff the coin is 1; the layout and joining invariants are kept |
| `Grid.Map.PlaceAttempt` | src/map.rs:40-71 | one attempt changes the rooms and corridor log exactly as `RectOps.Step` says and keeps every room in the grid and the layout exact |
| `Grid.Map.NewMapRoomsAndCorridors` | src/map.rs:29-75 | valid 80 x 50 map whose rooms and corridors are `RectOps.Generate` of the draws; at least one room, the first being attempt 0's candidate; at most `MAX_ROOMS` rooms, all in the grid and drawn candidates; pairwise non-intersecting; `|rooms| - 1` corridors joining consecutive centres; Floor tiles are exactly room interiors and corridor cells |
| `MonsterAi.MonsterStep` | src/monster_ai_system.rs:25-41 | entities outside the join, and monsters that do not see the player, are unchanged; otherwise only the position and the dirty flag (set to true) may change |
| `MonsterAi.MonsterMovesOneStep` | src/monster_ai_system.rs:28-39 | a seeing monster moves iff the path succeeded with more than one step; then its position is an in-row cell whose index is `steps[1]` and its viewshed is dirty |
| `MonsterAi.Run` | src/monster_ai_system.rs:22-42 | every entity of the array becomes `MonsterStep` of its old value |
| `PlayerMove.PlayerStep` | src/player.rs:14-20 | non-players are unchanged; a Wall destination leaves the player unchanged; an accepted step lands inside the map; nothing but the position changes |
| `PlayerMove.PlayerStepExact` | src/player.rs:15-18 | an accepted step whose target is a map cell lands exactly on the target, a non-Wall tile |
| `PlayerMove.PlayerStepClamps` | src/player.rs:15-18 | for any step and any tile vector, an accepted step lands on the map cell nearest the target, each coordinate clamped on its own to `[0, 79]` and `[0, 49]` |
| `PlayerMove.PlayerStepBounded` | src/player.rs:17-18 | from a map cell, a step with `dx, dy` in `{-1, 0, 1}` changes each coordinate by at most one |
| `PlayerMove.RightEdgeStepStays` | src/player.rs:15-18 | a step right from the last column checks the first tile of the next row and leaves the player in place |
| `PlayerMove.TryMovePlayer` | src/player.rs:9-21 | every entity of the array becomes `PlayerStep` of its old value |
| `PlayerMove.KeyDelta` | src/player.rs:24-31 | Left, Right, Up and Down map to `(-1,0)`, `(1,0)`, `(0,-1)` and `(0,1)`; any other key or no key gives no step; every step is a unit orthogonal step |
| `PlayerMove.PlayerInput` | src/player.rs:23-33 | an arrow key applies `PlayerStep` with its delta to every entity; any other key or no key changes nothing |

## Left out

- `Map::draw` (src/map.rs:108-139) and the drawing half of `State::tick`: rendering through rltk with floating-point colours.
- `src/main.rs` and `src/game_state.rs`: window set-up, ECS registration, the main loop and system scheduling.
- The internals of `Rect::new`, `Rect::intersect` and `Rect::center`: `src/rect.rs` is not part of this model, so they are parameters.
- The random number generator: the draws are inputs. The model does not capture the exact order in which one RNG stream is consumed across attempts, nor that the elbow value is drawn only for an accepted room after the first.
- The A* search, the field-of-view computation and the map's neighbour and distance queries: these belong to rltk and to `visibility_system.rs`, which is not part of this model. Their results are parameters.
- The `console::log` call in the AI pass: output only.
- Conversions `as usize` of negative coordinates, which wrap: the model requires non-negative coordinates wherever the source converts one.
- 32-bit overflow of `i32` arithmetic: coordinates are unbounded integers.
- Connectivity of the generated floor and the other search properties: they need a model of the A* search.
