/** Player movement of src/player.rs: a directional key becomes a step, the
    step is refused when the destination tile is a Wall, and an accepted
    step is clamped to the map. */
module PlayerMove {
  import opened Grid
  import opened Components

  /** `min(hi, max(lo, v))`. */
  function Clamp(v: int, lo: int, hi: int): (r: int)
    requires lo <= hi
    ensures lo <= r <= hi
    ensures r == (if v < lo then lo else if hi < v then hi else v)
  {
    Min(hi, Max(lo, v))
  }

  function Abs(v: int): (r: int)
  {
    if v < 0 then -v else v
  }

  predicate Moves(e: Entity)
  {
    e.player && e.position.Some?
  }

  /** Index of the tile the player would step onto. */
  function Destination(pos: Point, dx: int, dy: int): (r: int)
  {
    XyIdx(MAP_WIDTH, pos.x + dx, pos.y + dy)
  }

  /** The destination converts to `usize` without wrapping and indexes the
      tile vector (the lookup would panic otherwise). */
  predicate DestinationIndexable(e: Entity, dx: int, dy: int, tiles: seq<TileType>)
  {
    Moves(e) ==>
      0 <= e.position.value.x + dx && 0 <= e.position.value.y + dy &&
      Destination(e.position.value, dx, dy) < |tiles|
  }

  /** One entity's update in `try_move_player`. */
  function PlayerStep(e: Entity, dx: int, dy: int, tiles: seq<TileType>): (r: Entity)
    requires DestinationIndexable(e, dx, dy, tiles)
    ensures !Moves(e) ==> r == e
    ensures Moves(e) && tiles[Destination(e.position.value, dx, dy)] == Wall ==> r == e
    ensures Moves(e) && tiles[Destination(e.position.value, dx, dy)] != Wall ==>
              r.position.Some? && InGrid(r.position.value)
    ensures r.(position := e.position) == e
    ensures r.position.Some? <==> e.position.Some?
  {
    if Moves(e) then
      var pos := e.position.value;
      if tiles[Destination(pos, dx, dy)] != Wall then
        e.(position := Some(Point(Clamp(pos.x + dx, 0, MAP_WIDTH - 1), Clamp(pos.y + dy, 0, MAP_HEIGHT - 1))))
      else
        e
    else
      e
  }

  /** An accepted step whose target lies in the map lands exactly there,
      on a tile that is not a Wall. */
  lemma PlayerStepExact(e: Entity, dx: int, dy: int, tiles: seq<TileType>)
    requires DestinationIndexable(e, dx, dy, tiles) && Moves(e)
    requires InGrid(Point(e.position.value.x + dx, e.position.value.y + dy))
    requires tiles[Destination(e.position.value, dx, dy)] != Wall
    ensures var p := PlayerStep(e, dx, dy, tiles).position;
            p == Some(Point(e.position.value.x + dx, e.position.value.y + dy)) &&
            tiles[XyIdx(MAP_WIDTH, p.value.x, p.value.y)] != Wall
  {
  }

  /** A step right from the last column is checked against the first tile of
      the next row (the index wraps), and the clamp then keeps the player in
      place whether or not the step is accepted. */
  lemma RightEdgeStepStays(e: Entity, tiles: seq<TileType>)
    requires Moves(e) && InGrid(e.position.value) && e.position.value.x == MAP_WIDTH - 1
    requires DestinationIndexable(e, 1, 0, tiles)
    ensures Destination(e.position.value, 1, 0) == XyIdx(MAP_WIDTH, 0, e.position.value.y + 1)
    ensures PlayerStep(e, 1, 0, tiles) == e
  {
  }

  /** Whatever the step and however long the tile vector, an accepted step
      lands on the map cell nearest to the target, each coordinate clamped
      on its own: a target off the map lands on the edge it lies beyond. */
  lemma PlayerStepClamps(e: Entity, dx: int, dy: int, tiles: seq<TileType>)
    requires DestinationIndexable(e, dx, dy, tiles) && Moves(e)
    requires tiles[Destination(e.position.value, dx, dy)] != Wall
    ensures var tx, ty := e.position.value.x + dx, e.position.value.y + dy;
            var p := PlayerStep(e, dx, dy, tiles).position.value;
            InGrid(p) &&
            p.x == (if tx < 0 then 0 else if MAP_WIDTH <= tx then MAP_WIDTH - 1 else tx) &&
            p.y == (if ty < 0 then 0 else if MAP_HEIGHT <= ty then MAP_HEIGHT - 1 else ty) &&
            forall q :: InGrid(q) ==> Abs(p.x - tx) <= Abs(q.x - tx) && Abs(p.y - ty) <= Abs(q.y - ty)
  {
  }

  /** From a cell of the map, a unit step changes each coordinate by at most one. */
  lemma PlayerStepBounded(e: Entity, dx: int, dy: int, tiles: seq<TileType>)
    requires DestinationIndexable(e, dx, dy, tiles) && Moves(e) && InGrid(e.position.value)
    requires -1 <= dx <= 1 && -1 <= dy <= 1
    ensures var p := PlayerStep(e, dx, dy, tiles).position.value;
            Abs(p.x - e.position.value.x) <= 1 && Abs(p.y - e.position.value.y) <= 1
  {
  }

  /** `try_move_player`: the pass over all entities, in place. */
  method TryMovePlayer(dx: int, dy: int, tiles: seq<TileType>, entities: array<Entity>)
    requires forall k :: 0 <= k < entities.Length ==> DestinationIndexable(entities[k], dx, dy, tiles)
    modifies entities
    ensures forall k :: 0 <= k < entities.Length ==> entities[k] == PlayerStep(old(entities[k]), dx, dy, tiles)
  {
    for k := 0 to entities.Length
      invariant forall j :: 0 <= j < k ==> entities[j] == PlayerStep(old(entities[j]), dx, dy, tiles)
      invariant forall j :: k <= j < entities.Length ==> entities[j] == old(entities[j])
    {
      var e := entities[k];
      if e.player && e.position.Some? {
        var pos := e.position.value;
        var dest := XyIdx(MAP_WIDTH, pos.x + dx, pos.y + dy);
        if tiles[dest] != Wall {
          entities[k] := e.(position := Some(Point(Min(MAP_WIDTH - 1, Max(0, pos.x + dx)),
                                                   Min(MAP_HEIGHT - 1, Max(0, pos.y + dy)))));
        }
      }
    }
  }

  /** The keys `player_input` reacts to; every other key is `Other`. */
  datatype Key = Left | Right | Up | Down | Other(code: int)

  /** The step a pressed key asks for, if any. */
  function KeyDelta(key: Option<Key>): (d: Option<(int, int)>)
    ensures d.None? <==> key.None? || key.value.Other?
    ensures d.Some? ==> Abs(d.value.0) + Abs(d.value.1) == 1
    ensures key == Some(Left) ==> d == Some((-1, 0))
    ensures key == Some(Right) ==> d == Some((1, 0))
    ensures key == Some(Up) ==> d == Some((0, -1))
    ensures key == Some(Down) ==> d == Some((0, 1))
  {
    match key
    case Some(Left) => Some((-1, 0))
    case Some(Right) => Some((1, 0))
    case Some(Up) => Some((0, -1))
    case Some(Down) => Some((0, 1))
    case _ => None
  }

  /** `player_input`: dispatch a key to `try_move_player`. */
  method PlayerInput(key: Option<Key>, tiles: seq<TileType>, entities: array<Entity>)
    requires KeyDelta(key).Some? ==> forall k :: 0 <= k < entities.Length ==>
      DestinationIndexable(entities[k], KeyDelta(key).value.0, KeyDelta(key).value.1, tiles)
    modifies entities
    ensures KeyDelta(key).None? ==> entities[..] == old(entities[..])
    ensures KeyDelta(key).Some? ==> forall k :: 0 <= k < entities.Length ==>
      entities[k] == PlayerStep(old(entities[k]), KeyDelta(key).value.0, KeyDelta(key).value.1, tiles)
  {
    match key
    case Some(Left) => TryMovePlayer(-1, 0, tiles, entities);
    case Some(Right) => TryMovePlayer(1, 0, tiles, entities);
    case Some(Up) => TryMovePlayer(0, -1, tiles, entities);
    case Some(Down) => TryMovePlayer(0, 1, tiles, entities);
    case _ =>
  }
}
