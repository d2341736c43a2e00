/** The dungeon grid of src/map.rs: a flat, row-major vector of tiles, the
    room and tunnel carving that mutates it, and the room-and-corridor
    generator that builds a level. */
module Grid {

  const MAP_WIDTH: int := 80
  const MAP_HEIGHT: int := 50

  const MAX_ROOMS: int := 30
  const MIN_SIZE: int := 6
  const MAX_SIZE: int := 10

  datatype TileType = Wall | Floor

  /** A grid coordinate (rltk's Point). */
  datatype Point = Point(x: int, y: int)

  /** A room: the fields read by the carving code. */
  datatype Rect = Rect(x1: int, y1: int, x2: int, y2: int)

  function Min(a: int, b: int): (r: int) { if a <= b then a else b }
  function Max(a: int, b: int): (r: int) { if a <= b then b else a }

  // ---------------------------------------------------------------------
  // Coordinates and indices

  /** Row-major index of a coordinate in a grid `width` tiles wide: the
      cells of row `y` occupy the block `[y * width, (y + 1) * width)`. */
  function XyIdx(width: int, x: int, y: int): (r: int)
    ensures 0 <= x < width ==> y * width <= r < (y + 1) * width
  {
    y * width + x
  }

  predicate InGrid(p: Point)
  {
    0 <= p.x < MAP_WIDTH && 0 <= p.y < MAP_HEIGHT
  }

  /** An in-grid coordinate has an index inside the tile vector. */
  lemma XyIdxInRange(width: int, height: int, x: int, y: int)
    requires 0 <= x < width && 0 <= y < height
    ensures 0 <= XyIdx(width, x, y) < width * height
  {
    assert y * width <= (height - 1) * width by {
      MulLeq(y, height - 1, width);
    }
  }

  lemma MulLeq(a: int, b: int, c: int)
    requires a <= b && 0 <= c
    ensures a * c <= b * c
  {
  }

  /** Decoding an index with `% width` and `/ width` gives back the coordinate. */
  lemma XyIdxRoundTrip(width: int, x: int, y: int)
    requires 0 <= x < width && 0 <= y
    ensures XyIdx(width, x, y) % width == x
    ensures XyIdx(width, x, y) / width == y
  {
    var i := XyIdx(width, x, y);
    var q, r := i / width, i % width;
    assert i == q * width + r;
    assert (q - y) * width == x - r;
    if q > y {
      MulLeq(1, q - y, width);
      assert false;
    } else if q < y {
      MulLeq(1, y - q, width);
      assert false;
    }
  }

  /** Every index is the index of its decoded coordinate. */
  lemma XyIdxOfIndex(width: int, i: int)
    requires 0 < width && 0 <= i
    ensures 0 <= i % width < width && 0 <= i / width
    ensures XyIdx(width, i % width, i / width) == i
  {
  }

  /** Distinct in-row coordinates have distinct indices. */
  lemma XyIdxInjective(width: int, x1: int, y1: int, x2: int, y2: int)
    requires 0 <= x1 < width && 0 <= y1
    requires 0 <= x2 < width && 0 <= y2
    requires XyIdx(width, x1, y1) == XyIdx(width, x2, y2)
    ensures x1 == x2 && y1 == y2
  {
    XyIdxRoundTrip(width, x1, y1);
    XyIdxRoundTrip(width, x2, y2);
  }

  // ---------------------------------------------------------------------
  // What carving does to a tile vector (specifications of the Map methods)

  /** A room's carved interior excludes its own first row and column. */
  predicate InRoomInterior(room: Rect, x: int, y: int)
  {
    room.x1 < x <= room.x2 && room.y1 < y <= room.y2
  }

  /** Indices a horizontal tunnel at row `y` visits. */
  predicate OnHorizontalTunnel(width: int, x1: int, x2: int, y: int, i: int)
  {
    Min(x1, x2) <= i - y * width <= Max(x1, x2)
  }

  /** Indices a vertical tunnel at column `x` visits. */
  predicate OnVerticalTunnel(width: int, y1: int, y2: int, x: int, i: int)
    requires 0 < width
  {
    (i - x) % width == 0 && Min(y1, y2) <= (i - x) / width <= Max(y1, y2)
  }

  /** Tiles after a room is carved: its interior becomes Floor. */
  function CarveRoom(t: seq<TileType>, width: int, room: Rect): (r: seq<TileType>)
    requires 0 < width
    ensures |r| == |t|
    ensures forall i :: 0 <= i < |t| && t[i] == Floor ==> r[i] == Floor
    ensures forall i :: 0 <= i < |t| && r[i] != t[i] ==> r[i] == Floor
  {
    seq(|t|, i requires 0 <= i < |t| =>
      if InRoomInterior(room, i % width, i / width) then Floor else t[i])
  }

  /** Tiles after a horizontal tunnel is carved; index 0 and indices past
      the end are skipped. */
  function CarveHorizontal(t: seq<TileType>, width: int, x1: int, x2: int, y: int): (r: seq<TileType>)
    ensures |r| == |t|
    ensures forall i :: 0 <= i < |t| && t[i] == Floor ==> r[i] == Floor
    ensures forall i :: 0 <= i < |t| && r[i] != t[i] ==> r[i] == Floor && 0 < i
  {
    seq(|t|, i requires 0 <= i < |t| =>
      if 0 < i && OnHorizontalTunnel(width, x1, x2, y, i) then Floor else t[i])
  }

  /** Tiles after a vertical tunnel is carved; index 0 and indices past
      the end are skipped. */
  function CarveVertical(t: seq<TileType>, width: int, y1: int, y2: int, x: int): (r: seq<TileType>)
    requires 0 < width
    ensures |r| == |t|
    ensures forall i :: 0 <= i < |t| && t[i] == Floor ==> r[i] == Floor
    ensures forall i :: 0 <= i < |t| && r[i] != t[i] ==> r[i] == Floor && 0 < i
  {
    seq(|t|, i requires 0 <= i < |t| =>
      if 0 < i && OnVerticalTunnel(width, y1, y2, x, i) then Floor else t[i])
  }

  /** Carving a room turns exactly the interior cells to Floor. */
  lemma RoomCarvedExactly(t: seq<TileType>, width: int, room: Rect, x: int, y: int)
    requires 0 <= x < width && 0 <= y && XyIdx(width, x, y) < |t|
    ensures CarveRoom(t, width, room)[XyIdx(width, x, y)]
         == if InRoomInterior(room, x, y) then Floor else t[XyIdx(width, x, y)]
  {
    XyIdxRoundTrip(width, x, y);
  }

  /** Every cell of a vertical tunnel inside the vector, except index 0, is Floor. */
  lemma VerticalTunnelCarves(t: seq<TileType>, width: int, y1: int, y2: int, x: int, y: int)
    requires 0 < width && Min(y1, y2) <= y <= Max(y1, y2)
    requires 0 < XyIdx(width, x, y) < |t|
    ensures CarveVertical(t, width, y1, y2, x)[XyIdx(width, x, y)] == Floor
  {
    MulDivMod(width, y);
  }

  /** Every cell of a horizontal tunnel inside the vector, except index 0, is Floor. */
  lemma HorizontalTunnelCarves(t: seq<TileType>, width: int, x1: int, x2: int, y: int, x: int)
    requires Min(x1, x2) <= x <= Max(x1, x2)
    requires 0 < XyIdx(width, x, y) < |t|
    ensures CarveHorizontal(t, width, x1, x2, y)[XyIdx(width, x, y)] == Floor
  {
  }

  lemma MulDivMod(width: int, y: int)
    requires 0 < width
    ensures (y * width) % width == 0 && (y * width) / width == y
  {
    var i := y * width;
    var q, r := i / width, i % width;
    assert i == q * width + r;
    assert (q - y) * width == -r;
    if q > y {
      MulLeq(1, q - y, width);
      assert false;
    } else if q < y {
      MulLeq(1, y - q, width);
      assert false;
    }
  }

  /** Each tunnel is symmetric in its two end points. */
  lemma HorizontalTunnelSymmetric(t: seq<TileType>, width: int, a: int, b: int, y: int)
    ensures CarveHorizontal(t, width, a, b, y) == CarveHorizontal(t, width, b, a, y)
  {
  }

  lemma VerticalTunnelSymmetric(t: seq<TileType>, width: int, a: int, b: int, x: int)
    requires 0 < width
    ensures CarveVertical(t, width, a, b, x) == CarveVertical(t, width, b, a, x)
  {
  }

  // ---------------------------------------------------------------------
  // Inputs of the generator: random draws and the Rect operations

  /** The values one placement attempt draws from the random number
      generator: a width and height from `range(MIN_SIZE, MAX_SIZE)` (allowed
      up to MAX_SIZE here, whether or not the upper bound is excluded), two
      `roll_dice(1, n)` results for the corner, and the `range(0, 2)` value
      that picks the corridor's elbow. */
  datatype RoomDraw = RoomDraw(w: int, h: int, xRoll: int, yRoll: int, coin: int)
  {
    predicate InRange()
    {
      MIN_SIZE <= w <= MAX_SIZE && MIN_SIZE <= h <= MAX_SIZE &&
      1 <= xRoll <= MAP_WIDTH - w - 1 && 1 <= yRoll <= MAP_HEIGHT - h - 1
    }
  }

  /** Arguments `Rect::new(x, y, w, h)` receives from an in-range draw. */
  predicate CandidateArgs(x: int, y: int, w: int, h: int)
  {
    MIN_SIZE <= w <= MAX_SIZE && MIN_SIZE <= h <= MAX_SIZE &&
    0 <= x <= MAP_WIDTH - w - 2 && 0 <= y <= MAP_HEIGHT - h - 2
  }

  /** `Rect::new`, `Rect::intersect` and `Rect::center`, whose definitions are
      not part of this model. */
  datatype RectOps = RectOps(
    make: (int, int, int, int) -> Rect,
    intersect: (Rect, Rect) -> bool,
    center: Rect -> Point)
  {
    /** What the generator relies on: a candidate room fits in the grid and
        the centre of a room in the grid is a grid cell. */
    ghost predicate Valid()
    {
      (forall x, y, w, h :: CandidateArgs(x, y, w, h) ==> RoomInGrid(make(x, y, w, h))) &&
      (forall r :: RoomInGrid(r) ==> InGrid(center(r)))
    }

    function Candidate(d: RoomDraw): (r: Rect)
    {
      make(d.xRoll - 1, d.yRoll - 1, d.w, d.h)
    }

    predicate Disjoint(rooms: seq<Rect>)
    {
      forall i, j :: 0 <= i < j < |rooms| ==> !intersect(rooms[j], rooms[i])
    }

    /** Room k+1 is joined to room k by corridor k, from centre to centre;
        the first room has no corridor. */
    predicate Joins(rooms: seq<Rect>, corridors: seq<Corridor>)
    {
      |corridors| == Max(|rooms| - 1, 0) &&
      forall k :: 0 <= k < |corridors| ==>
        corridors[k].from == center(rooms[k]) && corridors[k].to == center(rooms[k + 1])
    }

    /** `room` intersects none of `rooms`: the test that accepts a candidate. */
    predicate Clear(room: Rect, rooms: seq<Rect>)
    {
      forall k :: 0 <= k < |rooms| ==> !intersect(room, rooms[k])
    }

    /** One placement attempt applied to the plan built so far: the
        candidate is accepted iff it intersects no room accepted before it,
        and every accepted room but the first is joined to the previously
        accepted one by a corridor whose horizontal leg comes first iff the
        attempt's coin is 1. */
    function Step(prev: Plan, d: RoomDraw): (p: Plan)
      ensures p.rooms == prev.rooms || p.rooms == prev.rooms + [Candidate(d)]
    {
      var room := Candidate(d);
      if !Clear(room, prev.rooms) then prev
      else if |prev.rooms| == 0 then Plan([room], prev.corridors)
      else Plan(prev.rooms + [room],
                prev.corridors + [Corridor(center(prev.rooms[|prev.rooms| - 1]), center(room), d.coin == 1)])
    }

    /** The rooms and corridors the generator keeps from the attempts
        `draws`, taken in order. */
    function Generate(draws: seq<RoomDraw>): (p: Plan)
      ensures |p.rooms| <= |draws|
      decreases |draws|
    {
      if |draws| == 0 then Plan([], [])
      else Step(Generate(draws[..|draws| - 1]), draws[|draws| - 1])
    }

    /** The first attempt is always accepted, so a level has at least one room. */
    lemma {:induction false} GenerateFirst(draws: seq<RoomDraw>)
      requires |draws| > 0
      ensures |Generate(draws).rooms| >= 1
      ensures Generate(draws).rooms[0] == Candidate(draws[0])
    {
      if |draws| > 1 {
        GenerateFirst(draws[..|draws| - 1]);
        assert draws[..|draws| - 1][0] == draws[0];
      }
    }

    /** The accepted rooms are pairwise non-intersecting. */
    lemma {:induction false} GenerateDisjoint(draws: seq<RoomDraw>)
      ensures Disjoint(Generate(draws).rooms)
    {
      if |draws| > 0 {
        var prev := Generate(draws[..|draws| - 1]);
        GenerateDisjoint(draws[..|draws| - 1]);
        var room := Candidate(draws[|draws| - 1]);
        if Clear(room, prev.rooms) {
          DisjointAppend(prev.rooms, room);
        }
      }
    }

    /** Corridor k joins the centres of accepted rooms k and k+1. */
    lemma {:induction false} GenerateJoins(draws: seq<RoomDraw>)
      ensures Joins(Generate(draws).rooms, Generate(draws).corridors)
    {
      if |draws| > 0 {
        var prev := Generate(draws[..|draws| - 1]);
        GenerateJoins(draws[..|draws| - 1]);
        var room := Candidate(draws[|draws| - 1]);
        if Clear(room, prev.rooms) {
          if |prev.rooms| == 0 {
            JoinsFirst(room);
          } else {
            JoinsAppend(prev.rooms, prev.corridors, room);
          }
        }
      }
    }

    /** A candidate that is turned down intersects a room accepted by an
        earlier attempt. */
    lemma {:induction false} GenerateRejects(draws: seq<RoomDraw>, a: int)
      requires 0 <= a < |draws|
      requires Candidate(draws[a]) !in Generate(draws).rooms
      ensures exists k :: 0 <= k < |Generate(draws[..a]).rooms| &&
                intersect(Candidate(draws[a]), Generate(draws[..a]).rooms[k])
    {
      if a < |draws| - 1 {
        assert draws[..|draws| - 1][..a] == draws[..a];
        GenerateGrows(draws[..|draws| - 1]);
        GenerateRejects(draws[..|draws| - 1], a);
      } else {
        assert draws[..a] == draws[..|draws| - 1];
      }
    }

    /** An attempt never removes an accepted room. */
    lemma GenerateGrows(draws: seq<RoomDraw>)
      requires |draws| > 0
      ensures forall r :: r in Generate(draws[..|draws| - 1]).rooms ==> r in Generate(draws).rooms
    {
    }

    lemma DisjointAppend(rooms: seq<Rect>, room: Rect)
      requires Disjoint(rooms)
      requires Clear(room, rooms)
      ensures Disjoint(rooms + [room])
    {
    }

    lemma JoinsFirst(room: Rect)
      ensures Joins([room], [])
    {
    }

    lemma JoinsAppend(rooms: seq<Rect>, corridors: seq<Corridor>, room: Rect)
      requires Joins(rooms, corridors) && |rooms| > 0
      ensures Joins(rooms + [room],
                    corridors + [Corridor(center(rooms[|rooms| - 1]), center(room), true)])
      ensures Joins(rooms + [room],
                    corridors + [Corridor(center(rooms[|rooms| - 1]), center(room), false)])
    {
    }
  }

  /** An L-shaped pair of tunnels between two room centres. */
  datatype Corridor = Corridor(from: Point, to: Point, horizontalFirst: bool)

  /** The rooms a level keeps, in order, and the corridors joining them. */
  datatype Plan = Plan(rooms: seq<Rect>, corridors: seq<Corridor>)

  /** Indices a corridor turns to Floor. */
  predicate OnCorridor(c: Corridor, width: int, i: int)
    requires 0 < width
  {
    0 < i &&
    if c.horizontalFirst then
      OnHorizontalTunnel(width, c.from.x, c.to.x, c.from.y, i) ||
      OnVerticalTunnel(width, c.from.y, c.to.y, c.to.x, i)
    else
      OnVerticalTunnel(width, c.from.y, c.to.y, c.from.x, i) ||
      OnHorizontalTunnel(width, c.from.x, c.to.x, c.to.y, i)
  }

  predicate InSomeRoom(rooms: seq<Rect>, width: int, i: int)
    requires 0 < width
    decreases |rooms|
  {
    |rooms| > 0 &&
    (InSomeRoom(rooms[..|rooms| - 1], width, i) ||
     InRoomInterior(rooms[|rooms| - 1], i % width, i / width))
  }

  predicate OnSomeCorridor(corridors: seq<Corridor>, width: int, i: int)
    requires 0 < width
    decreases |corridors|
  {
    |corridors| > 0 &&
    (OnSomeCorridor(corridors[..|corridors| - 1], width, i) ||
     OnCorridor(corridors[|corridors| - 1], width, i))
  }

  /** The tiles that are Floor are exactly the interiors of `rooms` and the
      cells of `corridors`. */
  predicate Layout(t: seq<TileType>, width: int, rooms: seq<Rect>, corridors: seq<Corridor>)
    requires 0 < width
  {
    forall i :: 0 <= i < |t| ==>
      (t[i] == Floor <==> InSomeRoom(rooms, width, i) || OnSomeCorridor(corridors, width, i))
  }

  /** Tiles after both tunnels of a corridor are carved, in the order the
      corridor's elbow dictates. */
  function CarveCorridor(t: seq<TileType>, width: int, c: Corridor): (r: seq<TileType>)
    requires 0 < width
    ensures |r| == |t|
    ensures forall i :: 0 <= i < |t| ==> (r[i] == Floor <==> t[i] == Floor || OnCorridor(c, width, i))
  {
    if c.horizontalFirst then
      CarveVertical(CarveHorizontal(t, width, c.from.x, c.to.x, c.from.y), width, c.from.y, c.to.y, c.to.x)
    else
      CarveHorizontal(CarveVertical(t, width, c.from.y, c.to.y, c.from.x), width, c.from.x, c.to.x, c.to.y)
  }

  /** In a tile vector described by `Layout`, every room's interior is Floor. */
  lemma RoomInteriorIsFloor(t: seq<TileType>, width: int, rooms: seq<Rect>, corridors: seq<Corridor>,
                            k: int, x: int, y: int)
    requires 0 < width && Layout(t, width, rooms, corridors)
    requires 0 <= k < |rooms| && InRoomInterior(rooms[k], x, y)
    requires 0 <= x < width && 0 <= y && XyIdx(width, x, y) < |t|
    ensures t[XyIdx(width, x, y)] == Floor
  {
    XyIdxRoundTrip(width, x, y);
    InSomeRoomOf(rooms, width, k, XyIdx(width, x, y));
  }

  /** Carving one more room keeps the layout description exact. */
  lemma LayoutAddRoom(t: seq<TileType>, width: int, rooms: seq<Rect>, corridors: seq<Corridor>, room: Rect)
    requires 0 < width && Layout(t, width, rooms, corridors)
    ensures Layout(CarveRoom(t, width, room), width, rooms + [room], corridors)
  {
  }

  /** Carving one more corridor keeps the layout description exact. */
  lemma LayoutAddCorridor(t: seq<TileType>, width: int, rooms: seq<Rect>, corridors: seq<Corridor>, c: Corridor)
    requires 0 < width && Layout(t, width, rooms, corridors)
    ensures Layout(CarveCorridor(t, width, c), width, rooms, corridors + [c])
  {
  }

  /** The index lies in the interior of room k for some k. */
  lemma {:induction false} InSomeRoomOf(rooms: seq<Rect>, width: int, k: int, i: int)
    requires 0 < width && 0 <= k < |rooms|
    requires InRoomInterior(rooms[k], i % width, i / width)
    ensures InSomeRoom(rooms, width, i)
  {
    if k < |rooms| - 1 {
      InSomeRoomOf(rooms[..|rooms| - 1], width, k, i);
    }
  }

  // ---------------------------------------------------------------------
  // The map object

  /** A room whose interior lies inside the grid (no carving write can
      fall outside the tile vector or wrap to another row). */
  predicate RoomInGrid(room: Rect)
  {
    0 <= room.x1 <= room.x2 < MAP_WIDTH && 0 <= room.y1 <= room.y2 < MAP_HEIGHT
  }

  class Map {
    const tiles: array<TileType>
    var rooms: seq<Rect>
    const width: int
    const height: int

    ghost predicate Valid()
      reads this
    {
      width == MAP_WIDTH && height == MAP_HEIGHT && tiles.Length == width * height
    }

    /** The map before any room is placed: every tile a Wall, no rooms. */
    constructor ()
      ensures Valid() && fresh(tiles)
      ensures rooms == []
      ensures forall i :: 0 <= i < tiles.Length ==> tiles[i] == Wall
    {
      width, height := MAP_WIDTH, MAP_HEIGHT;
      tiles := new TileType[MAP_WIDTH * MAP_HEIGHT](_ => Wall);
      rooms := [];
    }

    function Dimensions(): (d: Point)
      reads this
      requires Valid()
      ensures d.x * d.y == tiles.Length
      ensures d == Point(MAP_WIDTH, MAP_HEIGHT)
    {
      Point(width, height)
    }

    function IsOpaque(idx: int): (blocks: bool)
      reads this, tiles
      requires Valid() && 0 <= idx < tiles.Length
      ensures blocks <==> tiles[idx] == Wall
    {
      tiles[idx] == Wall
    }

    /** On a map whose Floor tiles are the rooms' interiors and the
        corridors' cells, the opaque tiles are exactly all the others: no
        room or corridor cell of a generated level blocks sight. */
    lemma OpaqueOutsideLayout(corridors: seq<Corridor>, i: int)
      requires Valid() && 0 <= i < tiles.Length
      requires Layout(tiles[..], width, rooms, corridors)
      ensures IsOpaque(i) <==> !(InSomeRoom(rooms, width, i) || OnSomeCorridor(corridors, width, i))
    {
      assert tiles[..][i] == tiles[i];
    }

    method ApplyRoomToMap(room: Rect)
      requires Valid() && RoomInGrid(room)
      modifies tiles
      ensures tiles[..] == CarveRoom(old(tiles[..]), width, room)
    {
      var y := room.y1 + 1;
      while y <= room.y2
        invariant room.y1 + 1 <= y <= room.y2 + 1
        invariant forall i :: 0 <= i < tiles.Length ==>
          tiles[i] == if InRoomInterior(room.(y2 := y - 1), i % width, i / width) then Floor else old(tiles[i])
      {
        var x := room.x1 + 1;
        while x <= room.x2
          invariant room.x1 + 1 <= x <= room.x2 + 1
          invariant forall i :: 0 <= i < tiles.Length ==>
            tiles[i] == if InRoomInterior(room.(y2 := y - 1), i % width, i / width)
                           || (i / width == y && room.x1 < i % width < x)
                        then Floor else old(tiles[i])
        {
          var idx := XyIdx(width, x, y);
          XyIdxInRange(width, height, x, y);
          XyIdxRoundTrip(width, x, y);
          tiles[idx] := Floor;
          x := x + 1;
        }
        y := y + 1;
      }
    }

    method ApplyHorizontalTunnel(x1: int, x2: int, y: int)
      requires Valid() && 0 <= x1 && 0 <= x2 && 0 <= y
      modifies tiles
      ensures tiles[..] == CarveHorizontal(old(tiles[..]), width, x1, x2, y)
    {
      var x := Min(x1, x2);
      while x <= Max(x1, x2)
        invariant Min(x1, x2) <= x <= Max(x1, x2) + 1
        invariant forall i :: 0 <= i < tiles.Length ==>
          tiles[i] == if 0 < i && Min(x1, x2) <= i - y * width < x then Floor else old(tiles[i])
      {
        var idx := XyIdx(width, x, y);
        if 0 < idx < width * height {
          tiles[idx] := Floor;
        }
        x := x + 1;
      }
    }

    method ApplyVerticalTunnel(y1: int, y2: int, x: int)
      requires Valid() && 0 <= y1 && 0 <= y2 && 0 <= x
      modifies tiles
      ensures tiles[..] == CarveVertical(old(tiles[..]), width, y1, y2, x)
    {
      var y := Min(y1, y2);
      while y <= Max(y1, y2)
        invariant Min(y1, y2) <= y <= Max(y1, y2) + 1
        invariant forall i :: 0 <= i < tiles.Length ==>
          tiles[i] == if 0 < i && (i - x) % width == 0 && Min(y1, y2) <= (i - x) / width < y
                      then Floor else old(tiles[i])
      {
        var idx := XyIdx(width, x, y);
        MulDivMod(width, y);
        if 0 < idx < width * height {
          tiles[idx] := Floor;
        }
        y := y + 1;
      }
    }

    /** Builds a level: up to MAX_ROOMS rooms that do not intersect, each
        after the first joined to its predecessor by a corridor. Besides the
        map it returns, as a ghost value, the corridors it carved. */
    static method NewMapRoomsAndCorridors(ops: RectOps, draws: seq<RoomDraw>)
      returns (m: Map, ghost corridors: seq<Corridor>)
      requires ops.Valid()
      requires |draws| == MAX_ROOMS
      requires forall k :: 0 <= k < |draws| ==> draws[k].InRange()
      ensures fresh(m) && fresh(m.tiles) && m.Valid()
      ensures |m.rooms| <= MAX_ROOMS
      ensures forall k :: 0 <= k < |m.rooms| ==> RoomInGrid(m.rooms[k])
      ensures DrawnFrom(m.rooms, Candidates(ops, draws))
      ensures ops.Disjoint(m.rooms)
      ensures ops.Joins(m.rooms, corridors)
      ensures Layout(m.tiles[..], m.width, m.rooms, corridors)
      ensures Plan(m.rooms, corridors) == ops.Generate(draws)
      ensures |m.rooms| >= 1 && m.rooms[0] == ops.Candidate(draws[0])
    {
      m := new Map();
      corridors := [];
      for attempt := 0 to MAX_ROOMS
        invariant m.Valid() && fresh(m) && fresh(m.tiles)
        invariant forall k :: 0 <= k < |m.rooms| ==> RoomInGrid(m.rooms[k])
        invariant DrawnFrom(m.rooms, Candidates(ops, draws))
        invariant Layout(m.tiles[..], m.width, m.rooms, corridors)
        invariant Plan(m.rooms, corridors) == ops.Generate(draws[..attempt])
      {
        assert draws[..attempt + 1][..attempt] == draws[..attempt];
        ops.GenerateJoins(draws[..attempt]);
        assert ops.Candidate(draws[attempt]) == Candidates(ops, draws)[attempt];
        corridors := m.PlaceAttempt(ops, draws[attempt], corridors);
      }
      assert draws[..MAX_ROOMS] == draws;
      ops.GenerateFirst(draws);
      ops.GenerateDisjoint(draws);
      ops.GenerateJoins(draws);
    }

    /** One iteration of the generator: build the candidate from the draw,
        test it against every room so far, and place it if it is clear. */
    method PlaceAttempt(ops: RectOps, d: RoomDraw, ghost corridors: seq<Corridor>)
      returns (ghost corridors': seq<Corridor>)
      requires Valid() && ops.Valid() && d.InRange()
      requires forall k :: 0 <= k < |rooms| ==> RoomInGrid(rooms[k])
      requires ops.Joins(rooms, corridors)
      requires Layout(tiles[..], width, rooms, corridors)
      modifies this, tiles
      ensures Plan(rooms, corridors') == ops.Step(Plan(old(rooms), corridors), d)
      ensures forall k :: 0 <= k < |rooms| ==> RoomInGrid(rooms[k])
      ensures Layout(tiles[..], width, rooms, corridors')
    {
      var room := ops.make(d.xRoll - 1, d.yRoll - 1, d.w, d.h);
      assert CandidateArgs(d.xRoll - 1, d.yRoll - 1, d.w, d.h);

      var ok := true;
      for j := 0 to |rooms|
        invariant ok <==> forall k :: 0 <= k < j ==> !ops.intersect(room, rooms[k])
      {
        if ops.intersect(room, rooms[j]) {
          ok := false;
        }
      }
      corridors' := corridors;
      if ok {
        corridors' := AddRoom(ops, room, d.coin, corridors);
      }
    }

    /** The accepted-candidate step: carve the room, join it to the previous
        room unless it is the first, and append it to `rooms`. */
    method AddRoom(ops: RectOps, room: Rect, coin: int, ghost corridors: seq<Corridor>)
      returns (ghost corridors': seq<Corridor>)
      requires Valid() && ops.Valid() && RoomInGrid(room)
      requires forall k :: 0 <= k < |rooms| ==> RoomInGrid(rooms[k])
      requires ops.Joins(rooms, corridors)
      requires Layout(tiles[..], width, rooms, corridors)
      modifies this, tiles
      ensures rooms == old(rooms) + [room]
      ensures |old(rooms)| == 0 ==> corridors' == corridors
      ensures |old(rooms)| > 0 ==>
                corridors' == corridors + [Corridor(ops.center(old(rooms)[|old(rooms)| - 1]), ops.center(room), coin == 1)]
      ensures ops.Joins(rooms, corridors')
      ensures Layout(tiles[..], width, rooms, corridors')
    {
      ghost var tiles0 := tiles[..];
      LayoutAddRoom(tiles0, width, rooms, corridors, room);
      ApplyRoomToMap(room);
      corridors' := corridors;
      if |rooms| > 0 {
        var n := ops.center(room);
        var p := ops.center(rooms[|rooms| - 1]);
        ghost var corridor := Corridor(p, n, coin == 1);
        ghost var tiles1 := tiles[..];
        LayoutAddCorridor(tiles1, width, rooms + [room], corridors, corridor);
        ops.JoinsAppend(rooms, corridors, room);
        if coin == 1 {
          ApplyHorizontalTunnel(p.x, n.x, p.y);
          ApplyVerticalTunnel(p.y, n.y, n.x);
        } else {
          ApplyVerticalTunnel(p.y, n.y, p.x);
          ApplyHorizontalTunnel(p.x, n.x, n.y);
        }
        assert tiles[..] == CarveCorridor(tiles1, width, corridor);
        corridors' := corridors + [corridor];
      } else {
        ops.JoinsFirst(room);
      }
      rooms := rooms + [room];
    }
  }

  /** Every room is one of the proposed candidates. */
  predicate DrawnFrom(rooms: seq<Rect>, candidates: seq<Rect>)
  {
    forall k :: 0 <= k < |rooms| ==> rooms[k] in candidates
  }

  lemma DrawnFromAppend(rooms: seq<Rect>, candidates: seq<Rect>, room: Rect)
    requires DrawnFrom(rooms, candidates) && room in candidates
    ensures DrawnFrom(rooms + [room], candidates)
  {
  }

  /** The room each attempt proposes, in attempt order. */
  function Candidates(ops: RectOps, draws: seq<RoomDraw>): (cs: seq<Rect>)
    ensures |cs| == |draws|
  {
    seq(|draws|, a requires 0 <= a < |draws| => ops.Candidate(draws[a]))
  }
}
