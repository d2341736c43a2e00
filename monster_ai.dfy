/** The monster AI pass of src/monster_ai_system.rs: every monster that can
    see the player takes one step along a shortest path towards it. The A*
    search itself belongs to rltk and is a parameter here. */
module MonsterAi {
  import opened Grid
  import opened Components

  /** rltk's A* result: grid indices from start to goal, both included. */
  datatype NavigationPath = NavigationPath(success: bool, steps: seq<nat>)

  /** The entities the system joins over: Viewshed, Monster, Name and Position. */
  predicate IsAiMonster(e: Entity)
  {
    e.viewshed.Some? && e.monster && e.name.Some? && e.position.Some?
  }

  /** A coordinate that converts to `usize` without wrapping. */
  predicate NonNegative(p: Point)
  {
    0 <= p.x && 0 <= p.y
  }

  predicate CanPlan(e: Entity)
  {
    IsAiMonster(e) ==> NonNegative(e.position.value)
  }

  predicate SeesPlayer(e: Entity, playerPos: Point)
    requires IsAiMonster(e)
  {
    playerPos in e.viewshed.value.visibleTiles
  }

  /** The path the system requests for a monster. */
  function PathFor(e: Entity, playerPos: Point, width: int, aStar: (nat, nat) -> NavigationPath): (r: NavigationPath)
    requires 0 < width && NonNegative(playerPos) && IsAiMonster(e) && CanPlan(e)
  {
    aStar(XyIdx(width, e.position.value.x, e.position.value.y), XyIdx(width, playerPos.x, playerPos.y))
  }

  /** One entity's update in the pass. */
  function MonsterStep(e: Entity, playerPos: Point, width: int, aStar: (nat, nat) -> NavigationPath): (r: Entity)
    requires 0 < width && NonNegative(playerPos) && CanPlan(e)
    ensures !IsAiMonster(e) ==> r == e
    ensures IsAiMonster(e) && !SeesPlayer(e, playerPos) ==> r == e
    ensures r == e || (IsAiMonster(e) && SeesPlayer(e, playerPos) &&
                       r == e.(position := r.position, viewshed := Some(e.viewshed.value.(dirty := true))))
    ensures r.position.Some? <==> e.position.Some?
  {
    if IsAiMonster(e) && SeesPlayer(e, playerPos) then
      var path := PathFor(e, playerPos, width, aStar);
      if path.success && |path.steps| > 1 then
        e.(position := Some(Point(path.steps[1] % width, path.steps[1] / width)),
           viewshed := Some(e.viewshed.value.(dirty := true)))
      else
        e
    else
      e
  }

  /** A monster that sees the player moves exactly when the search succeeded
      with more than one step; it then stands on the cell `steps[1]`, in
      the grid's row-major numbering, and its viewshed is dirty. */
  lemma MonsterMovesOneStep(e: Entity, playerPos: Point, width: int, aStar: (nat, nat) -> NavigationPath)
    requires 0 < width && NonNegative(playerPos) && IsAiMonster(e) && CanPlan(e)
    requires SeesPlayer(e, playerPos)
    ensures var path := PathFor(e, playerPos, width, aStar);
            var r := MonsterStep(e, playerPos, width, aStar);
            if path.success && |path.steps| > 1 then
              r.position.Some? && 0 <= r.position.value.x < width && NonNegative(r.position.value) &&
              XyIdx(width, r.position.value.x, r.position.value.y) == path.steps[1] &&
              r.viewshed.Some? && r.viewshed.value.dirty
            else
              r == e
  {
  }

  /** `MonsterAiSystem::run`: the pass over all entities, in place. */
  method Run(grid: Map, playerPos: Point, entities: array<Entity>, aStar: (nat, nat) -> NavigationPath)
    requires grid.Valid() && NonNegative(playerPos)
    requires forall k :: 0 <= k < entities.Length ==> CanPlan(entities[k])
    modifies entities
    ensures forall k :: 0 <= k < entities.Length ==>
      entities[k] == MonsterStep(old(entities[k]), playerPos, grid.width, aStar)
  {
    for k := 0 to entities.Length
      invariant forall j :: 0 <= j < k ==> entities[j] == MonsterStep(old(entities[j]), playerPos, grid.width, aStar)
      invariant forall j :: k <= j < entities.Length ==> entities[j] == old(entities[j])
    {
      var e := entities[k];
      if IsAiMonster(e) {
        var viewshed, pos := e.viewshed.value, e.position.value;
        if playerPos in viewshed.visibleTiles {
          var path := aStar(XyIdx(grid.width, pos.x, pos.y), XyIdx(grid.width, playerPos.x, playerPos.y));
          if path.success && |path.steps| > 1 {
            entities[k] := e.(position := Some(Point(path.steps[1] % grid.width, path.steps[1] / grid.width)),
                              viewshed := Some(viewshed.(dirty := true)));
          }
        }
      }
    }
  }
}
