/** The entity records the systems of src/monster_ai_system.rs and
    src/player.rs join over. Each component storage of the ECS becomes an
    optional field (or a marker flag) of one record per entity. */
module Components {
  import opened Grid

  datatype Option<T> = None | Some(value: T)

  /** What an actor sees; `dirty` asks for the visible set to be recomputed. */
  datatype Viewshed = Viewshed(visibleTiles: seq<Point>, range: int, dirty: bool)

  datatype Entity = Entity(
    position: Option<Point>,
    viewshed: Option<Viewshed>,
    name: Option<string>,
    monster: bool,
    player: bool)
}
