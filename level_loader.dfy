/**
 * src/level_loader.rs: turning a deserialised level description into the
 * world. A level without keys or without exit triggers is rejected; the
 * source panics there, the model returns the error.
 */
module LevelLoader {
  import opened Wrappers
  import opened Vectors
  import opened Math
  import opened Model
  import opened Assets
  import opened Constants

  /** A `[f32; 2]` of the level file. */
  datatype Point = Point(x: real, y: real)

  datatype LevelWall = LevelWall(start: Point, end: Point, texture: TextureId)

  datatype LevelPlayer = LevelPlayer(position: Point, look: Point)

  datatype LevelExit = LevelExit(position: Point, size: real)

  datatype Level = Level(
    walls: seq<LevelWall>,
    player: LevelPlayer,
    enemies: seq<Point>,
    keys: seq<Point>,
    exitTriggers: seq<LevelExit>)

  datatype LevelError = NoKeys | NoExits

  function ArrayToVec(p: Point): (v: Vec2)
    ensures v.x == p.x && v.y == p.y
  {
    Vec2(p.x, p.y)
  }

  function ConvertWall(w: LevelWall): Wall {
    Wall(w.texture, ArrayToVec(w.start), ArrayToVec(w.end))
  }

  function ConvertEnemy(id: Uuid, p: Point): Enemy {
    Enemy(id, Entity(ArrayToVec(p), ENEMY_SIZE), ENEMY_HP)
  }

  function ConvertKey(id: Uuid, p: Point): KeyObject {
    KeyObject(id, Entity(ArrayToVec(p), KEY_SIZE))
  }

  function ConvertExit(e: LevelExit): Entity {
    Entity(ArrayToVec(e.position), e.size)
  }

  /**
   * The `Into<GameObjects>` conversion. `enemyIds(i)` and `keyIds(i)` stand
   * for the fresh identifiers the source draws for the i-th enemy and key.
   */
  function IntoGameObjects(n: Numerics, tuning: Tuning, level: Level, enemyIds: nat -> Uuid, keyIds: nat -> Uuid)
    : (r: Result<GameObjects, LevelError>)
    ensures r == Err(NoKeys) <==> level.keys == []
    ensures r == Err(NoExits) <==> level.keys != [] && level.exitTriggers == []
    ensures r.Ok? <==> level.keys != [] && level.exitTriggers != []
    ensures r.Ok? ==> var g := r.value;
      && |g.walls| == |level.walls| && |g.enemies| == |level.enemies|
      && |g.keys| == |level.keys| && |g.exitTriggers| == |level.exitTriggers|
      && g.player.entity == Entity(ArrayToVec(level.player.position), PLAYER_SIZE)
      && g.player.look == NormalizeOrZero(n, ArrayToVec(level.player.look))
      && g.playerInfo == tuning.defaultPlayerInfo
      && g.decorations == []
  {
    var player := Player(Entity(ArrayToVec(level.player.position), PLAYER_SIZE), NormalizeOrZero(n, ArrayToVec(level.player.look)));
    var walls := seq(|level.walls|, i requires 0 <= i < |level.walls| => ConvertWall(level.walls[i]));
    var enemies := seq(|level.enemies|, i requires 0 <= i < |level.enemies| => ConvertEnemy(enemyIds(i), level.enemies[i]));
    var keys := seq(|level.keys|, i requires 0 <= i < |level.keys| => ConvertKey(keyIds(i), level.keys[i]));
    if |keys| == 0 then Err(NoKeys)
    else
      var exits := seq(|level.exitTriggers|, i requires 0 <= i < |level.exitTriggers| => ConvertExit(level.exitTriggers[i]));
      if |exits| == 0 then Err(NoExits)
      else Ok(GameObjects(player, tuning.defaultPlayerInfo, walls, enemies, keys, exits, []))
  }

  /** Walls map one to one, with ends and texture copied. */
  lemma WallsCopied(n: Numerics, tuning: Tuning, level: Level, enemyIds: nat -> Uuid, keyIds: nat -> Uuid, i: nat)
    requires IntoGameObjects(n, tuning, level, enemyIds, keyIds).Ok? && i < |level.walls|
    ensures var w := IntoGameObjects(n, tuning, level, enemyIds, keyIds).value.walls[i];
      w.start == ArrayToVec(level.walls[i].start) && w.end == ArrayToVec(level.walls[i].end)
      && w.texture == level.walls[i].texture
  {
  }

  /** Enemies map one to one, of ENEMY_SIZE and full health, each with its fresh id. */
  lemma EnemiesPlaced(n: Numerics, tuning: Tuning, level: Level, enemyIds: nat -> Uuid, keyIds: nat -> Uuid, i: nat)
    requires IntoGameObjects(n, tuning, level, enemyIds, keyIds).Ok? && i < |level.enemies|
    ensures var e := IntoGameObjects(n, tuning, level, enemyIds, keyIds).value.enemies[i];
      e.entity == Entity(ArrayToVec(level.enemies[i]), ENEMY_SIZE) && e.hp == ENEMY_HP && e.id == enemyIds(i)
  {
    var enemies := seq(|level.enemies|, j requires 0 <= j < |level.enemies| => ConvertEnemy(enemyIds(j), level.enemies[j]));
    assert IntoGameObjects(n, tuning, level, enemyIds, keyIds).value.enemies == enemies;
    assert enemies[i] == ConvertEnemy(enemyIds(i), level.enemies[i]);
  }

  /** Keys map one to one, of KEY_SIZE, each with its fresh id. */
  lemma KeysPlaced(n: Numerics, tuning: Tuning, level: Level, enemyIds: nat -> Uuid, keyIds: nat -> Uuid, i: nat)
    requires IntoGameObjects(n, tuning, level, enemyIds, keyIds).Ok? && i < |level.keys|
    ensures var k := IntoGameObjects(n, tuning, level, enemyIds, keyIds).value.keys[i];
      k.entity == Entity(ArrayToVec(level.keys[i]), KEY_SIZE) && k.id == keyIds(i)
  {
    var keys := seq(|level.keys|, j requires 0 <= j < |level.keys| => ConvertKey(keyIds(j), level.keys[j]));
    assert IntoGameObjects(n, tuning, level, enemyIds, keyIds).value.keys == keys;
    assert keys[i] == ConvertKey(keyIds(i), level.keys[i]);
  }

  /** Exit triggers keep the position and size of the level file. */
  lemma ExitsCopied(n: Numerics, tuning: Tuning, level: Level, enemyIds: nat -> Uuid, keyIds: nat -> Uuid, i: nat)
    requires IntoGameObjects(n, tuning, level, enemyIds, keyIds).Ok? && i < |level.exitTriggers|
    ensures IntoGameObjects(n, tuning, level, enemyIds, keyIds).value.exitTriggers[i]
         == Entity(ArrayToVec(level.exitTriggers[i].position), level.exitTriggers[i].size)
  {
  }

  /** A loaded level always has something to pick up and somewhere to leave through. */
  lemma LoadedLevelIsPlayable(n: Numerics, tuning: Tuning, level: Level, enemyIds: nat -> Uuid, keyIds: nat -> Uuid)
    requires IntoGameObjects(n, tuning, level, enemyIds, keyIds).Ok?
    ensures IntoGameObjects(n, tuning, level, enemyIds, keyIds).value.keys != []
    ensures IntoGameObjects(n, tuning, level, enemyIds, keyIds).value.exitTriggers != []
  {
  }

  /** A zero look direction stays zero instead of becoming NaN. */
  lemma ZeroLookStaysZero(n: Numerics, tuning: Tuning, level: Level, enemyIds: nat -> Uuid, keyIds: nat -> Uuid)
    requires SqrtOfZero(n)
    requires level.player.look == Point(0.0, 0.0)
    requires IntoGameObjects(n, tuning, level, enemyIds, keyIds).Ok?
    ensures IntoGameObjects(n, tuning, level, enemyIds, keyIds).value.player.look == Zero
  {
  }
}
