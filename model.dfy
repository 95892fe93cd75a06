/**
 * The world data shared by the simulation services: entities, the weapon
 * state of the player, the events the passes emit, and the level aggregate.
 */
module Model {
  import opened Wrappers
  import opened Vectors
  import opened Math
  import opened Assets

  /** Enemy identifiers (a `Uuid` in the source) are compared for equality only. */
  type Uuid = nat

  /** A circle in the plane: everything that moves or collides is one. */
  datatype Entity = Entity(position: Vec2, size: real)

  datatype Player = Player(entity: Entity, look: Vec2)

  datatype Wall = Wall(texture: TextureId, start: Vec2, end: Vec2)

  datatype ShootingStatus = Shooting | NotShooting | Reloading

  datatype PlayerInfo = PlayerInfo(
    shootingStatus: ShootingStatus,
    timeSinceLastShot: real,
    bullets: nat,
    pickedUpKeys: nat,
    health: real)

  /**
   * The events the simulation passes return instead of changing the world.
   * `PickUpKey` is the payload-free event of src/service/key.rs, `PickUpKeyId`
   * the one of src/service/player.rs that names the key.
   */
  datatype GameEvent =
    | PickUpKey
    | PickUpKeyId(keyId: Uuid)
    | EnemyKilled(position: Vec2)
    | LocationShot(position: Vec2)
    | PlayerTakeDamage(amount: real)

  /** The enemy record of src/model/enemy.rs. */
  datatype Enemy = Enemy(id: Uuid, entity: Entity, hp: real)

  datatype KeyObject = KeyObject(id: Uuid, entity: Entity)

  datatype Projectile = Projectile(entity: Entity, direction: Vec2, damage: real, texture: TextureId)

  /** src/model/decoration.rs: a sprite on the map with an optional lifetime in seconds. */
  datatype Decoration = Decoration(
    entity: Entity,
    textures: seq<TextureId>,
    animationSpeed: nat,
    life: Option<real>,
    offset: real)

  datatype GameObjects = GameObjects(
    player: Player,
    playerInfo: PlayerInfo,
    walls: seq<Wall>,
    enemies: seq<Enemy>,
    keys: seq<KeyObject>,
    exitTriggers: seq<Entity>,
    decorations: seq<Decoration>)

  /**
   * Values the services use that are not defined in the constants file of
   * this snapshot; each caller passes them in.
   */
  datatype Tuning = Tuning(
    enemyDps: real,
    turnSpeed: real,
    enemyAttackRange: real,
    enemyMoveSpeed: real,
    enemyDrawSizeMod: real,
    exitTextSize: real,
    exitTextHeightOffset: real,
    defaultTexture: TextureId,
    defaultPlayerInfo: PlayerInfo)

  /** Some wall's segment meets the circle of `radius` around `center`. */
  predicate HitsAnyWall(n: Numerics, walls: seq<Wall>, center: Vec2, radius: real) {
    exists i :: 0 <= i < |walls| && LineIntersectsCircle(n, walls[i].start, walls[i].end, center, radius)
  }

  /** The filter condition "this wall meets the circle of `radius` around `center`". */
  function MeetsCircle(n: Numerics, center: Vec2, radius: real): Wall -> bool {
    (w: Wall) => LineIntersectsCircle(n, w.start, w.end, center, radius)
  }

  /** Some wall crosses the segment from `from` to `to` in a single point. */
  predicate SightBlocked(n: Numerics, walls: seq<Wall>, from: Vec2, to: Vec2) {
    exists i :: 0 <= i < |walls| && FindIntersection(n, from, to, walls[i].start, walls[i].end).Some?
  }
}
