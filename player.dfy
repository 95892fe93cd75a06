/**
 * src/service/player.rs: player movement, key pickup events, turning, and the
 * damage the enemies deal to the player in one tick.
 */
module PlayerService {
  import opened Vectors
  import opened Math
  import opened Model
  import opened Seqs
  import opened Constants
  import Service

  /**
   * The player's copy of the collision-gated move: all or nothing. A non-zero
   * move succeeds exactly when no wall meets the destination circle.
   */
  function MovePlayerEntity(n: Numerics, playerEntity: Entity, movement: Vec2, walls: seq<Wall>): (r: Entity)
    ensures r.size == playerEntity.size
    ensures r == playerEntity || r.position == playerEntity.position.Add(movement)
    ensures movement != Zero ==>
      (r.position == playerEntity.position.Add(movement)
       <==> !HitsAnyWall(n, walls, playerEntity.position.Add(movement), playerEntity.size))
    ensures HitsAnyWall(n, walls, playerEntity.position.Add(movement), playerEntity.size) ==> r == playerEntity
  {
    Service.MoveEntity(n, playerEntity, movement, walls)
  }

  /** The displacement of a move: `direction * delta * MOVE_SPEED`. */
  function Displacement(direction: Vec2, delta: real): Vec2 {
    direction.Scale(delta).Scale(MOVE_SPEED)
  }

  /** Moving the player keeps its look direction and moves its circle all or nothing. */
  function MovePlayer(n: Numerics, gameObjects: GameObjects, player: Player, direction: Vec2, delta: real): (r: Player)
    ensures r.look == player.look
    ensures r.entity.size == player.entity.size
    ensures r.entity == player.entity
            || r.entity.position == player.entity.position.Add(Displacement(direction, delta))
    ensures !HitsAnyWall(n, gameObjects.walls, player.entity.position.Add(Displacement(direction, delta)), player.entity.size)
            ==> r.entity.position == player.entity.position.Add(Displacement(direction, delta))
    ensures HitsAnyWall(n, gameObjects.walls, player.entity.position.Add(Displacement(direction, delta)), player.entity.size)
            ==> r == player
  {
    Player(MovePlayerEntity(n, player.entity, Displacement(direction, delta), gameObjects.walls), player.look)
  }

  /** The key's circle overlaps the player's. */
  predicate TouchesPlayer(n: Numerics, player: Player, key: KeyObject) {
    CheckCirclesCollide(n, key.entity.position, key.entity.size, player.entity.position, player.entity.size)
  }

  /** TouchesPlayer as a filter condition. */
  function Touching(n: Numerics, player: Player): KeyObject -> bool {
    k => TouchesPlayer(n, player, k)
  }

  /** The keys the player touches, in key order. */
  function TouchedKeys(n: Numerics, player: Player, keys: seq<KeyObject>): seq<KeyObject> {
    Filter(keys, Touching(n, player))
  }

  /**
   * One `PickUpKey(id)` event per key the player touches, in key order; the
   * key list itself is not changed.
   */
  function CheckPickupKey(n: Numerics, player: Player, keys: seq<KeyObject>): (r: seq<GameEvent>)
    ensures |r| == |TouchedKeys(n, player, keys)|
    ensures forall i :: 0 <= i < |r| ==> r[i] == PickUpKeyId(TouchedKeys(n, player, keys)[i].id)
    decreases |keys|
  {
    if keys == [] then []
    else
      var rest := CheckPickupKey(n, player, keys[1..]);
      if TouchesPlayer(n, player, keys[0]) then [PickUpKeyId(keys[0].id)] + rest else rest
  }

  /** A player touching no key picks none up. */
  lemma NoTouchNoPickup(n: Numerics, player: Player, keys: seq<KeyObject>)
    requires forall i :: 0 <= i < |keys| ==> !TouchesPlayer(n, player, keys[i])
    ensures CheckPickupKey(n, player, keys) == []
  {
    FilterNone(keys, Touching(n, player));
  }

  /** Every event names a key of the list that touches the player. */
  lemma PickupsNameTouchedKeys(n: Numerics, player: Player, keys: seq<KeyObject>, i: nat)
    requires i < |CheckPickupKey(n, player, keys)|
    ensures exists j :: 0 <= j < |keys| && TouchesPlayer(n, player, keys[j])
                        && CheckPickupKey(n, player, keys)[i] == PickUpKeyId(keys[j].id)
  {
    var touched := TouchedKeys(n, player, keys);
    FilterMembers(keys, Touching(n, player));
    var k := touched[i];
    assert k in keys && TouchesPlayer(n, player, k);
    var j :| 0 <= j < |keys| && keys[j] == k;
  }

  /** The first case of the unit test of src/service/player.rs: a key half a unit away is picked up. */
  lemma PickupNearKeyExample(n: Numerics, id: Uuid)
    requires n.sqrt(0.25) == 0.5
    ensures CheckPickupKey(n, Player(Entity(Vec2(0.0, 0.0), 1.0), Zero), [KeyObject(id, Entity(Vec2(0.0, 0.5), 1.0))])
         == [PickUpKeyId(id)]
  {
    NearKeyTouches(n, id);
    assert [KeyObject(id, Entity(Vec2(0.0, 0.5), 1.0))][1..] == [];
  }

  lemma NearKeyTouches(n: Numerics, id: Uuid)
    requires n.sqrt(0.25) == 0.5
    ensures TouchesPlayer(n, Player(Entity(Vec2(0.0, 0.0), 1.0), Zero), KeyObject(id, Entity(Vec2(0.0, 0.5), 1.0)))
  {
    assert Vec2(0.0, 0.5).Sub(Vec2(0.0, 0.0)).LengthSquared() == 0.25;
    assert Distance(n, Vec2(0.0, 0.5), Vec2(0.0, 0.0)) == 0.5;
    assert CheckCirclesCollide(n, Vec2(0.0, 0.5), 1.0, Vec2(0.0, 0.0), 1.0);
  }

  /** The second case: the same key seen from (10, 10) is out of reach. */
  lemma PickupFarKeyExample(n: Numerics, id: Uuid)
    requires SqrtExactAt(n, 190.25)
    ensures CheckPickupKey(n, Player(Entity(Vec2(10.0, 10.0), 1.0), Zero), [KeyObject(id, Entity(Vec2(0.0, 0.5), 1.0))]) == []
  {
    FarKeyMisses(n, id);
  }

  lemma FarKeyMisses(n: Numerics, id: Uuid)
    requires SqrtExactAt(n, 190.25)
    ensures !TouchesPlayer(n, Player(Entity(Vec2(10.0, 10.0), 1.0), Zero), KeyObject(id, Entity(Vec2(0.0, 0.5), 1.0)))
  {
    assert Vec2(0.0, 0.5).Sub(Vec2(10.0, 10.0)).LengthSquared() == 190.25;
    var far := n.sqrt(190.25);
    if far <= 2.0 { SquareMonotone(far, 2.0 + 0.0); }
  }

  /** Turning rotates the look vector about the origin and changes nothing else. */
  function TurnPlayer(n: Numerics, player: Player, theta: real): (r: Player)
    ensures r.entity == player.entity
  {
    Player(player.entity, RotatePoint(n, player.look, Zero, theta))
  }

  /** A turn by 0 leaves the player as it was. */
  lemma TurnByZero(n: Numerics, player: Player)
    requires TrigAtZero(n)
    ensures TurnPlayer(n, player, 0.0) == player
  {
    RotateByZero(n, player.look, Zero);
  }

  /** A turn keeps the length of the look vector. */
  lemma TurnKeepsLookLength(n: Numerics, player: Player, theta: real)
    requires Pythagorean(n)
    ensures TurnPlayer(n, player, theta).look.LengthSquared() == player.look.LengthSquared()
  {
    RotatePreservesRadius(n, player.look, Zero, theta);
    var look := TurnPlayer(n, player, theta).look;
    assert player.look.Sub(Zero) == player.look;
    assert look.Sub(Zero) == look;
  }

  /**
   * An enemy attacks when the player's circle overlaps the attack range around
   * the enemy and no wall crosses the line between them.
   */
  predicate EnemyCanAttackPlayer(n: Numerics, tuning: Tuning, enemy: Enemy, player: Player, walls: seq<Wall>) {
    CheckCirclesCollide(n, player.entity.position, player.entity.size, enemy.entity.position, tuning.enemyAttackRange)
    && !SightBlocked(n, walls, enemy.entity.position, player.entity.position)
  }

  /** Without walls only the distance matters. */
  lemma AttackWithoutWalls(n: Numerics, tuning: Tuning, enemy: Enemy, player: Player)
    ensures EnemyCanAttackPlayer(n, tuning, enemy, player, [])
            <==> Distance(n, player.entity.position, enemy.entity.position) <= player.entity.size + tuning.enemyAttackRange
  {
  }

  /**
   * The distance cases of the unit test of src/service/player.rs: 0.1 beyond
   * reach the enemy cannot attack, 0.1 within reach it can.
   */
  lemma EnemyCanAttackPlayerExamples(n: Numerics, tuning: Tuning, id: Uuid, beyond: real, within: real)
    requires 0.0 <= tuning.enemyAttackRange
    requires beyond == tuning.enemyAttackRange + PLAYER_SIZE + 0.1 && SqrtExactAt(n, beyond * beyond)
    requires within == tuning.enemyAttackRange + PLAYER_SIZE - 0.1 && SqrtExactAt(n, within * within)
    ensures var player := Player(Entity(Zero, PLAYER_SIZE), Zero);
      !EnemyCanAttackPlayer(n, tuning, Enemy(id, Entity(Vec2(0.0, beyond), ENEMY_SIZE), ENEMY_HP), player, [])
      && EnemyCanAttackPlayer(n, tuning, Enemy(id, Entity(Vec2(0.0, within), ENEMY_SIZE), ENEMY_HP), player, [])
  {
    VerticalDistance(n, beyond);
    VerticalDistance(n, within);
  }

  /** EnemyCanAttackPlayer as a filter condition. */
  function Attacking(n: Numerics, tuning: Tuning, player: Player, walls: seq<Wall>): Enemy -> bool {
    e => EnemyCanAttackPlayer(n, tuning, e, player, walls)
  }

  /** The enemies of the tick that attack the player. */
  function Attackers(n: Numerics, tuning: Tuning, gameObjects: GameObjects): seq<Enemy> {
    Filter(gameObjects.enemies, Attacking(n, tuning, gameObjects.player, gameObjects.walls))
  }

  /** The damage of the tick: `hit` for each enemy that `attacks`, summed in enemy order. */
  function TickDamage(enemies: seq<Enemy>, attacks: Enemy -> bool, hit: real): real
    decreases |enemies|
  {
    if enemies == [] then 0.0
    else (if attacks(enemies[0]) then hit else 0.0) + TickDamage(enemies[1..], attacks, hit)
  }

  /** The summed damage is one `hit` per attacker. */
  lemma {:induction false} TickDamagePerAttacker(enemies: seq<Enemy>, attacks: Enemy -> bool, hit: real)
    ensures TickDamage(enemies, attacks, hit) == (|Filter(enemies, attacks)| as real) * hit
    decreases |enemies|
  {
    if enemies != [] {
      TickDamagePerAttacker(enemies[1..], attacks, hit);
      var rest := Filter(enemies[1..], attacks);
      var c := |rest| as real;
      if attacks(enemies[0]) {
        assert Filter(enemies, attacks) == [enemies[0]] + rest;
        assert |Filter(enemies, attacks)| as real == c + 1.0;
        Distribute(c, hit);
      } else {
        assert Filter(enemies, attacks) == rest;
      }
    }
  }

  lemma Distribute(c: real, k: real)
    ensures (c + 1.0) * k == c * k + k
  {
  }

  /**
   * The player's record after the enemies' attacks: health drops by
   * `delta * ENEMY_DPS` per attacker and no other field changes.
   */
  function DealDamageToPlayer(n: Numerics, tuning: Tuning, gameObjects: GameObjects, delta: real): (r: PlayerInfo)
    ensures r == gameObjects.playerInfo.(health := gameObjects.playerInfo.health
                 - (|Attackers(n, tuning, gameObjects)| as real) * (delta * tuning.enemyDps))
    ensures 0.0 <= delta && 0.0 <= tuning.enemyDps ==> r.health <= gameObjects.playerInfo.health
  {
    var hit := delta * tuning.enemyDps;
    var attacks := Attacking(n, tuning, gameObjects.player, gameObjects.walls);
    var damage := TickDamage(gameObjects.enemies, attacks, hit);
    TickDamagePerAttacker(gameObjects.enemies, attacks, hit);
    DamageNonNegative(|Attackers(n, tuning, gameObjects)| as real, delta, tuning.enemyDps);
    gameObjects.playerInfo.(health := gameObjects.playerInfo.health - damage)
  }

  lemma DamageNonNegative(count: real, delta: real, dps: real)
    requires 0.0 <= count
    ensures 0.0 <= delta && 0.0 <= dps ==> 0.0 <= count * (delta * dps)
  {
    if 0.0 <= delta && 0.0 <= dps {
      MulNonNegative(delta, dps);
      MulNonNegative(count, delta * dps);
    }
  }

  /** Some exit trigger's circle overlaps the player's. */
  function IsPlayerAtExit(n: Numerics, gameObjects: GameObjects): (r: bool)
    ensures gameObjects.exitTriggers == [] ==> !r
  {
    exists i :: 0 <= i < |gameObjects.exitTriggers|
      && CheckCirclesCollide(n, gameObjects.exitTriggers[i].position, gameObjects.exitTriggers[i].size,
                             gameObjects.player.entity.position, gameObjects.player.entity.size)
  }

  /** A player standing on the centre of a trigger is at the exit. */
  lemma AtExitOnTrigger(n: Numerics, gameObjects: GameObjects, i: nat)
    requires SqrtOfZero(n)
    requires i < |gameObjects.exitTriggers|
    requires gameObjects.exitTriggers[i].position == gameObjects.player.entity.position
    requires 0.0 <= gameObjects.exitTriggers[i].size && 0.0 <= gameObjects.player.entity.size
    ensures IsPlayerAtExit(n, gameObjects)
  {
    DistanceToSelf(n, gameObjects.player.entity.position);
  }
}
