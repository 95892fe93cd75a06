/**
 * src/service/enemy.rs: the enemy's line of attack, its chase step with the
 * sidestep fallback along blocking walls, and the per-tick enemy pass.
 */
module EnemyService {
  import opened Wrappers
  import opened Vectors
  import opened Math
  import opened Model
  import opened Seqs
  import opened ArgMin
  import opened Constants

  /** The walls meeting the entity's circle, in wall order. */
  function IntersectingWalls(n: Numerics, entity: Entity, walls: seq<Wall>): seq<Wall> {
    Filter(walls, MeetsCircle(n, entity.position, entity.size))
  }

  /** No wall is collected exactly when no wall meets the circle. */
  lemma IntersectingWallsEmpty(n: Numerics, entity: Entity, walls: seq<Wall>)
    ensures IntersectingWalls(n, entity, walls) == [] <==> !HitsAnyWall(n, walls, entity.position, entity.size)
  {
    var p := MeetsCircle(n, entity.position, entity.size);
    FilterMembers(walls, p);
    if !HitsAnyWall(n, walls, entity.position, entity.size) {
      FilterNone(walls, p);
    }
  }

  /**
   * An enemy can attack when the player's circle overlaps the circle of the
   * attack range around the enemy and no wall crosses the line between them.
   */
  predicate EnemyCanAttackPlayer(n: Numerics, enemyEntity: Entity, enemyAttackRange: real, player: Player, walls: seq<Wall>) {
    CheckCirclesCollide(n, player.entity.position, player.entity.size, enemyEntity.position, enemyAttackRange)
    && !SightBlocked(n, walls, enemyEntity.position, player.entity.position)
  }

  /** Without walls only the distance matters. */
  lemma AttackWithoutWalls(n: Numerics, enemyEntity: Entity, enemyAttackRange: real, player: Player)
    ensures EnemyCanAttackPlayer(n, enemyEntity, enemyAttackRange, player, [])
            <==> Distance(n, player.entity.position, enemyEntity.position) <= player.entity.size + enemyAttackRange
  {
  }

  /** A wall that the segment from the enemy to the player crosses in one point blocks the attack. */
  lemma WallBlocksAttack(n: Numerics, enemyEntity: Entity, enemyAttackRange: real, player: Player, walls: seq<Wall>, i: nat)
    requires i < |walls|
    requires var hit := n.lineIntersection(enemyEntity.position, player.entity.position, walls[i].start, walls[i].end);
      hit.Some? && hit.value.SinglePoint?
    ensures !EnemyCanAttackPlayer(n, enemyEntity, enemyAttackRange, player, walls)
  {
    assert FindIntersection(n, enemyEntity.position, player.entity.position, walls[i].start, walls[i].end).Some?;
  }

  /** The condition "an entity of this size at that position touches no wall". */
  function IsFree(n: Numerics, walls: seq<Wall>, size: real): Vec2 -> bool {
    p => IntersectingWalls(n, Entity(p, size), walls) == []
  }

  /** The key of the sidestep choice: the distance to the player. */
  function DistanceTo(n: Numerics, target: Vec2): Vec2 -> real {
    p => Distance(n, p, target)
  }

  /** The positions `enemy + dir`, one per offered direction, in order. */
  function SidestepCandidates(position: Vec2, hitWallDirections: seq<Vec2>): (r: seq<Vec2>)
    ensures |r| == |hitWallDirections|
    ensures forall i :: 0 <= i < |r| ==> r[i] == position.Add(hitWallDirections[i])
  {
    seq(|hitWallDirections|, i requires 0 <= i < |hitWallDirections| => position.Add(hitWallDirections[i]))
  }

  /**
   * Among the positions `enemy + dir`, for each offered direction, that touch
   * no wall, the first one nearest to the player; the entity unchanged when
   * none is free.
   */
  function MoveEnemyToSides(n: Numerics, player: Player, enemyEntity: Entity, walls: seq<Wall>, hitWallDirections: seq<Vec2>): (r: Entity)
    ensures r.size == enemyEntity.size
    ensures (forall i :: 0 <= i < |hitWallDirections|
               ==> !IsFree(n, walls, enemyEntity.size)(enemyEntity.position.Add(hitWallDirections[i])))
            ==> r == enemyEntity
    ensures r == enemyEntity
            || (exists i :: 0 <= i < |hitWallDirections|
                 && r.position == enemyEntity.position.Add(hitWallDirections[i])
                 && IsFree(n, walls, enemyEntity.size)(r.position))
    ensures forall i :: 0 <= i < |hitWallDirections|
              && IsFree(n, walls, enemyEntity.size)(enemyEntity.position.Add(hitWallDirections[i]))
              ==> IsFree(n, walls, enemyEntity.size)(r.position)
                  && Distance(n, r.position, player.entity.position)
                     <= Distance(n, enemyEntity.position.Add(hitWallDirections[i]), player.entity.position)
    ensures (exists i :: 0 <= i < |hitWallDirections|
               && IsFree(n, walls, enemyEntity.size)(enemyEntity.position.Add(hitWallDirections[i])))
            ==> exists i :: IsFirstMinimalWhere(SidestepCandidates(enemyEntity.position, hitWallDirections),
                                                IsFree(n, walls, enemyEntity.size),
                                                DistanceTo(n, player.entity.position), i)
                         && r == Entity(SidestepCandidates(enemyEntity.position, hitWallDirections)[i], enemyEntity.size)
  {
    var candidates := SidestepCandidates(enemyEntity.position, hitWallDirections);
    var free := Filter(candidates, IsFree(n, walls, enemyEntity.size));
    FilterMembers(candidates, IsFree(n, walls, enemyEntity.size));
    MinByOfFilter(candidates, IsFree(n, walls, enemyEntity.size), DistanceTo(n, player.entity.position));
    match MinBy(free, DistanceTo(n, player.entity.position))
    case None =>
      enemyEntity
    case Some(p) =>
      Entity(p, enemyEntity.size)
  }

  /** The chase step: `normalize_or_zero(player - enemy) * ENEMY_MOVE_SPEED * delta`. */
  function ChaseStep(n: Numerics, tuning: Tuning, player: Player, enemyEntity: Entity, delta: real): Vec2 {
    NormalizeOrZero(n, player.entity.position.Sub(enemyEntity.position)).Scale(tuning.enemyMoveSpeed).Scale(delta)
  }

  /** One sidestep per blocking wall: `normalize_or_zero(start - end) * delta * MOVE_SPEED`, never its negation. */
  function WallDirections(n: Numerics, hitWalls: seq<Wall>, delta: real): (r: seq<Vec2>)
    ensures |r| == |hitWalls|
    ensures forall i :: 0 <= i < |r| ==>
      r[i] == NormalizeOrZero(n, hitWalls[i].start.Sub(hitWalls[i].end)).Scale(delta).Scale(MOVE_SPEED)
  {
    seq(|hitWalls|, i requires 0 <= i < |hitWalls| =>
      NormalizeOrZero(n, hitWalls[i].start.Sub(hitWalls[i].end)).Scale(delta).Scale(MOVE_SPEED))
  }

  /**
   * The enemy's move for one tick: nothing beyond the chase distance, else the
   * direct step when it touches no wall, else the best free sidestep along
   * the walls the direct step would touch.
   */
  function MoveEnemy(n: Numerics, tuning: Tuning, player: Player, enemyEntity: Entity, walls: seq<Wall>, delta: real): (r: Entity)
    ensures r.size == enemyEntity.size
    ensures Length(n, player.entity.position.Sub(enemyEntity.position)) > ENEMY_MAX_CHASE_DISTANCE ==> r == enemyEntity
    ensures var step := Entity(enemyEntity.position.Add(ChaseStep(n, tuning, player, enemyEntity, delta)), enemyEntity.size);
      Length(n, player.entity.position.Sub(enemyEntity.position)) <= ENEMY_MAX_CHASE_DISTANCE
      && !HitsAnyWall(n, walls, step.position, step.size)
      ==> r == step
    ensures var step := Entity(enemyEntity.position.Add(ChaseStep(n, tuning, player, enemyEntity, delta)), enemyEntity.size);
      var dirs := WallDirections(n, IntersectingWalls(n, step, walls), delta);
      r == enemyEntity || r == step
      || (exists i :: 0 <= i < |dirs| && r.position == enemyEntity.position.Add(dirs[i])
                      && IsFree(n, walls, enemyEntity.size)(r.position))
  {
    var vectorTowardsPlayer := player.entity.position.Sub(enemyEntity.position);
    if Length(n, vectorTowardsPlayer) > ENEMY_MAX_CHASE_DISTANCE then enemyEntity
    else
      var newEntity := Entity(enemyEntity.position.Add(ChaseStep(n, tuning, player, enemyEntity, delta)), enemyEntity.size);
      var intersections := IntersectingWalls(n, newEntity, walls);
      IntersectingWallsEmpty(n, newEntity, walls);
      if intersections == [] then newEntity
      else MoveEnemyToSides(n, player, enemyEntity, walls, WallDirections(n, intersections, delta))
  }

  /** The far case of the unit test of src/service/enemy.rs: an enemy 50 units away does not move. */
  lemma FarEnemyStaysExample(n: Numerics, tuning: Tuning, walls: seq<Wall>, delta: real)
    requires n.sqrt(2500.0) == 50.0
    ensures var enemy := Entity(Vec2(50.0, 0.0), ENEMY_SIZE);
      MoveEnemy(n, tuning, Player(Entity(Vec2(0.0, 0.0), PLAYER_SIZE), Zero), enemy, walls, delta) == enemy
  {
    assert Vec2(0.0, 0.0).Sub(Vec2(50.0, 0.0)).LengthSquared() == 2500.0;
  }

  /**
   * The per-tick enemy pass, with each enemy's own update:
   * the updated enemies in order, and their events concatenated in enemy order.
   */
  function UpdateEnemies<E>(enemies: seq<E>, update: E -> (E, seq<GameEvent>)): (r: (seq<E>, seq<GameEvent>))
    ensures |r.0| == |enemies|
    ensures forall i :: 0 <= i < |enemies| ==> r.0[i] == update(enemies[i]).0
    ensures r.1 == Flatten(seq(|enemies|, i requires 0 <= i < |enemies| => update(enemies[i]).1))
    decreases |enemies|
  {
    if enemies == [] then ([], [])
    else
      var (first, events) := update(enemies[0]);
      var (rest, restEvents) := UpdateEnemies(enemies[1..], update);
      var perEnemy := seq(|enemies|, i requires 0 <= i < |enemies| => update(enemies[i]).1);
      assert perEnemy[1..] == seq(|enemies| - 1, i requires 0 <= i < |enemies| - 1 => update(enemies[1..][i]).1);
      ([first] + rest, events + restEvents)
  }
}
