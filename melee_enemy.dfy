/**
 * src/model/melee_enemy.rs: the melee enemy, the one implementation of the
 * enemy behaviour; its `get_id` and `get_hp` are the `id` and `hp` fields.
 */
module MeleeEnemies {
  import opened Vectors
  import opened Math
  import opened Model
  import opened Constants
  import opened EnemyService

  datatype MeleeEnemy = MeleeEnemy(id: Uuid, entity: Entity, hp: real)

  /**
   * One tick: the enemy moves, and then, from where it arrived, attacks the
   * player for `delta * ENEMY_DPS` when it can. Identity and health stay.
   */
  function Update(n: Numerics, tuning: Tuning, enemy: MeleeEnemy, player: Player, walls: seq<Wall>, delta: real): (r: (MeleeEnemy, seq<GameEvent>))
    ensures r.0.id == enemy.id && r.0.hp == enemy.hp
    ensures r.0.entity == MoveEnemy(n, tuning, player, enemy.entity, walls, delta)
    ensures r.0.entity.size == enemy.entity.size
    ensures |r.1| <= 1
    ensures r.1 != [] <==> EnemyCanAttackPlayer(n, r.0.entity, tuning.enemyAttackRange, player, walls)
    ensures forall i :: 0 <= i < |r.1| ==> r.1[i] == PlayerTakeDamage(delta * tuning.enemyDps)
  {
    var newEntity := MoveEnemy(n, tuning, player, enemy.entity, walls, delta);
    var events := if EnemyCanAttackPlayer(n, newEntity, tuning.enemyAttackRange, player, walls)
      then [PlayerTakeDamage(delta * tuning.enemyDps)] else [];
    (enemy.(entity := newEntity), events)
  }

  /** The enemy after a hit of `damage`: only the health changes. */
  function TakeDamage(enemy: MeleeEnemy, damage: real): (r: MeleeEnemy)
    ensures r.id == enemy.id && r.entity == enemy.entity
    ensures r.hp == enemy.hp - damage
  {
    enemy.(hp := enemy.hp - damage)
  }

  /** Two hits add up. */
  lemma TakeDamageTwice(enemy: MeleeEnemy, d1: real, d2: real)
    ensures TakeDamage(TakeDamage(enemy, d1), d2) == TakeDamage(enemy, d1 + d2)
  {
  }

  /** The drawn size: the collision size scaled by ENEMY_DRAW_SIZE_MOD. */
  function GetSize(tuning: Tuning, enemy: MeleeEnemy): (r: real)
    ensures 0.0 <= enemy.entity.size && 0.0 <= tuning.enemyDrawSizeMod ==> 0.0 <= r
  {
    var size := enemy.entity.size * tuning.enemyDrawSizeMod;
    if 0.0 <= enemy.entity.size && 0.0 <= tuning.enemyDrawSizeMod then
      MulNonNegative(enemy.entity.size, tuning.enemyDrawSizeMod);
      size
    else size
  }

  /** A fresh enemy at the origin with the standard size and health; the id is the caller's. */
  function Default(id: Uuid): (r: MeleeEnemy)
    ensures r.id == id && r.entity.position == Zero
    ensures r.entity.size == ENEMY_SIZE && r.hp == ENEMY_HP
  {
    MeleeEnemy(id, Entity(Zero, ENEMY_SIZE), ENEMY_HP)
  }

  /** A fresh enemy survives one gunshot and is dead after the second. */
  lemma TwoShotsKill(id: Uuid)
    ensures TakeDamage(Default(id), GUN_DAMAGE).hp > 0.0
    ensures TakeDamage(TakeDamage(Default(id), GUN_DAMAGE), GUN_DAMAGE).hp <= 0.0
  {
  }

  /** Every event is a `PlayerTakeDamage(amount)`. */
  predicate OnlyDamage(events: seq<GameEvent>, amount: real) {
    forall i :: 0 <= i < |events| ==> events[i] == PlayerTakeDamage(amount)
  }

  /** The per-tick pass over melee enemies: ids and health are kept, and damage events are the only events. */
  function UpdateMeleeEnemies(n: Numerics, tuning: Tuning, enemies: seq<MeleeEnemy>, player: Player, walls: seq<Wall>, delta: real): (r: (seq<MeleeEnemy>, seq<GameEvent>))
    ensures |r.0| == |enemies|
    ensures forall i :: 0 <= i < |enemies| ==> r.0[i].id == enemies[i].id && r.0[i].hp == enemies[i].hp
    ensures OnlyDamage(r.1, delta * tuning.enemyDps)
  {
    var update := (e: MeleeEnemy) => Update(n, tuning, e, player, walls, delta);
    var r := UpdateEnemies(enemies, update);
    assert forall i :: 0 <= i < |enemies| ==> r.0[i] == Update(n, tuning, enemies[i], player, walls, delta).0;
    assert forall e :: OnlyDamage(update(e).1, delta * tuning.enemyDps);
    DamageOnly(enemies, update, delta * tuning.enemyDps);
    r
  }

  /** When every update emits only damage events of one amount, so does the pass. */
  lemma {:induction false} DamageOnly(enemies: seq<MeleeEnemy>, update: MeleeEnemy -> (MeleeEnemy, seq<GameEvent>), amount: real)
    requires forall e :: OnlyDamage(update(e).1, amount)
    ensures OnlyDamage(UpdateEnemies(enemies, update).1, amount)
    decreases |enemies|
  {
    if enemies != [] {
      DamageOnly(enemies[1..], update, amount);
      var first := update(enemies[0]).1;
      var rest := UpdateEnemies(enemies[1..], update).1;
      assert UpdateEnemies(enemies, update).1 == first + rest;
      assert OnlyDamage(first, amount);
      forall i | 0 <= i < |first + rest|
        ensures (first + rest)[i] == PlayerTakeDamage(amount)
      {
        if i >= |first| {
          assert (first + rest)[i] == rest[i - |first|];
        }
      }
    }
  }
}
