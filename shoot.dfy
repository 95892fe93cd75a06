/**
 * src/service/shoot.rs: the weapon state machine of the player, the
 * hit-scan shot and its damage, and the decorations a shot leaves behind.
 */
module Shoot {
  import opened Wrappers
  import opened Vectors
  import opened Math
  import opened Model
  import Assets
  import opened Constants
  import opened Seqs
  import opened ArgMin
  import Rays

  // ---------------------------------------------------------------------
  // The weapon state machine
  // ---------------------------------------------------------------------

  function UpdateShootShooting(t: real, info: PlayerInfo): (PlayerInfo, bool) {
    if info.bullets == 0 then (info.(shootingStatus := Reloading, timeSinceLastShot := t), false)
    else if t < SHOOT_SPEED then (info.(timeSinceLastShot := t), false)
    else if info.bullets == 1 then (info.(shootingStatus := Reloading, timeSinceLastShot := 0.0, bullets := 0), true)
    else (info.(timeSinceLastShot := 0.0, bullets := info.bullets - 1), true)
  }

  function UpdateShootNotShooting(t: real, info: PlayerInfo): (PlayerInfo, bool) {
    if t >= RELOAD_SPEED then (info.(timeSinceLastShot := t, bullets := MAX_BULLETS), false)
    else (info.(timeSinceLastShot := t), false)
  }

  function UpdateShootReloading(t: real, info: PlayerInfo): (PlayerInfo, bool) {
    if t >= RELOAD_SPEED then (info.(shootingStatus := NotShooting, timeSinceLastShot := t, bullets := MAX_BULLETS), false)
    else (info.(timeSinceLastShot := t), false)
  }

  /**
   * One tick of the weapon: the timer advances by `delta`, a shot is fired
   * exactly when the trigger is held, a bullet is left and the gun is ready,
   * and firing resets the timer and spends one bullet, the last one starting
   * a reload. A tick that does not fire keeps the advanced timer, and neither
   * health nor keys ever change.
   */
  function UpdateShoot(info: PlayerInfo, delta: real): (r: (PlayerInfo, bool))
    ensures r.1 <==> info.shootingStatus == Shooting && info.bullets > 0
                     && info.timeSinceLastShot + delta >= SHOOT_SPEED
    ensures r.1 ==> r.0.timeSinceLastShot == 0.0 && r.0.bullets == info.bullets - 1
    ensures r.1 ==> (r.0.shootingStatus == Reloading <==> info.bullets == 1)
    ensures r.1 ==> (r.0.shootingStatus == Shooting <==> info.bullets > 1)
    ensures !r.1 ==> r.0.timeSinceLastShot == info.timeSinceLastShot + delta
    ensures r.0.health == info.health && r.0.pickedUpKeys == info.pickedUpKeys
  {
    var t := info.timeSinceLastShot + delta;
    match info.shootingStatus
    case Shooting => UpdateShootShooting(t, info)
    case NotShooting => UpdateShootNotShooting(t, info)
    case Reloading => UpdateShootReloading(t, info)
  }

  /** Holding the trigger without bullets starts a reload and keeps the magazine empty. */
  lemma EmptyMagazineReloads(info: PlayerInfo, delta: real)
    requires info.shootingStatus == Shooting && info.bullets == 0
    ensures UpdateShoot(info, delta) == (info.(shootingStatus := Reloading, timeSinceLastShot := info.timeSinceLastShot + delta), false)
  {
  }

  /** Holding the trigger before the gun is ready changes only the timer. */
  lemma NotReadyOnlyWaits(info: PlayerInfo, delta: real)
    requires info.shootingStatus == Shooting && info.bullets > 0 && info.timeSinceLastShot + delta < SHOOT_SPEED
    ensures UpdateShoot(info, delta) == (info.(timeSinceLastShot := info.timeSinceLastShot + delta), false)
  {
  }

  /**
   * Without the trigger held the gun never fires and never resets its timer;
   * once RELOAD_SPEED has passed the magazine is full and a reload is over.
   */
  lemma IdleGunRefills(info: PlayerInfo, delta: real)
    requires info.shootingStatus != Shooting
    ensures var t := info.timeSinceLastShot + delta;
      && (t >= RELOAD_SPEED ==> UpdateShoot(info, delta) == (info.(shootingStatus := NotShooting, timeSinceLastShot := t, bullets := MAX_BULLETS), false))
      && (t < RELOAD_SPEED ==> UpdateShoot(info, delta) == (info.(timeSinceLastShot := t), false))
  {
  }

  /** The magazine never holds more than MAX_BULLETS. */
  lemma BulletsStayBounded(info: PlayerInfo, delta: real)
    requires info.bullets <= MAX_BULLETS
    ensures UpdateShoot(info, delta).0.bullets <= MAX_BULLETS
  {
  }

  /** The cases of the unit tests of src/service/shoot.rs. */
  lemma UpdateShootExamples(info: PlayerInfo)
    ensures var i := info.(bullets := 5, shootingStatus := Shooting, timeSinceLastShot := SHOOT_SPEED);
      UpdateShoot(i, 0.0).0.bullets == 4 && UpdateShoot(i, 0.0).1
    ensures var i := info.(bullets := 5, shootingStatus := Shooting, timeSinceLastShot := SHOOT_SPEED - 0.1);
      UpdateShoot(i, 0.0).0.bullets == 5 && !UpdateShoot(i, 0.0).1
    ensures var i := info.(bullets := 1, shootingStatus := Shooting, timeSinceLastShot := SHOOT_SPEED);
      UpdateShoot(i, 0.0).0.bullets == 0 && UpdateShoot(i, 0.0).0.shootingStatus == Reloading && UpdateShoot(i, 0.0).1
    ensures var i := info.(bullets := 0, shootingStatus := Shooting, timeSinceLastShot := SHOOT_SPEED);
      UpdateShoot(i, 0.0).0.bullets == 0 && UpdateShoot(i, 0.0).0.shootingStatus == Reloading && !UpdateShoot(i, 0.0).1
    ensures var i := info.(bullets := 5, shootingStatus := NotShooting, timeSinceLastShot := RELOAD_SPEED * 0.5);
      UpdateShoot(i, RELOAD_SPEED * 0.4).0.bullets == 5 && !UpdateShoot(i, RELOAD_SPEED * 0.4).1
    ensures var i := info.(bullets := 0, shootingStatus := NotShooting, timeSinceLastShot := RELOAD_SPEED * 0.95);
      UpdateShoot(i, RELOAD_SPEED * 0.1).0.bullets == MAX_BULLETS && !UpdateShoot(i, RELOAD_SPEED * 0.1).1
    ensures var i := info.(bullets := 0, shootingStatus := Reloading, timeSinceLastShot := RELOAD_SPEED - 0.5);
      UpdateShoot(i, 0.4).0.bullets == 0 && UpdateShoot(i, 0.4).0.shootingStatus == Reloading && !UpdateShoot(i, 0.4).1
    ensures var i := info.(bullets := 0, shootingStatus := Reloading, timeSinceLastShot := RELOAD_SPEED - 0.5);
      UpdateShoot(i, 0.6).0.bullets == MAX_BULLETS && UpdateShoot(i, 0.6).0.shootingStatus == NotShooting && !UpdateShoot(i, 0.6).1
  {
  }

  /** Pressing the trigger: only a gun at rest starts shooting; nothing but the status changes. */
  function StartShooting(info: PlayerInfo): (r: PlayerInfo)
    ensures r.(shootingStatus := info.shootingStatus) == info
    ensures r.shootingStatus == (if info.shootingStatus == NotShooting then Shooting else info.shootingStatus)
  {
    if info.shootingStatus == NotShooting then info.(shootingStatus := Shooting) else info
  }

  /** Releasing the trigger: only a shooting gun comes to rest; a reload goes on. */
  function StopShooting(info: PlayerInfo): (r: PlayerInfo)
    ensures r.(shootingStatus := info.shootingStatus) == info
    ensures r.shootingStatus == (if info.shootingStatus == Shooting then NotShooting else info.shootingStatus)
  {
    if info.shootingStatus == Shooting then info.(shootingStatus := NotShooting) else info
  }

  /** Press then release is no change unless the gun was already shooting; a reload is never interrupted. */
  lemma PressRelease(info: PlayerInfo)
    ensures info.shootingStatus != Shooting ==> StopShooting(StartShooting(info)) == info
    ensures info.shootingStatus == Reloading ==> StartShooting(info) == info && StopShooting(info) == info
  {
  }

  // ---------------------------------------------------------------------
  // The hit-scan shot
  // ---------------------------------------------------------------------

  /** The far end of the shot: MAX_SHOOT_DISTANCE along the normalised look. */
  function ShootRay(n: Numerics, player: Player): Vec2 {
    player.entity.position.Add(NormalizeOrZero(n, player.look).Scale(MAX_SHOOT_DISTANCE))
  }

  /** Where the shot crosses `wall`, with its distance from the player. */
  function WallHit(n: Numerics, player: Player, wall: Wall): (r: Option<(real, Vec2)>)
    ensures r.Some? <==> FindIntersection(n, player.entity.position, ShootRay(n, player), wall.start, wall.end).Some?
    ensures r.Some? ==> r.value.1 == FindIntersection(n, player.entity.position, ShootRay(n, player), wall.start, wall.end).value
    ensures r.Some? ==> r.value.0 == Distance(n, r.value.1, player.entity.position)
  {
    match FindIntersection(n, player.entity.position, ShootRay(n, player), wall.start, wall.end)
    case None => None
    case Some(p) => Some((Distance(n, p, player.entity.position), p))
  }

  function HitDistance(): ((real, Vec2)) -> real {
    (h: (real, Vec2)) => h.0
  }

  /** The nearest wall the shot crosses, if any. */
  function ClosestWallHit(n: Numerics, player: Player, walls: seq<Wall>): (r: Option<(real, Vec2)>)
    ensures r.None? <==> forall j :: 0 <= j < |walls| ==> WallHit(n, player, walls[j]).None?
    ensures r.Some? ==> exists j :: 0 <= j < |walls| && WallHit(n, player, walls[j]) == r
    ensures r.Some? ==> forall j :: 0 <= j < |walls| && WallHit(n, player, walls[j]).Some? ==>
              r.value.0 <= WallHit(n, player, walls[j]).value.0
  {
    var hits := seq(|walls|, j requires 0 <= j < |walls| => WallHit(n, player, walls[j]));
    assert forall j :: 0 <= j < |walls| ==> hits[j] == WallHit(n, player, walls[j]);
    Rays.Nearest(hits, HitDistance())
  }

  /** How far an enemy may stand and still be hit: up to the nearest wall, or MAX_SHOOT_DISTANCE. */
  function MaxDistance(n: Numerics, player: Player, walls: seq<Wall>): real {
    match ClosestWallHit(n, player, walls)
    case None => MAX_SHOOT_DISTANCE
    case Some(h) => h.0
  }

  function EnemyDistance(n: Numerics, player: Player): Enemy -> real {
    (e: Enemy) => Distance(n, e.entity.position, player.entity.position)
  }

  /** An enemy the shot can hit: the ray meets its circle and no wall stands before it. */
  function Hittable(n: Numerics, player: Player, walls: seq<Wall>): Enemy -> bool {
    (e: Enemy) =>
      LineIntersectsCircle(n, player.entity.position, ShootRay(n, player), e.entity.position, e.entity.size)
      && EnemyDistance(n, player)(e) <= MaxDistance(n, player, walls)
  }

  /**
   * `find_shot_enemy`: the nearest hittable enemy and its position; without
   * one, the point where the shot meets the nearest wall; otherwise nothing.
   */
  function FindShotEnemy(n: Numerics, player: Player, enemies: seq<Enemy>, walls: seq<Wall>)
    : (r: (Option<Enemy>, Option<Vec2>))
    ensures r.0.None? <==> forall i :: 0 <= i < |enemies| ==> !Hittable(n, player, walls)(enemies[i])
    ensures r.0.Some? ==> Hittable(n, player, walls)(r.0.value) && r.1 == Some(r.0.value.entity.position)
    ensures r.0.Some? ==> exists i :: 0 <= i < |enemies| && enemies[i] == r.0.value
    ensures r.0.None? && ClosestWallHit(n, player, walls).Some? ==> r.1 == Some(ClosestWallHit(n, player, walls).value.1)
    ensures r.0.None? && ClosestWallHit(n, player, walls).None? ==> r.1.None?
  {
    var candidates := Filter(enemies, Hittable(n, player, walls));
    FilterMembers(enemies, Hittable(n, player, walls));
    match MinBy(candidates, EnemyDistance(n, player))
    case Some(e) => (Some(e), Some(e.entity.position))
    case None =>
      match ClosestWallHit(n, player, walls)
      case Some(h) => (None, Some(h.1))
      case None => (None, None)
  }

  /** No hittable enemy is nearer to the player than the one shot. */
  lemma ShotEnemyIsNearest(n: Numerics, player: Player, enemies: seq<Enemy>, walls: seq<Wall>, i: nat)
    requires i < |enemies| && Hittable(n, player, walls)(enemies[i])
    ensures FindShotEnemy(n, player, enemies, walls).0.Some?
    ensures EnemyDistance(n, player)(FindShotEnemy(n, player, enemies, walls).0.value) <= EnemyDistance(n, player)(enemies[i])
  {
    var candidates := Filter(enemies, Hittable(n, player, walls));
    FilterMembers(enemies, Hittable(n, player, walls));
    var j :| 0 <= j < |candidates| && candidates[j] == enemies[i];
  }

  /** The location of a shot is None only when it meets neither an enemy nor a wall. */
  lemma ShotMissesEverything(n: Numerics, player: Player, enemies: seq<Enemy>, walls: seq<Wall>)
    ensures FindShotEnemy(n, player, enemies, walls).1.None? <==>
      (forall i :: 0 <= i < |enemies| ==> !Hittable(n, player, walls)(enemies[i]))
      && (forall j :: 0 <= j < |walls| ==> FindIntersection(n, player.entity.position, ShootRay(n, player), walls[j].start, walls[j].end).None?)
  {
  }

  // ---------------------------------------------------------------------
  // Damage and removal of the shot enemy
  // ---------------------------------------------------------------------

  /** The index `iter().find` stops at: the first enemy with identifier `id`. */
  function FirstWithId(enemies: seq<Enemy>, id: Uuid): (r: Option<nat>)
    ensures r.None? <==> forall j :: 0 <= j < |enemies| ==> enemies[j].id != id
    ensures r.Some? ==> r.value < |enemies| && enemies[r.value].id == id
    ensures r.Some? ==> forall j :: 0 <= j < r.value ==> enemies[j].id != id
    decreases |enemies|
  {
    if enemies == [] then None
    else if enemies[0].id == id then Some(0)
    else
      match FirstWithId(enemies[1..], id)
      case None => None
      case Some(i) => Some(i + 1)
  }

  /**
   * The enemies after the hit: the first one with identifier `id` loses
   * GUN_DAMAGE health, every other enemy and every other field is unchanged.
   */
  function Damage(enemies: seq<Enemy>, id: Uuid): (r: seq<Enemy>)
    ensures |r| == |enemies|
    ensures forall j :: 0 <= j < |r| ==> r[j].(hp := enemies[j].hp) == enemies[j]
    ensures forall j :: 0 <= j < |r| && FirstWithId(enemies, id) != Some(j) ==> r[j] == enemies[j]
    ensures forall j :: 0 <= j < |r| && FirstWithId(enemies, id) == Some(j) ==> r[j].hp == enemies[j].hp - GUN_DAMAGE
  {
    match FirstWithId(enemies, id)
    case None => enemies
    case Some(i) => enemies[i := enemies[i].(hp := enemies[i].hp - GUN_DAMAGE)]
  }

  function IsDead(): Enemy -> bool {
    (e: Enemy) => e.hp <= 0.0
  }

  function IsAlive(): Enemy -> bool {
    (e: Enemy) => e.hp > 0.0
  }

  /** One EnemyKilled event at each dead enemy's position, in enemy order. */
  function KilledEvents(enemies: seq<Enemy>): (r: seq<GameEvent>)
    ensures |r| == |Filter(enemies, IsDead())|
    ensures forall i :: 0 <= i < |r| ==> r[i] == EnemyKilled(Filter(enemies, IsDead())[i].entity.position)
  {
    var dead := Filter(enemies, IsDead());
    seq(|dead|, i requires 0 <= i < |dead| => EnemyKilled(dead[i].entity.position))
  }

  function ShotEvents(location: Option<Vec2>): (r: seq<GameEvent>)
    ensures location.None? ==> r == []
    ensures location.Some? ==> r == [LocationShot(location.value)]
  {
    match location
    case None => []
    case Some(p) => [LocationShot(p)]
  }

  /**
   * What `shoot_enemies` returns. Without a hit enemy the list is returned as
   * it came, dead enemies included, and only the shot location is reported.
   * With one, it is damaged, every enemy at or below zero health is removed
   * and reported, and the shot location is reported last.
   */
  function ShootEnemiesResult(n: Numerics, player: Player, enemies: seq<Enemy>, walls: seq<Wall>)
    : (seq<Enemy>, seq<GameEvent>)
  {
    var (shot, location) := FindShotEnemy(n, player, enemies, walls);
    if shot.None? then (enemies, ShotEvents(location))
    else
      var damaged := Damage(enemies, shot.value.id);
      (Filter(damaged, IsAlive()), KilledEvents(damaged) + ShotEvents(location))
  }

  /** Appending one element: Filter extends by that element exactly when it is kept. */
  lemma FilterSnoc<T>(s: seq<T>, k: nat, p: T -> bool)
    requires k < |s|
    ensures Filter(s[..k + 1], p) == Filter(s[..k], p) + (if p(s[k]) then [s[k]] else [])
  {
    assert s[..k + 1] == s[..k] + [s[k]];
    FilterAppend(s[..k], [s[k]], p);
    assert Filter([s[k]], p) == (if p(s[k]) then [s[k]] else []) by {
      assert [s[k]][1..] == [];
    }
  }

  lemma KilledEventsSnoc(enemies: seq<Enemy>, k: nat)
    requires k < |enemies|
    ensures KilledEvents(enemies[..k + 1]) ==
      KilledEvents(enemies[..k]) + (if enemies[k].hp <= 0.0 then [EnemyKilled(enemies[k].entity.position)] else [])
  {
    FilterSnoc(enemies, k, IsDead());
    var before := KilledEvents(enemies[..k]);
    var after := KilledEvents(enemies[..k + 1]);
    var extra := if enemies[k].hp <= 0.0 then [EnemyKilled(enemies[k].entity.position)] else [];
    assert |after| == |before| + |extra|;
    forall i | 0 <= i < |after|
      ensures after[i] == (before + extra)[i]
    {
      if i < |before| {
        assert Filter(enemies[..k + 1], IsDead())[i] == Filter(enemies[..k], IsDead())[i];
      }
    }
  }

  /** The `iter_mut().find` and the in-place update of the found enemy. */
  method DamageInPlace(enemies: seq<Enemy>, id: Uuid) returns (damaged: seq<Enemy>)
    ensures damaged == Damage(enemies, id)
  {
    damaged := enemies;
    var i := 0;
    while i < |damaged| && damaged[i].id != id
      invariant 0 <= i <= |damaged| && damaged == enemies
      invariant forall j :: 0 <= j < i ==> enemies[j].id != id
    {
      i := i + 1;
    }
    if i < |damaged| {
      assert FirstWithId(enemies, id) == Some(i);
      damaged := damaged[i := damaged[i].(hp := damaged[i].hp - GUN_DAMAGE)];
    }
  }

  /** The `filter_map` pass that reports every dead enemy. */
  method CollectKilled(enemies: seq<Enemy>) returns (events: seq<GameEvent>)
    ensures events == KilledEvents(enemies)
  {
    events := [];
    for k := 0 to |enemies|
      invariant events == KilledEvents(enemies[..k])
    {
      KilledEventsSnoc(enemies, k);
      if enemies[k].hp <= 0.0 {
        events := events + [EnemyKilled(enemies[k].entity.position)];
      }
    }
    assert enemies[..|enemies|] == enemies;
  }

  /** `retain`: keep the living enemies, in order. */
  method RetainAlive(enemies: seq<Enemy>) returns (remaining: seq<Enemy>)
    ensures remaining == Filter(enemies, IsAlive())
  {
    remaining := [];
    for k := 0 to |enemies|
      invariant remaining == Filter(enemies[..k], IsAlive())
    {
      FilterSnoc(enemies, k, IsAlive());
      if enemies[k].hp > 0.0 {
        remaining := remaining + [enemies[k]];
      }
    }
    assert enemies[..|enemies|] == enemies;
  }

  /** `shoot_enemies`: damage the hit enemy, report the dead and the shot, drop the dead. */
  method ShootEnemies(n: Numerics, player: Player, enemies: seq<Enemy>, walls: seq<Wall>)
    returns (remaining: seq<Enemy>, events: seq<GameEvent>)
    ensures (remaining, events) == ShootEnemiesResult(n, player, enemies, walls)
  {
    var (shot, location) := FindShotEnemy(n, player, enemies, walls);
    var shotEvent := ShotEvents(location);
    if shot.None? {
      return enemies, shotEvent;
    }
    var damaged := DamageInPlace(enemies, shot.value.id);
    var killed := CollectKilled(damaged);
    events := killed + shotEvent;
    remaining := RetainAlive(damaged);
  }

  /** A shot that hits no enemy leaves the enemies alone, even those already dead. */
  lemma MissKeepsEnemies(n: Numerics, player: Player, enemies: seq<Enemy>, walls: seq<Wall>)
    requires forall i :: 0 <= i < |enemies| ==> !Hittable(n, player, walls)(enemies[i])
    ensures ShootEnemiesResult(n, player, enemies, walls).0 == enemies
    ensures |ShootEnemiesResult(n, player, enemies, walls).1| <= 1
  {
  }

  /**
   * After a hit: only living enemies remain; each removed enemy is reported by
   * one EnemyKilled, all of them before the single LocationShot at the target.
   */
  lemma HitReportsDeadThenShot(n: Numerics, player: Player, enemies: seq<Enemy>, walls: seq<Wall>)
    requires FindShotEnemy(n, player, enemies, walls).0.Some?
    ensures var r := ShootEnemiesResult(n, player, enemies, walls);
      var target := FindShotEnemy(n, player, enemies, walls).0.value;
      && |r.0| + |r.1| == |enemies| + 1
      && r.1[|r.1| - 1] == LocationShot(target.entity.position)
      && (forall i :: 0 <= i < |r.1| - 1 ==> r.1[i].EnemyKilled?)
      && (forall i :: 0 <= i < |r.0| ==> r.0[i].hp > 0.0)
  {
    var target := FindShotEnemy(n, player, enemies, walls).0.value;
    var damaged := Damage(enemies, target.id);
    FilterPartitionLength(damaged, IsAlive(), IsDead());
    var killed := KilledEvents(damaged);
    assert ShootEnemiesResult(n, player, enemies, walls).1 == killed + [LocationShot(target.entity.position)];
  }

  /** The enemy that is hit loses GUN_DAMAGE, provided no enemy before it shares its identifier. */
  lemma TargetTakesDamage(n: Numerics, player: Player, enemies: seq<Enemy>, walls: seq<Wall>, i: nat)
    requires i < |enemies| && FindShotEnemy(n, player, enemies, walls).0 == Some(enemies[i])
    requires forall j :: 0 <= j < i ==> enemies[j].id != enemies[i].id
    ensures Damage(enemies, enemies[i].id)[i].hp == enemies[i].hp - GUN_DAMAGE
    ensures forall j :: 0 <= j < |enemies| && j != i ==> Damage(enemies, enemies[i].id)[j] == enemies[j]
  {
    assert FirstWithId(enemies, enemies[i].id) == Some(i);
  }

  lemma TestShootRay(n: Numerics)
    requires n.sqrt(1.0) == 1.0
    ensures ShootRay(n, Player(Entity(Vec2(0.0, 0.0), 0.2), Vec2(1.0, 0.0))) == Vec2(100.0, 0.0)
  {
    var look := Vec2(1.0, 0.0);
    assert look.LengthSquared() == 1.0;
    var l := Length(n, look);
    assert l == 1.0;
    assert NormalizeOrZero(n, look) == look.Scale(1.0 / l);
  }

  lemma TestRayMeetsEnemy(n: Numerics)
    requires n.sqrt(25600.0) == 160.0
    ensures LineIntersectsCircle(n, Vec2(0.0, 0.0), Vec2(100.0, 0.0), Vec2(99.0, 0.0), ENEMY_SIZE)
  {
    var q := CircleQuadratic(Vec2(0.0, 0.0), Vec2(100.0, 0.0), Vec2(99.0, 0.0), ENEMY_SIZE);
    assert q == Quadratic(10000.0, -19800.0, 9800.36);
    assert q.Discriminant() == 25600.0;
    assert Root(q, 160.0, -1.0) == 0.982;
  }

  /** The test's enemy one unit short of MAX_SHOOT_DISTANCE, straight ahead, is in the line of fire. */
  lemma TestEnemyHittable(n: Numerics, id: Uuid)
    requires n.sqrt(1.0) == 1.0 && n.sqrt(25600.0) == 160.0 && n.sqrt(9801.0) == 99.0
    ensures Hittable(n, Player(Entity(Vec2(0.0, 0.0), 0.2), Vec2(1.0, 0.0)), [])(Enemy(id, Entity(Vec2(99.0, 0.0), ENEMY_SIZE), 100.0))
  {
    TestShootRay(n);
    TestRayMeetsEnemy(n);
    assert ClosestWallHit(n, Player(Entity(Vec2(0.0, 0.0), 0.2), Vec2(1.0, 0.0)), []) == None;
    assert Vec2(99.0, 0.0).Sub(Vec2(0.0, 0.0)).LengthSquared() == 9801.0;
    assert Distance(n, Vec2(99.0, 0.0), Vec2(0.0, 0.0)) == 99.0;
    var p := Player(Entity(Vec2(0.0, 0.0), 0.2), Vec2(1.0, 0.0));
    var e := Enemy(id, Entity(Vec2(99.0, 0.0), ENEMY_SIZE), 100.0);
    assert MaxDistance(n, p, []) == MAX_SHOOT_DISTANCE;
    assert EnemyDistance(n, p)(e) == 99.0;
    assert LineIntersectsCircle(n, p.entity.position, ShootRay(n, p), e.entity.position, e.entity.size);
  }

  /** The unit test of `shoot_enemies`: the enemy survives with GUN_DAMAGE less health and the shot is reported. */
  lemma ShootEnemiesExample(n: Numerics, id: Uuid)
    requires n.sqrt(1.0) == 1.0 && n.sqrt(25600.0) == 160.0 && n.sqrt(9801.0) == 99.0
    ensures var r := ShootEnemiesResult(n, Player(Entity(Vec2(0.0, 0.0), 0.2), Vec2(1.0, 0.0)), [Enemy(id, Entity(Vec2(99.0, 0.0), ENEMY_SIZE), 100.0)], []);
      |r.0| == 1 && r.0[0].hp == 100.0 - GUN_DAMAGE && r.1 != [] && r.1[0].LocationShot?
  {
    var e := Enemy(id, Entity(Vec2(99.0, 0.0), ENEMY_SIZE), 100.0);
    TestEnemyHittable(n, id);
    var shot := FindShotEnemy(n, Player(Entity(Vec2(0.0, 0.0), 0.2), Vec2(1.0, 0.0)), [e], []);
    assert shot.0 == Some(e);
    var damaged := Damage([e], id);
    assert FirstWithId([e], id) == Some(0);
    assert damaged == [e.(hp := 50.0)];
    assert Filter(damaged, IsAlive()) == damaged;
    assert Filter(damaged, IsDead()) == [];
  }

  // ---------------------------------------------------------------------
  // Decorations left by a shot
  // ---------------------------------------------------------------------

  /** The animation of a shot hit; the only animation this file uses. */
  datatype Animation = Explosion

  datatype DecorationGraphics =
    | Texture(texture: Assets.TextureId)
    | Animated(animation: Animation, animationSpeed: nat)

  /** The decoration record of src/service/shoot.rs, drawn from graphics instead of a texture list. */
  datatype ShotDecoration = ShotDecoration(entity: Entity, graphics: DecorationGraphics, life: Option<real>, offset: real)

  /** Milliseconds per frame and seconds of life of the hit animation. */
  const GUNSHOT_ANIMATION_SPEED: nat := 80
  const GUNSHOT_ANIMATION_LENGTH: real := 0.3

  /** A corpse stays forever where the enemy died, drawn as a skull. */
  function CreateCorpse(location: Vec2): (d: ShotDecoration)
    ensures d.entity == Entity(location, CORPSE_SIZE) && d.life.None?
    ensures d.graphics == Texture(Assets.Skull) && d.offset == CORPSE_OFFSET
  {
    ShotDecoration(Entity(location, CORPSE_SIZE), Texture(Assets.Skull), None, CORPSE_OFFSET)
  }

  /**
   * The explosion at a hit location, pulled towards the player by
   * CREATE_GUNSHOT_HIT_ANIMATION_OFFSET_TO_CAMERA so that it is drawn in front of the wall.
   */
  function CreateShotAnimationDecoration(n: Numerics, player: Player, location: Vec2): (d: ShotDecoration)
    ensures d.entity.position == location.Add(NormalizeOrZero(n, player.entity.position.Sub(location)).Scale(CREATE_GUNSHOT_HIT_ANIMATION_OFFSET_TO_CAMERA))
    ensures d.entity.size == 0.2 && d.offset == 0.1
    ensures d.graphics == Animated(Explosion, GUNSHOT_ANIMATION_SPEED) && d.life == Some(GUNSHOT_ANIMATION_LENGTH)
  {
    var dirToPlayer := NormalizeOrZero(n, player.entity.position.Sub(location));
    var position := location.Add(dirToPlayer.Scale(CREATE_GUNSHOT_HIT_ANIMATION_OFFSET_TO_CAMERA));
    ShotDecoration(Entity(position, 0.2), Animated(Explosion, GUNSHOT_ANIMATION_SPEED), Some(GUNSHOT_ANIMATION_LENGTH), 0.1)
  }

  /** A hit at the player's own position has no direction to pull towards and stays put. */
  lemma ShotAtPlayerStaysPut(n: Numerics, player: Player)
    requires SqrtOfZero(n)
    ensures CreateShotAnimationDecoration(n, player, player.entity.position).entity.position == player.entity.position
  {
    var d := player.entity.position.Sub(player.entity.position);
    assert d == Zero;
    NormalizeZero(n);
  }

  lemma NormalizeZero(n: Numerics)
    requires SqrtOfZero(n)
    ensures NormalizeOrZero(n, Zero) == Zero
  {
    assert Zero.LengthSquared() == 0.0;
  }
}
