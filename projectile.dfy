/**
 * src/service/projectile.rs: one tick of the projectiles. A projectile that
 * touches the player, or whose path crosses a wall, is used up and reports
 * where it hit; every other projectile flies on.
 */
module ProjectileService {
  import opened Wrappers
  import opened Vectors
  import opened Math
  import opened Model
  import opened Seqs
  import opened Constants

  /** Wall `i` is the first wall that the path crosses, and `hit` is where. */
  predicate FirstHitAt(n: Numerics, oldPosition: Vec2, newPosition: Vec2, walls: seq<Wall>, i: int, hit: Option<Vec2>) {
    0 <= i < |walls|
    && FindIntersection(n, walls[i].start, walls[i].end, oldPosition, newPosition) == hit
    && forall j :: 0 <= j < i ==> FindIntersection(n, walls[j].start, walls[j].end, oldPosition, newPosition).None?
  }

  /**
   * The intersection of the path from `oldPosition` to `newPosition` with the
   * first wall, in wall order, that it crosses in a single point.
   */
  function FindProjectileHitWalls(n: Numerics, oldPosition: Vec2, newPosition: Vec2, walls: seq<Wall>): (r: Option<Vec2>)
    ensures r.None? <==> (forall i :: 0 <= i < |walls| ==>
              FindIntersection(n, walls[i].start, walls[i].end, oldPosition, newPosition).None?)
    decreases |walls|
  {
    if walls == [] then None
    else
      var hit := FindIntersection(n, walls[0].start, walls[0].end, oldPosition, newPosition);
      var rest := FindProjectileHitWalls(n, oldPosition, newPosition, walls[1..]);
      assert forall i :: 1 <= i < |walls| ==> walls[i] == walls[1..][i - 1];
      if hit.Some? then hit
      else
        rest
  }

  /** A reported hit is the crossing with the first wall, in wall order, that the path crosses. */
  lemma {:induction false} HitIsFirstCrossedWall(n: Numerics, oldPosition: Vec2, newPosition: Vec2, walls: seq<Wall>)
    requires FindProjectileHitWalls(n, oldPosition, newPosition, walls).Some?
    ensures exists i :: FirstHitAt(n, oldPosition, newPosition, walls, i, FindProjectileHitWalls(n, oldPosition, newPosition, walls))
    decreases |walls|
  {
    var r := FindProjectileHitWalls(n, oldPosition, newPosition, walls);
    if FindIntersection(n, walls[0].start, walls[0].end, oldPosition, newPosition).Some? {
      assert FirstHitAt(n, oldPosition, newPosition, walls, 0, r);
    } else {
      HitIsFirstCrossedWall(n, oldPosition, newPosition, walls[1..]);
      var i :| FirstHitAt(n, oldPosition, newPosition, walls[1..], i, r);
      assert forall j :: 1 <= j < |walls| ==> walls[j] == walls[1..][j - 1];
      assert FirstHitAt(n, oldPosition, newPosition, walls, i + 1, r);
    }
  }

  /** Where the projectile would be after `delta` seconds of flight. */
  function Advanced(projectile: Projectile, delta: real): Vec2 {
    projectile.entity.position.Add(projectile.direction.Scale(delta))
  }

  /** The projectile's circle at its current position touches the player's. */
  predicate HitsPlayer(n: Numerics, projectile: Projectile, player: Player) {
    CheckCirclesCollide(n, projectile.entity.position, projectile.entity.size, player.entity.position, player.entity.size)
  }

  /**
   * One projectile's tick. The player check comes first and uses the old
   * position; then the first wall on the path; else the projectile flies on
   * with everything but its position unchanged.
   */
  function UpdateProjectile(n: Numerics, projectile: Projectile, player: Player, walls: seq<Wall>, delta: real): (r: (Option<Projectile>, seq<GameEvent>))
    ensures HitsPlayer(n, projectile, player)
            ==> r == (None, [PlayerTakeDamage(projectile.damage), LocationShot(Advanced(projectile, delta))])
    ensures !HitsPlayer(n, projectile, player)
            && FindProjectileHitWalls(n, projectile.entity.position, Advanced(projectile, delta), walls).Some?
            ==> var hit := FindProjectileHitWalls(n, projectile.entity.position, Advanced(projectile, delta), walls).value;
                r == (None, [LocationShot(hit.Sub(projectile.direction.Scale(CREATE_GUNSHOT_HIT_ANIMATION_OFFSET_TO_CAMERA)))])
    ensures r.0.Some? <==> (!HitsPlayer(n, projectile, player) &&
              FindProjectileHitWalls(n, projectile.entity.position, Advanced(projectile, delta), walls).None?)
    ensures r.0.Some? ==> r.1 == [] && r.0.value == projectile.(entity := Entity(Advanced(projectile, delta), projectile.entity.size))
  {
    var newPosition := Advanced(projectile, delta);
    if HitsPlayer(n, projectile, player) then
      (None, [PlayerTakeDamage(projectile.damage), LocationShot(newPosition)])
    else
      match FindProjectileHitWalls(n, projectile.entity.position, newPosition, walls)
      case Some(hit) =>
        (None, [LocationShot(hit.Sub(projectile.direction.Scale(CREATE_GUNSHOT_HIT_ANIMATION_OFFSET_TO_CAMERA)))])
      case None =>
        (Some(projectile.(entity := projectile.entity.(position := newPosition))), [])
  }

  /** A used-up projectile always reports at least one event, and a flying one none. */
  lemma RemovedProjectileReports(n: Numerics, projectile: Projectile, player: Player, walls: seq<Wall>, delta: real)
    ensures var r := UpdateProjectile(n, projectile, player, walls, delta);
      (r.0.None? ==> 1 <= |r.1|) && (r.0.Some? ==> r.1 == [])
  {
  }

  /** A player hit wins over a wall on the path: the wall is never consulted. */
  lemma PlayerHitIgnoresWalls(n: Numerics, projectile: Projectile, player: Player, walls: seq<Wall>, otherWalls: seq<Wall>, delta: real)
    requires HitsPlayer(n, projectile, player)
    ensures UpdateProjectile(n, projectile, player, walls, delta) == UpdateProjectile(n, projectile, player, otherWalls, delta)
  {
  }

  /** The outcome of each projectile's tick, in projectile order. */
  function Outcomes(n: Numerics, projectiles: seq<Projectile>, player: Player, walls: seq<Wall>, delta: real): (r: seq<(Option<Projectile>, seq<GameEvent>)>)
    ensures |r| == |projectiles|
  {
    seq(|projectiles|, i requires 0 <= i < |projectiles| => UpdateProjectile(n, projectiles[i], player, walls, delta))
  }

  /**
   * The projectile pass: the survivors in input order, and every projectile's
   * events concatenated in projectile order. Each removed projectile
   * contributes at least one event.
   */
  function UpdateProjectiles(n: Numerics, projectiles: seq<Projectile>, player: Player, walls: seq<Wall>, delta: real): (r: (seq<Projectile>, seq<GameEvent>))
    ensures var outcomes := Outcomes(n, projectiles, player, walls, delta);
      r.0 == Somes(seq(|outcomes|, i requires 0 <= i < |outcomes| => outcomes[i].0))
      && r.1 == Flatten(seq(|outcomes|, i requires 0 <= i < |outcomes| => outcomes[i].1))
    ensures |r.0| <= |projectiles|
    ensures |projectiles| - |r.0| <= |r.1|
    decreases |projectiles|
  {
    if projectiles == [] then ([], [])
    else
      var (survivor, events) := UpdateProjectile(n, projectiles[0], player, walls, delta);
      RemovedProjectileReports(n, projectiles[0], player, walls, delta);
      var (rest, restEvents) := UpdateProjectiles(n, projectiles[1..], player, walls, delta);
      var outcomes := Outcomes(n, projectiles, player, walls, delta);
      var tail := Outcomes(n, projectiles[1..], player, walls, delta);
      assert outcomes[1..] == tail;
      assert seq(|outcomes|, i requires 0 <= i < |outcomes| => outcomes[i].0)[1..]
          == seq(|tail|, i requires 0 <= i < |tail| => tail[i].0);
      assert seq(|outcomes|, i requires 0 <= i < |outcomes| => outcomes[i].1)[1..]
          == seq(|tail|, i requires 0 <= i < |tail| => tail[i].1);
      ((if survivor.Some? then [survivor.value] else []) + rest, events + restEvents)
  }
}
