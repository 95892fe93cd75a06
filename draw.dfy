/**
 * src/draw.rs: the first raycaster. The camera looks from the player towards
 * a point VIEW_DISTANCE ahead; each ray is cast against every wall and the
 * nearest hit becomes one column to draw, darker when the wall is seen at a
 * grazing angle and shorter when it is farther away.
 */
module Draw {
  import opened Wrappers
  import opened Vectors
  import opened Math
  import opened Model
  import opened Assets
  import opened Constants
  import opened Rays

  datatype Camera = Camera(position: Vec2, look: Vec2)

  /** The camera of a player: its position, and the point VIEW_DISTANCE along its look. */
  function ForPlayer(player: Player): (r: Camera)
    ensures r.position == player.entity.position
    ensures r.look.Sub(r.position) == player.look.Scale(VIEW_DISTANCE)
  {
    Camera(player.entity.position, player.entity.position.Add(player.look.Scale(VIEW_DISTANCE)))
  }

  /** A wall column: what the drawing closure of `draw_walls` captures. */
  datatype WallColumn = WallColumn(zIndex: real, x: nat, distance: real, angle: real, texture: TextureId, relativePosition: real)

  datatype RayHit = RayHit(distanceToRay: real, texture: TextureId, relativePosition: real, angle: real)

  /** The ray fan, with the rotation about the origin written out. */
  function CreateRays(n: Numerics, look: Vec2): (r: seq<Vec2>)
    ensures |r| == RAY_COUNT
    ensures forall k :: 0 <= k < |r| ==> r[k] == RotatePoint(n, look, Zero, RayAngle(k))
  {
    seq(RAY_COUNT, k requires 0 <= k < RAY_COUNT =>
      var angle := RayAngle(k);
      Vec2(look.x * n.cos(angle) - look.y * n.sin(angle), look.x * n.sin(angle) + look.y * n.cos(angle)))
  }

  /** With cos 0 = 1 and sin 0 = 0 the middle ray is the look vector itself. */
  lemma MiddleRayIsLook(n: Numerics, look: Vec2)
    requires TrigAtZero(n)
    ensures CreateRays(n, look)[HORIZONTAL_WALL_SEGEMENTS / 2] == look
  {
    RayAngleEnds();
    RotateByZero(n, look, Zero);
  }

  /** How far along the wall the hit lies, as a fraction of the wall's length. */
  function RelativePosition(n: Numerics, hit: Vec2, wallStart: Vec2, wallEnd: Vec2): real {
    SafeDiv(Distance(n, wallStart, hit), Distance(n, wallStart, wallEnd))
  }

  /** A hit no farther from the start than the wall's end has a position in [0, 1]. */
  lemma RelativePositionInUnit(n: Numerics, hit: Vec2, wallStart: Vec2, wallEnd: Vec2)
    requires SqrtNonNegative(n)
    requires Distance(n, wallStart, hit) <= Distance(n, wallStart, wallEnd)
    ensures 0.0 <= RelativePosition(n, hit, wallStart, wallEnd) <= 1.0
  {
    DistanceNonNegative(n, wallStart, hit);
    DistanceNonNegative(n, wallStart, wallEnd);
    var a, b := Distance(n, wallStart, hit), Distance(n, wallStart, wallEnd);
    if b != 0.0 {
      FractionInUnit(a, b);
    }
  }

  /** `f32::clamp`. */
  function Clamp(x: real, lo: real, hi: real): (r: real)
    requires lo <= hi
    ensures lo <= r <= hi
    ensures lo <= x <= hi ==> r == x
    ensures x < lo ==> r == lo
    ensures hi < x ==> r == hi
  {
    if x < lo then lo else if hi < x then hi else x
  }

  function Abs(x: real): real { if x < 0.0 then -x else x }

  /**
   * The angle between the ray and the wall's normal: `acos` of the dot
   * product of the two directions, clamped into acos's domain first.
   */
  function NormalAngle(n: Numerics, rayDirection: Vec2, rayOrigin: Vec2, wallStart: Vec2, wallEnd: Vec2): (r: real)
    ensures exists c :: -1.0 <= c <= 1.0 && r == n.acos(c)
  {
    var wallDir := wallEnd.Sub(wallStart);
    var wallNormal := NormalizeOrZero(n, Vec2(-wallDir.y, wallDir.x));
    var dot := NormalizeOrZero(n, rayDirection.Sub(rayOrigin)).Dot(wallNormal);
    n.acos(Clamp(dot, -1.0, 1.0))
  }

  /** The hit of one ray on one wall, if the two cross in a single point. */
  function HitOf(n: Numerics, rayOrigin: Vec2, rayDirection: Vec2, wall: Wall): (r: Option<RayHit>)
    ensures r.Some? <==> FindIntersection(n, rayOrigin, rayDirection, wall.start, wall.end).Some?
    ensures r.Some? ==> r.value.texture == wall.texture
  {
    match FindIntersection(n, rayOrigin, rayDirection, wall.start, wall.end)
    case None => None
    case Some(hit) =>
      Some(RayHit(Distance(n, hit, rayOrigin), wall.texture, RelativePosition(n, hit, wall.start, wall.end),
                  NormalAngle(n, rayDirection, rayOrigin, wall.start, wall.end)))
  }

  function HitDistance(): RayHit -> real { (h: RayHit) => h.distanceToRay }

  /** The nearest hit of the ray from `rayOrigin` through `rayDirection`, or None when no wall is crossed. */
  function CastRay(n: Numerics, rayOrigin: Vec2, rayDirection: Vec2, walls: seq<Wall>): (r: Option<RayHit>)
    ensures r.None? <==> forall j :: 0 <= j < |walls| ==> FindIntersection(n, rayOrigin, rayDirection, walls[j].start, walls[j].end).None?
    ensures r.Some? ==> exists j :: 0 <= j < |walls| && HitOf(n, rayOrigin, rayDirection, walls[j]) == r
    ensures r.Some? ==> forall j :: 0 <= j < |walls| && HitOf(n, rayOrigin, rayDirection, walls[j]).Some? ==>
              r.value.distanceToRay <= HitOf(n, rayOrigin, rayDirection, walls[j]).value.distanceToRay
  {
    var hits := seq(|walls|, j requires 0 <= j < |walls| => HitOf(n, rayOrigin, rayDirection, walls[j]));
    assert forall j :: 0 <= j < |walls| ==> hits[j] == HitOf(n, rayOrigin, rayDirection, walls[j]);
    Nearest(hits, HitDistance())
  }

  /** A ray cast towards no wall hits nothing. */
  lemma CastRayWithoutWalls(n: Numerics, rayOrigin: Vec2, rayDirection: Vec2)
    ensures CastRay(n, rayOrigin, rayDirection, []) == None
  {
  }

  /**
   * The brightness of a column: brighter the more squarely the ray meets the
   * wall, always within [0.3, 1].
   */
  function Brightness(n: Numerics, angle: real): (r: real)
    ensures 0.3 <= r <= 1.0
    ensures 0.3 <= n.sqrt(Abs(angle - PI / 2.0) / PI) <= 1.0 ==> r == n.sqrt(Abs(angle - PI / 2.0) / PI)
  {
    Clamp(n.sqrt(Abs(angle - PI / 2.0) / PI), 0.3, 1.0)
  }

  /** The height of a column, as a fraction of the screen: the inverse of the distance. */
  function Height(distance: real): (r: real)
    ensures 0.0 < distance ==> 0.0 < r && r * distance == 1.0
  {
    SafeDiv(1.0, distance)
  }

  /** A nearer wall is drawn at least as tall as a farther one. */
  lemma NearerIsTaller(d1: real, d2: real)
    requires 0.0 < d1 <= d2
    ensures Height(d2) <= Height(d1)
  {
    assert Height(d1) == 1.0 / d1 && Height(d2) == 1.0 / d2;
  }

  function Column(x: nat, hit: RayHit): WallColumn {
    WallColumn(hit.distanceToRay, x, hit.distanceToRay, hit.angle, hit.texture, hit.relativePosition)
  }

  function CastFrom(n: Numerics, position: Vec2, walls: seq<Wall>): Vec2 -> Option<RayHit> {
    ray => CastRay(n, position, ray, walls)
  }

  /**
   * One column per ray that hits a wall, in ray order, each at the depth of
   * its hit.
   */
  function DrawWalls(n: Numerics, camera: Camera, walls: seq<Wall>): (r: seq<WallColumn>)
    ensures |r| <= RAY_COUNT
    ensures forall i :: 0 <= i < |r| ==> (r[i].x < RAY_COUNT && r[i].zIndex == r[i].distance &&
              CastRay(n, camera.position, CreateRays(n, camera.look)[r[i].x], walls).Some? &&
              r[i] == Column(r[i].x, CastRay(n, camera.position, CreateRays(n, camera.look)[r[i].x], walls).value))
    ensures forall i, j :: 0 <= i < j < |r| ==> r[i].x < r[j].x
  {
    var rays := CreateRays(n, camera.look);
    var hits := HitsFrom(rays, CastFrom(n, camera.position, walls), 0);
    seq(|hits|, i requires 0 <= i < |hits| => Column(hits[i].0, hits[i].1))
  }

  /** Every ray with a hit has its column. */
  lemma EveryHitIsDrawn(n: Numerics, camera: Camera, walls: seq<Wall>, x: nat)
    requires x < RAY_COUNT
    requires CastRay(n, camera.position, CreateRays(n, camera.look)[x], walls).Some?
    ensures exists i :: 0 <= i < |DrawWalls(n, camera, walls)| && DrawWalls(n, camera, walls)[i].x == x
  {
    var rays := CreateRays(n, camera.look);
    var cast := CastFrom(n, camera.position, walls);
    assert cast(rays[x]).Some?;
    HitsFromComplete(rays, cast, 0, x);
    var hits := HitsFrom(rays, cast, 0);
    var i :| 0 <= i < |hits| && hits[i] == (x, cast(rays[x]).value);
    var r := seq(|hits|, i requires 0 <= i < |hits| => Column(hits[i].0, hits[i].1));
    assert r == DrawWalls(n, camera, walls);
    assert r[i].x == x;
  }
}
