/**
 * src/draw/wall.rs: the later wall raycaster. Each ray is rotated with
 * `rotate_point`, the texture column comes from the distance of the hit
 * along the wall taken modulo one unit, and the columns are produced in
 * parallel, so their order is not fixed.
 */
module WallDraw {
  import opened Wrappers
  import opened Vectors
  import opened Math
  import opened Model
  import opened Assets
  import opened Constants
  import opened Rays
  import Draw

  datatype RayHit = RayHit(distanceToRay: real, texture: TextureId, relativePosition: real)

  datatype WallDrawable = WallDrawable(height: real, distance: real, brightness: real, x: nat,
                                       texture: TextureId, relativePosition: real)

  /** Walls are ordered by their distance. */
  function GetZIndex(d: WallDrawable): (z: real)
    ensures z == d.distance
  {
    d.distance
  }

  function CreateRays(n: Numerics, look: Vec2): (r: seq<Vec2>)
    ensures |r| == RAY_COUNT
    ensures forall k :: 0 <= k < |r| ==> r[k] == RotatePoint(n, look, Zero, RayAngle(k))
  {
    seq(RAY_COUNT, k requires 0 <= k < RAY_COUNT => RotatePoint(n, look, Zero, RayAngle(k)))
  }

  /** This fan is the same as the one of the first raycaster. */
  lemma SameRaysAsDraw(n: Numerics, look: Vec2)
    ensures CreateRays(n, look) == Draw.CreateRays(n, look)
  {
  }

  const U64_MAX: nat := 0x1_0000_0000_0000_0000 - 1

  /** Rust's saturating `f32 as u64`: truncation, with negatives at 0 and large values at the maximum. */
  function AsU64(x: real): (r: nat)
    ensures r <= U64_MAX
    ensures 0.0 <= x < U64_MAX as real ==> r as real <= x < r as real + 1.0
    ensures x < 0.0 ==> r == 0
  {
    if x < 0.0 then 0 else if x >= U64_MAX as real then U64_MAX else x.Floor
  }

  /** `WALL_RESOLUTION as u64`: the number of texture columns per unit of wall. */
  const RESOLUTION_STEPS: nat := AsU64(WALL_RESOLUTION)

  lemma ResolutionSteps()
    ensures RESOLUTION_STEPS == 10000
  {
  }

  /**
   * The texture column of a hit at `hitDistance` from the wall's start: the
   * distance in units of 1/WALL_RESOLUTION, truncated, modulo one unit.
   */
  function TextureOffset(hitDistance: real): (r: real)
    ensures 0.0 <= r < 1.0
    ensures exists m: nat :: m < 10000 && r == Step(m)
  {
    ResolutionSteps();
    var m := AsU64(hitDistance * WALL_RESOLUTION) % RESOLUTION_STEPS;
    Step(m)
  }

  /** The m-th texture column. */
  function Step(m: nat): real {
    m as real / WALL_RESOLUTION
  }

  /** The texture repeats every unit of wall length. */
  lemma TextureOffsetRepeats(hitDistance: real)
    requires 0.0 <= hitDistance
    requires (hitDistance + 1.0) * WALL_RESOLUTION < U64_MAX as real
    ensures TextureOffset(hitDistance + 1.0) == TextureOffset(hitDistance)
  {
    ResolutionSteps();
    var x := hitDistance * WALL_RESOLUTION;
    assert (hitDistance + 1.0) * WALL_RESOLUTION == x + 10000.0;
    FloorShift(x);
    var a := AsU64(x);
    assert AsU64(x + 10000.0) == a + 10000;
    ModShift(a);
  }

  lemma FloorShift(x: real)
    ensures (x + 10000.0).Floor == x.Floor + 10000
  {
  }

  lemma ModShift(a: nat)
    ensures (a + 10000) % 10000 == a % 10000
  {
  }

  function RelativePosition(n: Numerics, hit: Vec2, wallStart: Vec2): real {
    TextureOffset(Distance(n, wallStart, hit))
  }

  function HitOf(n: Numerics, rayOrigin: Vec2, rayDirection: Vec2, wall: Wall): (r: Option<RayHit>)
    ensures r.Some? <==> FindIntersection(n, rayOrigin, rayDirection, wall.start, wall.end).Some?
    ensures r.Some? ==> r.value.texture == wall.texture && 0.0 <= r.value.relativePosition < 1.0
  {
    match FindIntersection(n, rayOrigin, rayDirection, wall.start, wall.end)
    case None => None
    case Some(point) => Some(RayHit(Distance(n, point, rayOrigin), wall.texture, RelativePosition(n, point, wall.start)))
  }

  function HitDistance(): RayHit -> real { (h: RayHit) => h.distanceToRay }

  /** The nearest wall hit of a ray, or None when it crosses no wall. */
  function CastRay(n: Numerics, rayOrigin: Vec2, rayDirection: Vec2, walls: seq<Wall>): (r: Option<RayHit>)
    ensures r.None? <==> forall j :: 0 <= j < |walls| ==> FindIntersection(n, rayOrigin, rayDirection, walls[j].start, walls[j].end).None?
    ensures r.Some? ==> exists j :: 0 <= j < |walls| && HitOf(n, rayOrigin, rayDirection, walls[j]) == r
    ensures r.Some? ==> forall j :: 0 <= j < |walls| && HitOf(n, rayOrigin, rayDirection, walls[j]).Some? ==>
              r.value.distanceToRay <= HitOf(n, rayOrigin, rayDirection, walls[j]).value.distanceToRay
  {
    var hits := seq(|walls|, j requires 0 <= j < |walls| => HitOf(n, rayOrigin, rayDirection, walls[j]));
    assert forall j :: 0 <= j < |walls| ==> hits[j] == HitOf(n, rayOrigin, rayDirection, walls[j]);
    Nearest(hits, HitDistance())
  }

  /** The column of ray `x`; `brightness` is the distance shading of the draw module. */
  function Column(x: nat, hit: RayHit, brightness: real -> real): WallDrawable {
    WallDrawable(Draw.Height(hit.distanceToRay), hit.distanceToRay, brightness(hit.distanceToRay), x,
                 hit.texture, hit.relativePosition)
  }

  function CastFrom(n: Numerics, position: Vec2, walls: seq<Wall>): Vec2 -> Option<RayHit> {
    ray => CastRay(n, position, ray, walls)
  }

  /** A drawable that is the column of the ray it names. */
  predicate IsColumn(n: Numerics, camera: Draw.Camera, walls: seq<Wall>, brightness: real -> real, d: WallDrawable) {
    d.x < RAY_COUNT
    && CastRay(n, camera.position, CreateRays(n, camera.look)[d.x], walls).Some?
    && d == Column(d.x, CastRay(n, camera.position, CreateRays(n, camera.look)[d.x], walls).value, brightness)
  }

  /** The columns in ray order, which is one order the parallel pass may produce. */
  function DrawWallsInOrder(n: Numerics, camera: Draw.Camera, walls: seq<Wall>, brightness: real -> real): (r: seq<WallDrawable>)
    ensures |r| <= RAY_COUNT
    ensures forall i :: 0 <= i < |r| ==> IsColumn(n, camera, walls, brightness, r[i])
    ensures forall i, j :: 0 <= i < j < |r| ==> r[i].x < r[j].x
  {
    var rays := CreateRays(n, camera.look);
    var hits := HitsFrom(rays, CastFrom(n, camera.position, walls), 0);
    seq(|hits|, i requires 0 <= i < |hits| => Column(hits[i].0, hits[i].1, brightness))
  }

  /**
   * A result of the parallel `draw_walls` is any arrangement of the columns:
   * it holds one column per ray with a hit, each at the depth of that hit and
   * with height 1/depth.
   */
  predicate IsDrawWallsResult(n: Numerics, camera: Draw.Camera, walls: seq<Wall>, brightness: real -> real, out: seq<WallDrawable>) {
    multiset(out) == multiset(DrawWallsInOrder(n, camera, walls, brightness))
  }

  lemma DrawWallsResultColumns(n: Numerics, camera: Draw.Camera, walls: seq<Wall>, brightness: real -> real, out: seq<WallDrawable>)
    requires IsDrawWallsResult(n, camera, walls, brightness, out)
    ensures |out| <= RAY_COUNT
    ensures forall d :: d in out ==> IsColumn(n, camera, walls, brightness, d)
    ensures forall d :: d in out ==> GetZIndex(d) == d.distance && d.height == Draw.Height(d.distance)
  {
    var inOrder := DrawWallsInOrder(n, camera, walls, brightness);
    assert |out| == |multiset(out)| == |multiset(inOrder)| == |inOrder|;
    forall d | d in out
      ensures IsColumn(n, camera, walls, brightness, d)
    {
      assert d in multiset(out);
      assert d in inOrder;
    }
  }

  /** Every ray with a hit has its column in every result. */
  lemma EveryHitIsDrawn(n: Numerics, camera: Draw.Camera, walls: seq<Wall>, brightness: real -> real, out: seq<WallDrawable>, x: nat)
    requires IsDrawWallsResult(n, camera, walls, brightness, out)
    requires x < RAY_COUNT
    requires CastRay(n, camera.position, CreateRays(n, camera.look)[x], walls).Some?
    ensures exists d :: d in out && d.x == x
  {
    var rays := CreateRays(n, camera.look);
    var cast := CastFrom(n, camera.position, walls);
    assert cast(rays[x]).Some?;
    HitsFromComplete(rays, cast, 0, x);
    var hits := HitsFrom(rays, cast, 0);
    var i :| 0 <= i < |hits| && hits[i] == (x, cast(rays[x]).value);
    var r := seq(|hits|, i requires 0 <= i < |hits| => Column(hits[i].0, hits[i].1, brightness));
    assert r == DrawWallsInOrder(n, camera, walls, brightness);
    assert r[i] in multiset(out);
  }
}
