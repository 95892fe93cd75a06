/**
 * The geometry kernel of src/math.rs.
 *
 * Floating point is read as `real`. The transcendental functions and the
 * segment intersection of the `geo` crate are not computed here: they are the
 * fields of a `Numerics` value that every caller passes along, and the few
 * facts a proof needs about them are the ghost predicates below.
 */
module Math {
  import opened Wrappers
  import opened Vectors

  /** The result of `geo::line_intersection`: one point, or a shared sub-segment. */
  datatype LineIntersection =
    | SinglePoint(intersection: Vec2, isProper: bool)
    | Collinear(start: Vec2, end: Vec2)

  /** The numeric library: square root, trigonometry, and the segment intersection of `geo`. */
  datatype Numerics = Numerics(
    sqrt: real -> real,
    sin: real -> real,
    cos: real -> real,
    tan: real -> real,
    acos: real -> real,
    angleBetween: (Vec2, Vec2) -> real,
    lineIntersection: (Vec2, Vec2, Vec2, Vec2) -> Option<LineIntersection>)

  ghost predicate SqrtNonNegative(n: Numerics) {
    forall x :: 0.0 <= x ==> 0.0 <= n.sqrt(x)
  }

  /** `sqrt` is the exact non-negative square root on non-negative arguments. */
  ghost predicate SqrtExact(n: Numerics) {
    forall x :: 0.0 <= x ==> 0.0 <= n.sqrt(x) && n.sqrt(x) * n.sqrt(x) == x
  }

  /** `sqrt` is exact at one argument. */
  ghost predicate SqrtExactAt(n: Numerics, x: real) {
    0.0 <= n.sqrt(x) && n.sqrt(x) * n.sqrt(x) == x
  }

  ghost predicate SqrtOfZero(n: Numerics) {
    n.sqrt(0.0) == 0.0
  }

  ghost predicate TrigAtZero(n: Numerics) {
    n.cos(0.0) == 1.0 && n.sin(0.0) == 0.0
  }

  ghost predicate Pythagorean(n: Numerics) {
    forall t :: n.cos(t) * n.cos(t) + n.sin(t) * n.sin(t) == 1.0
  }

  /** `f32::EPSILON`, that is 2^-23. */
  const EPSILON: real := 1.0 / 8388608.0

  /** `Vec2::length`. */
  function Length(n: Numerics, v: Vec2): real {
    n.sqrt(v.LengthSquared())
  }

  /** `Vec2::distance`: the length of the difference. */
  function Distance(n: Numerics, a: Vec2, b: Vec2): real {
    Length(n, a.Sub(b))
  }

  /** `Vec2::normalize_or_zero`: the zero vector when the length is not positive. */
  function NormalizeOrZero(n: Numerics, v: Vec2): Vec2 {
    var l := Length(n, v);
    if l > 0.0 then v.Scale(1.0 / l) else Zero
  }

  /** Division where the source would produce an infinity or NaN for a zero divisor. */
  function SafeDiv(a: real, b: real): real {
    if b == 0.0 then 0.0 else a / b
  }

  lemma DistanceNonNegative(n: Numerics, a: Vec2, b: Vec2)
    requires SqrtNonNegative(n)
    ensures 0.0 <= Distance(n, a, b)
  {
    var d := a.Sub(b);
    assert 0.0 <= d.x * d.x && 0.0 <= d.y * d.y;
  }

  lemma DistanceSymmetric(n: Numerics, a: Vec2, b: Vec2)
    ensures Distance(n, a, b) == Distance(n, b, a)
  {
    assert a.Sub(b).LengthSquared() == b.Sub(a).LengthSquared();
  }

  /** With `sqrt 0 = 0`, a point is at distance 0 from itself. */
  lemma DistanceToSelf(n: Numerics, a: Vec2)
    requires SqrtOfZero(n)
    ensures Distance(n, a, a) == 0.0
  {
    assert a.Sub(a).LengthSquared() == 0.0;
  }

  /** With the exact square root, a point `d` above the origin is at distance `d`. */
  lemma VerticalDistance(n: Numerics, d: real)
    requires SqrtExactAt(n, d * d) && 0.0 <= d
    ensures Distance(n, Zero, Vec2(0.0, d)) == d
  {
    assert Zero.Sub(Vec2(0.0, d)).LengthSquared() == d * d;
    SquareNonNegative(d);
    SqrtUnique(n.sqrt(d * d), d);
  }

  /** src/math.rs: rotation of `point` about `origin` by `theta`. */
  function RotatePoint(n: Numerics, point: Vec2, origin: Vec2, theta: real): Vec2 {
    var p := point.Sub(origin);
    var xRot := p.x * n.cos(theta) - p.y * n.sin(theta);
    var yRot := p.x * n.sin(theta) + p.y * n.cos(theta);
    Vec2(xRot, yRot).Add(origin)
  }

  lemma RotateByZero(n: Numerics, point: Vec2, origin: Vec2)
    requires TrigAtZero(n)
    ensures RotatePoint(n, point, origin, 0.0) == point
  {
  }

  /** With cos^2 + sin^2 = 1 a rotation keeps the distance to the origin of the rotation. */
  lemma RotatePreservesRadius(n: Numerics, point: Vec2, origin: Vec2, theta: real)
    requires Pythagorean(n)
    ensures RotatePoint(n, point, origin, theta).Sub(origin).LengthSquared()
         == point.Sub(origin).LengthSquared()
  {
    var p := point.Sub(origin);
    var c, s := n.cos(theta), n.sin(theta);
    var r := RotatePoint(n, point, origin, theta).Sub(origin);
    assert r == Vec2(p.x * c - p.y * s, p.x * s + p.y * c);
    calc {
      r.LengthSquared();
      (p.x * c - p.y * s) * (p.x * c - p.y * s) + (p.x * s + p.y * c) * (p.x * s + p.y * c);
      p.x * p.x * (c * c + s * s) + p.y * p.y * (c * c + s * s);
      { assert c * c + s * s == 1.0; }
      p.x * p.x + p.y * p.y;
    }
  }

  /** src/math.rs: segment intersection, a point only for a single-point result. */
  function FindIntersection(n: Numerics, aStart: Vec2, aEnd: Vec2, bStart: Vec2, bEnd: Vec2): (r: Option<Vec2>)
    ensures r.Some? <==> (n.lineIntersection(aStart, aEnd, bStart, bEnd).Some?
                          && n.lineIntersection(aStart, aEnd, bStart, bEnd).value.SinglePoint?)
    ensures r.Some? ==> r.value == n.lineIntersection(aStart, aEnd, bStart, bEnd).value.intersection
  {
    match n.lineIntersection(aStart, aEnd, bStart, bEnd)
    case None => None
    case Some(SinglePoint(p, _)) => Some(p)
    case Some(Collinear(_, _)) => None
  }

  /** The coefficients of |start + t (end - start) - center|^2 = radius^2 in t. */
  datatype Quadratic = Quadratic(a: real, b: real, c: real) {
    function Discriminant(): real { b * b - 4.0 * a * c }
    function At(t: real): real { a * t * t + b * t + c }
  }

  function CircleQuadratic(start: Vec2, end: Vec2, center: Vec2, radius: real): Quadratic {
    var d := end.Sub(start);
    var f := start.Sub(center);
    Quadratic(d.LengthSquared(), 2.0 * f.Dot(d), f.LengthSquared() - radius * radius)
  }

  lemma MulNonNegative(x: real, y: real)
    requires 0.0 <= x && 0.0 <= y
    ensures 0.0 <= x * y
  {
  }

  lemma MulPositive(x: real, y: real)
    requires 0.0 < x && 0.0 < y
    ensures 0.0 < x * y
  {
  }

  lemma SquareNonNegative(x: real)
    ensures 0.0 <= x * x
  {
  }

  /** Squaring is strictly monotone on the non-negative reals. */
  lemma SquareMonotone(x: real, y: real)
    requires 0.0 <= x < y
    ensures x * x < y * y
  {
    var d := y - x;
    MulNonNegative(x, d);
    MulPositive(y, d);
    assert x * d + y * d > 0.0;
    assert y * y - x * x == x * d + y * d;
  }

  lemma SqrtUnique(s1: real, s2: real)
    requires 0.0 <= s1 && 0.0 <= s2 && s1 * s1 == s2 * s2
    ensures s1 == s2
  {
    if s1 < s2 { SquareMonotone(s1, s2); }
    if s2 < s1 { SquareMonotone(s2, s1); }
  }

  /** The leading coefficient is a squared length. */
  lemma LeadingNonNegative(start: Vec2, end: Vec2, center: Vec2, radius: real)
    ensures 0.0 <= CircleQuadratic(start, end, center, radius).a
  {
    var d := end.Sub(start);
    SquareNonNegative(d.x);
    SquareNonNegative(d.y);
  }

  /** The quadratic at t = 0 and t = 1: squared distance of each end point to the centre, minus radius^2. */
  lemma QuadraticEnds(start: Vec2, end: Vec2, center: Vec2, radius: real)
    ensures var q := CircleQuadratic(start, end, center, radius);
      q.At(0.0) == start.Sub(center).LengthSquared() - radius * radius
      && q.At(1.0) == end.Sub(center).LengthSquared() - radius * radius
  {
    var d := end.Sub(start);
    var f := start.Sub(center);
    assert end.Sub(center) == f.Add(d);
  }

  /** The two roots of the quadratic formula, the first with the negative square root. */
  function Root(q: Quadratic, s: real, sign: real): real
    requires q.a != 0.0
  {
    (-q.b + sign * s) / (2.0 * q.a)
  }

  predicate InUnit(t: real) {
    0.0 <= t <= 1.0
  }

  /**
   * Whether either root of `q` lies in [0, 1], after the EPSILON guard on the discriminant.
   * A zero leading coefficient makes both roots infinite or NaN in floating point, and
   * every comparison with them false.
   */
  function QuadraticHitsUnit(n: Numerics, q: Quadratic): bool {
    var discriminant := q.Discriminant();
    if discriminant < EPSILON || q.a == 0.0 then false
    else
      var s := n.sqrt(discriminant);
      InUnit(Root(q, s, -1.0)) || InUnit(Root(q, s, 1.0))
  }

  /** src/math.rs: circle / segment test through the quadratic formula, with an EPSILON guard. */
  function LineIntersectsCircle(n: Numerics, start: Vec2, end: Vec2, center: Vec2, radius: real): bool {
    QuadraticHitsUnit(n, CircleQuadratic(start, end, center, radius))
  }

  /** A discriminant below EPSILON always reports no intersection. */
  lemma SmallDiscriminantMisses(n: Numerics, start: Vec2, end: Vec2, center: Vec2, radius: real)
    requires CircleQuadratic(start, end, center, radius).Discriminant() < EPSILON
    ensures !LineIntersectsCircle(n, start, end, center, radius)
  {
  }

  /** Both roots of the quadratic formula solve the quadratic. */
  lemma RootSolves(q: Quadratic, s: real, sign: real)
    requires q.a != 0.0 && s * s == q.Discriminant() && sign * sign == 1.0
    ensures q.At(Root(q, s, sign)) == 0.0
  {
    var a, b, c := q.a, q.b, q.c;
    var t := Root(q, s, sign);
    var u := 2.0 * a * t;
    assert u == -b + sign * s;
    assert 4.0 * a * q.At(t) == u * u + 2.0 * b * u + 4.0 * a * c;
    assert u * u == b * b - 2.0 * b * sign * s + (sign * sign) * (s * s);
    assert 4.0 * a * q.At(t) == 0.0;
  }

  /** Between t = 0 and t = 1 a convex quadratic lies below its chord. */
  lemma BelowChord(q: Quadratic, t: real)
    requires 0.0 <= q.a && InUnit(t)
    ensures q.At(t) <= (1.0 - t) * q.At(0.0) + t * q.At(1.0)
  {
    assert q.At(t) - ((1.0 - t) * q.At(0.0) + t * q.At(1.0)) == -(q.a * (t * (1.0 - t)));
    MulNonNegative(t, 1.0 - t);
    MulNonNegative(q.a, t * (1.0 - t));
  }

  /** A convex quadratic that is negative at 0 and at 1 has no root in [0, 1]. */
  lemma NoRootInUnit(q: Quadratic, t: real)
    requires 0.0 <= q.a && q.At(0.0) < 0.0 && q.At(1.0) < 0.0 && q.At(t) == 0.0
    ensures !InUnit(t)
  {
    if InUnit(t) {
      BelowChord(q, t);
      MulNonNegative(1.0 - t, -q.At(0.0));
      MulNonNegative(t, -q.At(1.0));
      if t < 1.0 {
        MulPositive(1.0 - t, -q.At(0.0));
      } else {
        MulPositive(t, -q.At(1.0));
      }
    }
  }

  /** A segment with both end points strictly inside the circle is reported as not intersecting. */
  lemma InsideSegmentMisses(n: Numerics, start: Vec2, end: Vec2, center: Vec2, radius: real)
    requires SqrtExact(n)
    requires start.Sub(center).LengthSquared() < radius * radius
    requires end.Sub(center).LengthSquared() < radius * radius
    ensures !LineIntersectsCircle(n, start, end, center, radius)
  {
    var q := CircleQuadratic(start, end, center, radius);
    QuadraticEnds(start, end, center, radius);
    LeadingNonNegative(start, end, center, radius);
    var disc := q.Discriminant();
    if disc >= EPSILON && q.a != 0.0 {
      var s := n.sqrt(disc);
      assert s * s == disc;
      RootSolves(q, s, -1.0);
      RootSolves(q, s, 1.0);
      NoRootInUnit(q, Root(q, s, -1.0));
      NoRootInUnit(q, Root(q, s, 1.0));
    }
  }

  /** The larger root of a convex quadratic negative at 0 and not negative at 1 lies in [0, 1]. */
  lemma CrossingRootInUnit(q: Quadratic, s: real)
    requires 0.0 < q.a && q.At(0.0) < 0.0 && 0.0 <= q.At(1.0)
    requires 0.0 <= s && s * s == q.Discriminant()
    ensures InUnit(Root(q, s, 1.0))
  {
    var a, b, c := q.a, q.b, q.c;
    MulPositive(a, -c);
    assert s * s > b * b;
    if s < b { SquareMonotone(s, b); }
    var m := 2.0 * a + b;
    assert m * m - s * s == 4.0 * a * (a + b + c);
    MulNonNegative(a, a + b + c);
    if s > m { SquareMonotone(m, s); }
    DivideIntoUnit(a, -b + s);
    assert Root(q, s, 1.0) == (-b + s) / (2.0 * a);
  }

  lemma DivideIntoUnit(a: real, u: real)
    requires 0.0 < a && 0.0 <= u <= 2.0 * a
    ensures InUnit(u / (2.0 * a))
  {
    var t := u / (2.0 * a);
    assert t * (2.0 * a) == u;
    if t < 0.0 { MulPositive(-t, 2.0 * a); }
    if t > 1.0 { MulPositive(t - 1.0, 2.0 * a); }
  }

  lemma FractionInUnit(a: real, b: real)
    requires 0.0 <= a <= b && 0.0 < b
    ensures 0.0 <= a / b <= 1.0
  {
    var t := a / b;
    assert t * b == a;
    if t < 0.0 { MulPositive(-t, b); }
    if t > 1.0 { MulPositive(t - 1.0, b); }
  }

  /**
   * A segment of positive length that starts strictly inside the circle and ends on or outside
   * it is reported as intersecting, unless the discriminant falls below the EPSILON guard.
   */
  lemma CrossingSegmentHits(n: Numerics, start: Vec2, end: Vec2, center: Vec2, radius: real)
    requires SqrtExact(n)
    requires 0.0 < end.Sub(start).LengthSquared()
    requires start.Sub(center).LengthSquared() < radius * radius
    requires radius * radius <= end.Sub(center).LengthSquared()
    requires EPSILON <= CircleQuadratic(start, end, center, radius).Discriminant()
    ensures LineIntersectsCircle(n, start, end, center, radius)
  {
    var q := CircleQuadratic(start, end, center, radius);
    QuadraticEnds(start, end, center, radius);
    var s := n.sqrt(q.Discriminant());
    CrossingRootInUnit(q, s);
  }

  /** The smaller root of the second unit test case lies in [0, 1]. */
  lemma ExampleRootInUnit(s: real)
    requires 0.0 <= s && s * s == 1.92
    ensures InUnit(Root(Quadratic(4.0, -4.0, 0.88), s, -1.0))
  {
    if s >= 4.0 { SquareMonotone(3.0, s); }
    assert Root(Quadratic(4.0, -4.0, 0.88), s, -1.0) == (4.0 - s) / 8.0;
  }

  /** The first case of the unit test of src/math.rs: a segment passing outside the circle. */
  lemma LineMissesCircleExample(n: Numerics)
    ensures !LineIntersectsCircle(n, Vec2(-1.0, 1.0), Vec2(1.0, 1.0), Vec2(0.0, 0.0), 0.4)
  {
    var q := CircleQuadratic(Vec2(-1.0, 1.0), Vec2(1.0, 1.0), Vec2(0.0, 0.0), 0.4);
    assert q == Quadratic(4.0, -4.0, 1.84);
    assert q.Discriminant() < 0.0;
  }

  /** The second case of the unit test of src/math.rs: a segment crossing the circle, with the exact square root. */
  lemma LineHitsCircleExample(n: Numerics)
    requires SqrtExact(n)
    ensures LineIntersectsCircle(n, Vec2(-1.0, 1.0), Vec2(1.0, 1.0), Vec2(0.0, 0.8), 0.4)
  {
    var q := Quadratic(4.0, -4.0, 0.88);
    assert CircleQuadratic(Vec2(-1.0, 1.0), Vec2(1.0, 1.0), Vec2(0.0, 0.8), 0.4) == q;
    assert q.Discriminant() == 1.92;
    var s := n.sqrt(1.92);
    assert 0.0 <= s && s * s == 1.92;
    ExampleRootInUnit(s);
    assert QuadraticHitsUnit(n, q);
  }

  /** src/math.rs: two circles collide when their centres are at most r1 + r2 apart. */
  function CheckCirclesCollide(n: Numerics, center1: Vec2, radius1: real, center2: Vec2, radius2: real): bool {
    Distance(n, center1, center2) <= radius1 + radius2
  }

  lemma CirclesCollideSymmetric(n: Numerics, c1: Vec2, r1: real, c2: Vec2, r2: real)
    ensures CheckCirclesCollide(n, c1, r1, c2, r2) == CheckCirclesCollide(n, c2, r2, c1, r1)
  {
    DistanceSymmetric(n, c1, c2);
  }

  /** Touching circles (distance exactly r1 + r2) count as colliding. */
  lemma CirclesCollideInclusive(n: Numerics, c1: Vec2, r1: real, c2: Vec2, r2: real)
    requires Distance(n, c1, c2) == r1 + r2
    ensures CheckCirclesCollide(n, c1, r1, c2, r2)
  {
  }

  /** The two cases of the unit test of src/math.rs, with the exact square root. */
  lemma CirclesCollideExamples(n: Numerics)
    requires SqrtExact(n)
    ensures CheckCirclesCollide(n, Vec2(0.0, 0.0), 1.0, Vec2(1.5, 0.7), 1.0)
    ensures !CheckCirclesCollide(n, Vec2(0.0, 0.0), 1.0, Vec2(1.9, 0.9), 1.0)
  {
    assert Vec2(0.0, 0.0).Sub(Vec2(1.5, 0.7)).LengthSquared() == 2.74;
    assert Vec2(0.0, 0.0).Sub(Vec2(1.9, 0.9)).LengthSquared() == 4.42;
    var s1, s2 := n.sqrt(2.74), n.sqrt(4.42);
    assert 0.0 <= s1 && s1 * s1 == 2.74;
    assert 0.0 <= s2 && s2 * s2 == 4.42;
    if s1 > 2.0 { SquareMonotone(2.0, s1); }
    if s2 < 2.0 { SquareMonotone(s2, 2.0); }
  }

  /** src/math.rs: the vector turned a quarter to the left. */
  function FindPerpendicularVector(v: Vec2): (r: Vec2)
    ensures r.Dot(v) == 0.0
    ensures r.LengthSquared() == v.LengthSquared()
  {
    Vec2(-v.y, v.x)
  }

  lemma PerpendicularTwiceNegates(v: Vec2)
    ensures FindPerpendicularVector(FindPerpendicularVector(v)) == v.Neg()
  {
  }
}
