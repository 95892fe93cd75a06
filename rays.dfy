/**
 * What the two wall raycasters (src/draw.rs and src/draw/wall.rs) share: the
 * ray fan across the field of view, the nearest of the hits of one ray, and
 * the `enumerate().filter_map` that keeps the rays with a hit.
 */
module Rays {
  import opened Wrappers
  import opened Constants
  import opened Seqs
  import opened ArgMin

  /** The number of rays, one per screen column and one more for the right edge. */
  const RAY_COUNT: nat := HORIZONTAL_WALL_SEGEMENTS + 1

  /**
   * The angle of ray k. The range `0..=SEGMENTS` is walked in reverse, so
   * ray k is turned by `-FOV/2 + (SEGMENTS - k) * FOV/SEGMENTS`.
   */
  function RayAngle(k: nat): real
    requires k < RAY_COUNT
  {
    -(FOV / 2.0) + (HORIZONTAL_WALL_SEGEMENTS - k) as real * (FOV / HORIZONTAL_WALL_SEGEMENTS as real)
  }

  /** The fan runs from +FOV/2 down to -FOV/2, with the middle ray straight ahead. */
  lemma RayAngleEnds()
    ensures RayAngle(0) == FOV / 2.0
    ensures RayAngle(HORIZONTAL_WALL_SEGEMENTS) == -(FOV / 2.0)
    ensures RayAngle(HORIZONTAL_WALL_SEGEMENTS / 2) == 0.0
  {
  }

  /** The angles fall strictly from ray to ray, by the same step each time. */
  lemma RayAnglesDecrease(j: nat, k: nat)
    requires j < k < RAY_COUNT
    ensures RayAngle(k) < RayAngle(j)
    ensures RayAngle(j) - RayAngle(k) == (k - j) as real * (FOV / HORIZONTAL_WALL_SEGEMENTS as real)
  {
  }

  /** The fan is symmetric about the look direction. */
  lemma RayAnglesSymmetric(k: nat)
    requires k < RAY_COUNT
    ensures RayAngle(HORIZONTAL_WALL_SEGEMENTS - k) == -RayAngle(k)
  {
  }

  /**
   * The hit with the least key among the present hits, the first one of them
   * on ties (`filter_map` followed by `min_by` with `total_cmp`).
   */
  function Nearest<H>(hits: seq<Option<H>>, key: H -> real): (r: Option<H>)
    ensures r.None? <==> forall j :: 0 <= j < |hits| ==> hits[j].None?
    ensures r.Some? ==> r in hits
    ensures r.Some? ==> forall j :: 0 <= j < |hits| && hits[j].Some? ==> key(r.value) <= key(hits[j].value)
  {
    SomesMembers(hits);
    var r := MinBy(Somes(hits), key);
    assert r.Some? ==> r.value in Somes(hits);
    r
  }

  /**
   * The rays from index `k` on that hit something, as (column, hit) pairs in
   * column order.
   */
  function HitsFrom<R, H>(rays: seq<R>, cast: R -> Option<H>, k: nat): (r: seq<(nat, H)>)
    requires k <= |rays|
    ensures |r| <= |rays| - k
    ensures forall i :: 0 <= i < |r| ==> k <= r[i].0 < |rays| && cast(rays[r[i].0]) == Some(r[i].1)
    ensures forall i, j :: 0 <= i < j < |r| ==> r[i].0 < r[j].0
    decreases |rays| - k
  {
    if k == |rays| then []
    else
      var rest := HitsFrom(rays, cast, k + 1);
      match cast(rays[k])
      case Some(h) => [(k, h)] + rest
      case None => rest
  }

  /** Every ray from index `k` on that hits something has its pair. */
  lemma {:induction false} HitsFromComplete<R, H>(rays: seq<R>, cast: R -> Option<H>, k: nat, x: nat)
    requires k <= x < |rays| && cast(rays[x]).Some?
    ensures exists i :: 0 <= i < |HitsFrom(rays, cast, k)| && HitsFrom(rays, cast, k)[i] == (x, cast(rays[x]).value)
    decreases |rays| - k
  {
    var r := HitsFrom(rays, cast, k);
    if x == k {
      assert r[0] == (x, cast(rays[x]).value);
    } else {
      HitsFromComplete(rays, cast, k + 1, x);
      var rest := HitsFrom(rays, cast, k + 1);
      var i :| 0 <= i < |rest| && rest[i] == (x, cast(rays[x]).value);
      if cast(rays[k]).Some? {
        assert r[i + 1] == rest[i];
      } else {
        assert r[i] == rest[i];
      }
    }
  }

  /** The cast of every ray, in ray order. */
  function Casts<R, H>(rays: seq<R>, cast: R -> Option<H>): (r: seq<Option<H>>)
    ensures |r| == |rays|
    ensures forall j :: 0 <= j < |rays| ==> r[j] == cast(rays[j])
  {
    seq(|rays|, j requires 0 <= j < |rays| => cast(rays[j]))
  }

  /**
   * `map(cast).flatten()` keeps the same hits as `enumerate().filter_map`,
   * in the same order: its i-th value is the hit of the i-th pair.
   */
  lemma {:induction false} SomesAreHits<R, H>(rays: seq<R>, cast: R -> Option<H>, k: nat)
    requires k <= |rays|
    ensures |Somes(Casts(rays, cast)[k..])| == |HitsFrom(rays, cast, k)|
    ensures forall i :: 0 <= i < |HitsFrom(rays, cast, k)| ==>
              Somes(Casts(rays, cast)[k..])[i] == HitsFrom(rays, cast, k)[i].1
    decreases |rays| - k
  {
    var casts := Casts(rays, cast);
    if k < |rays| {
      SomesAreHits(rays, cast, k + 1);
      assert casts[k..][1..] == casts[k + 1..];
      assert casts[k..][0] == cast(rays[k]);
    }
  }
}
