/**
 * src/draw/sprite_2d.rs: billboard sprites. A sprite is projected into the
 * view unless it lies wholly outside the field of view; its depth is its
 * distance and its size and vertical offset shrink with that distance.
 */
module Sprites {
  import opened Wrappers
  import opened Vectors
  import opened Math
  import opened Model
  import opened Assets
  import opened Constants
  import opened Seqs
  import Draw
  import Rays

  /**
   * A sprite as the renderer sees it at one moment: the values of the
   * `Sprite2D` getters for the current elapsed time.
   */
  datatype SpriteView = SpriteView(position: Vec2, verticalOffset: real, size: real, texture: TextureId)

  datatype SpriteDrawable = SpriteDrawable(texture: TextureId, x: real, zIndex: real, brightness: real,
                                           verticalOffset: real, size: real)

  /** `DebugSprite2D`: a small Debug-textured marker at the entity's position. */
  function DebugSprite(entity: Entity): (s: SpriteView)
    ensures s.position == entity.position
    ensures s.size == 0.1 && s.verticalOffset == 0.0 && s.texture == Debug
  {
    SpriteView(entity.position, 0.0, 0.1, Debug)
  }

  /** The size on screen of a sprite seen from `distance`. */
  function ScreenSize(size: real, distance: real): real {
    SafeDiv(size, distance)
  }

  /** The sprite lies wholly outside the field of view: it is not drawn. */
  predicate Culled(angle: real, screenSize: real) {
    Draw.Abs(angle) - screenSize / 2.0 > FOV / 2.0
  }

  /**
   * The projection of one sprite. `brightness` is the distance shading of
   * the draw module.
   */
  function SpriteToDrawable(n: Numerics, brightness: real -> real, cameraPos: Vec2, cameraLook: Vec2, sprite: SpriteView): (r: Option<SpriteDrawable>)
    ensures var v := sprite.position.Sub(cameraPos);
      r.None? <==> Culled(n.angleBetween(cameraLook, v), ScreenSize(sprite.size, Length(n, v)))
    ensures r.Some? ==> var distance := Length(n, sprite.position.Sub(cameraPos));
      r.value.zIndex == distance
      && r.value.size == ScreenSize(sprite.size, distance)
      && r.value.verticalOffset == sprite.verticalOffset * SafeDiv(1.0, distance)
      && r.value.texture == sprite.texture
      && r.value.brightness == brightness(distance)
  {
    var v := sprite.position.Sub(cameraPos);
    var distance := Length(n, v);
    var spriteSize := ScreenSize(sprite.size, distance);
    var halfSpriteSize := spriteSize / 2.0;
    var angle := n.angleBetween(cameraLook, v);
    if Culled(angle, spriteSize) then None
    else
      var screenX := 0.5 - SafeDiv(n.tan(angle), n.tan(FOV / 2.0)) * 0.5 - halfSpriteSize;
      Some(SpriteDrawable(sprite.texture, screenX, distance, brightness(distance),
                          sprite.verticalOffset * SafeDiv(1.0, distance), spriteSize))
  }

  /** A sprite within the field of view is always drawn, whatever its size. */
  lemma InViewIsDrawn(n: Numerics, brightness: real -> real, cameraPos: Vec2, cameraLook: Vec2, sprite: SpriteView)
    requires SqrtNonNegative(n)
    requires 0.0 <= sprite.size
    requires Draw.Abs(n.angleBetween(cameraLook, sprite.position.Sub(cameraPos))) <= FOV / 2.0
    ensures SpriteToDrawable(n, brightness, cameraPos, cameraLook, sprite).Some?
  {
    var v := sprite.position.Sub(cameraPos);
    var d := Length(n, v);
    assert 0.0 <= v.LengthSquared() by { SquareNonNegative(v.x); SquareNonNegative(v.y); }
    if d != 0.0 {
      assert 0.0 <= sprite.size / d by { FractionNonNegative(sprite.size, d); }
    }
  }

  lemma FractionNonNegative(a: real, b: real)
    requires 0.0 <= a && 0.0 < b
    ensures 0.0 <= a / b
  {
    var t := a / b;
    assert t * b == a;
    if t < 0.0 { MulPositive(-t, b); }
  }

  /** A larger sprite at the same place is culled no sooner than a smaller one. */
  lemma LargerSpriteCulledLess(angle: real, s1: real, s2: real)
    requires s1 <= s2
    requires Culled(angle, s2)
    ensures Culled(angle, s1)
  {
  }

  /** The projection from a camera, which looks along its normalised look vector. */
  function Project(n: Numerics, brightness: real -> real, camera: Draw.Camera, sprite: SpriteView): Option<SpriteDrawable> {
    SpriteToDrawable(n, brightness, camera.position, NormalizeOrZero(n, camera.look), sprite)
  }

  /** `d` is the projection of one of the sprites. */
  predicate Projected(n: Numerics, brightness: real -> real, camera: Draw.Camera, sprites: seq<SpriteView>, d: SpriteDrawable) {
    exists j :: 0 <= j < |sprites| && Project(n, brightness, camera, sprites[j]) == Some(d)
  }

  /** `Project` from a fixed camera, as the mapped closure. */
  function ProjectFrom(n: Numerics, brightness: real -> real, camera: Draw.Camera): SpriteView -> Option<SpriteDrawable> {
    sprite => Project(n, brightness, camera, sprite)
  }

  /**
   * All sprites projected from the camera, in sprite order (the parallel
   * iterator's `collect` keeps the order): one drawable per sprite that is not
   * culled. The last two clauses say the i-th drawable is the projection of
   * the i-th sprite that is not culled: `Rays.HitsFrom` pairs each sprite that projects
   * with its drawable, in strictly increasing sprite index, and
   * `Rays.HitsFromComplete` says none is skipped.
   */
  function DrawSprites(n: Numerics, brightness: real -> real, camera: Draw.Camera, sprites: seq<SpriteView>): (r: seq<SpriteDrawable>)
    ensures |r| <= |sprites|
    ensures forall i :: 0 <= i < |r| ==> Projected(n, brightness, camera, sprites, r[i])
    ensures forall j :: 0 <= j < |sprites| && Project(n, brightness, camera, sprites[j]).Some? ==>
              Project(n, brightness, camera, sprites[j]).value in r
    ensures |r| == |Rays.HitsFrom(sprites, ProjectFrom(n, brightness, camera), 0)|
    ensures forall i :: 0 <= i < |r| ==> r[i] == Rays.HitsFrom(sprites, ProjectFrom(n, brightness, camera), 0)[i].1
  {
    var all := Rays.Casts(sprites, ProjectFrom(n, brightness, camera));
    SomesMembers(all);
    Rays.SomesAreHits(sprites, ProjectFrom(n, brightness, camera), 0);
    assert all[0..] == all;
    Somes(all)
  }

  /** Drawables come out in the order of the sprites they project. */
  lemma DrawSpritesKeepsOrder(n: Numerics, brightness: real -> real, camera: Draw.Camera, sprites: seq<SpriteView>, i: nat, j: nat)
    requires i < j < |DrawSprites(n, brightness, camera, sprites)|
    ensures exists a, b :: 0 <= a < b < |sprites|
              && Project(n, brightness, camera, sprites[a]) == Some(DrawSprites(n, brightness, camera, sprites)[i])
              && Project(n, brightness, camera, sprites[b]) == Some(DrawSprites(n, brightness, camera, sprites)[j])
  {
    var hits := Rays.HitsFrom(sprites, ProjectFrom(n, brightness, camera), 0);
    assert hits[i].0 < hits[j].0;
  }
}
