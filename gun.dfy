/** src/draw/gun.rs: the gun frame on screen. */
module Gun {
  import opened Assets
  import opened Constants
  import Renderer

  /** The firing animation, without the idle frame Gun1. */
  const SHOOTING_TEXTURES: seq<TextureId> := [Gun2, Gun3, Gun4, Gun5, Gun6, Gun7, Gun8]

  /** `Duration::as_millis`. */
  function AsMillis(time: Renderer.Duration): nat {
    time / 1_000_000
  }

  /**
   * The idle frame when not shooting; otherwise the animation frame for the
   * elapsed time, one frame per GUN_FIRE_ANIMATION_SPEED milliseconds, looping.
   */
  function GunTexture(elapsed: Renderer.Duration, isShooting: bool): (r: TextureId)
    ensures !isShooting ==> r == Gun1
    ensures isShooting ==> r == SHOOTING_TEXTURES[(AsMillis(elapsed) / GUN_FIRE_ANIMATION_SPEED) % |SHOOTING_TEXTURES|]
    ensures isShooting <==> r != Gun1
    ensures r in SHOOTING_TEXTURES || r == Gun1
  {
    if isShooting then
      SHOOTING_TEXTURES[(AsMillis(elapsed) / GUN_FIRE_ANIMATION_SPEED) % |SHOOTING_TEXTURES|]
    else Gun1
  }

  /** The animation repeats after its seven frames. */
  lemma GunAnimationPeriodic(ms: nat)
    ensures GunTexture((ms + 7 * GUN_FIRE_ANIMATION_SPEED) * 1_000_000, true) == GunTexture(ms * 1_000_000, true)
  {
    assert AsMillis((ms + 7 * GUN_FIRE_ANIMATION_SPEED) * 1_000_000) == ms + 560;
    assert AsMillis(ms * 1_000_000) == ms;
    assert (ms + 560) / 80 == ms / 80 + 7;
  }

  /** Each frame is shown for GUN_FIRE_ANIMATION_SPEED milliseconds. */
  lemma GunFrameHolds(k: nat, offset: nat)
    requires offset < GUN_FIRE_ANIMATION_SPEED
    ensures GunTexture((k * GUN_FIRE_ANIMATION_SPEED + offset) * 1_000_000, true) == GunTexture(k * GUN_FIRE_ANIMATION_SPEED * 1_000_000, true)
    ensures GunTexture(k * GUN_FIRE_ANIMATION_SPEED * 1_000_000, true) == SHOOTING_TEXTURES[k % 7]
  {
    assert AsMillis((k * 80 + offset) * 1_000_000) == k * 80 + offset;
    assert AsMillis(k * 80 * 1_000_000) == k * 80;
    assert (k * 80 + offset) / 80 == k;
    assert (k * 80) / 80 == k;
  }

  datatype GunDrawable = GunDrawable(texture: TextureId) {
    /** The gun is drawn at depth 0, in front of everything at a positive distance. */
    function GetZIndex(): (z: real)
      ensures z == 0.0
    {
      0.0
    }
  }

  function DrawGun(elapsed: Renderer.Duration, isShooting: bool): (r: GunDrawable)
    ensures r.texture == GunTexture(elapsed, isShooting)
  {
    GunDrawable(GunTexture(elapsed, isShooting))
  }
}
