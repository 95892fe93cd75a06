/**
 * src/model/decoration.rs: a sprite on the map with an optional lifetime in
 * seconds that counts down every tick.
 */
module Decorations {
  import opened Wrappers
  import opened Model
  import opened Assets

  // The Decoration record itself is declared in Model, beside GameObjects,
  // which holds the decorations on the map.

  /** A decoration that is still on the map: either permanent or with life left. */
  predicate Alive(d: Decoration) {
    d.life.None? || d.life.value > 0.0
  }

  /**
   * One tick: a permanent decoration is kept as it is; a timed one loses
   * `delta` of its life and disappears once nothing is left.
   */
  function Update(d: Decoration, delta: real): (r: Option<Decoration>)
    ensures d.life.None? ==> r == Some(d)
    ensures d.life.Some? && d.life.value - delta <= 0.0 ==> r.None?
    ensures d.life.Some? && d.life.value - delta > 0.0 ==> r == Some(d.(life := Some(d.life.value - delta)))
    ensures r.Some? ==> Alive(r.value) || r.value == d
  {
    if d.life.None? then Some(d)
    else
      var newLife := d.life.value - delta;
      if newLife <= 0.0 then None
      else Some(d.(life := Some(newLife)))
  }

  /** A tick keeps a live decoration alive or removes it. */
  lemma UpdateKeepsAlive(d: Decoration, delta: real)
    requires Alive(d)
    ensures Update(d, delta).Some? ==> Alive(Update(d, delta).value)
  {
  }

  /** Two ticks a decoration survives count down as much as one tick of their sum. */
  lemma UpdateTwice(d: Decoration, d1: real, d2: real)
    requires Update(d, d1).Some? && Update(Update(d, d1).value, d2).Some?
    ensures Update(Update(d, d1).value, d2) == Update(d, d1 + d2)
  {
  }

  /** With life left, a decoration ticked by a non-negative delta never gains life. */
  lemma UpdateShortensLife(d: Decoration, delta: real)
    requires d.life.Some? && 0.0 <= delta
    requires Update(d, delta).Some?
    ensures Update(d, delta).value.life.value <= d.life.value
    ensures Update(d, delta).value.(life := d.life) == d
  {
  }

  /**
   * The texture to draw: the default one without textures, the only one when
   * there is one, and otherwise the frame the animation selects.
   * `selectAnimation` is the animation frame selection of src/draw.rs.
   */
  function GetTexture(d: Decoration, elapsed: nat, defaultTexture: TextureId,
                      selectAnimation: (seq<TextureId>, nat, nat) -> TextureId): (r: TextureId)
    ensures |d.textures| == 0 ==> r == defaultTexture
    ensures |d.textures| == 1 ==> r == d.textures[0]
    ensures |d.textures| >= 2 ==> r == selectAnimation(d.textures, d.animationSpeed, elapsed)
  {
    match |d.textures|
    case 0 => defaultTexture
    case 1 => d.textures[0]
    case _ => selectAnimation(d.textures, d.animationSpeed, elapsed)
  }

  /** A decoration with one texture shows it at every moment. */
  lemma SingleTextureIsStill(d: Decoration, t1: nat, t2: nat, defaultTexture: TextureId,
                             selectAnimation: (seq<TextureId>, nat, nat) -> TextureId)
    requires |d.textures| == 1
    ensures GetTexture(d, t1, defaultTexture, selectAnimation) == GetTexture(d, t2, defaultTexture, selectAnimation)
    ensures GetTexture(d, t1, defaultTexture, selectAnimation) in d.textures
  {
  }
}
