/**
 * What both texture managers share: the GPU texture handle as a value, and
 * the checkerboard fallback texture that `create_default_texture` builds.
 */
module Textures {
  import opened Wrappers
  import opened Seqs

  type byte = bv8

  datatype FilterMode = Nearest | Linear

  /**
   * A loaded texture: either built from raw RGBA pixels or decoded from the
   * bytes of an image file, with the sampling filter set on it, if any.
   */
  datatype Texture2D =
    | FromRgba8(width: nat, height: nat, pixels: seq<byte>)
    | FromFile(bytes: seq<byte>, filter: Option<FilterMode>)

  const WIDTH: nat := 32
  const HEIGHT: nat := 32

  const MAGENTA: seq<byte> := [255, 0, 255, 255]
  const WHITE: seq<byte> := [255, 255, 255, 255]

  /** Pixel `i` is magenta right of the middle column in the top half, and left of it in the bottom half. */
  predicate IsMagenta(i: nat) {
    (i % WIDTH > WIDTH / 2) != (i > WIDTH * HEIGHT / 2)
  }

  function Pixel(i: nat): (p: seq<byte>)
    ensures |p| == 4
  {
    if IsMagenta(i) then MAGENTA else WHITE
  }

  /** The `flat_map` over pixel indices: each index contributes its four RGBA bytes. */
  function DefaultPixels(): seq<byte> {
    Flatten(seq(WIDTH * HEIGHT, i requires 0 <= i => Pixel(i)))
  }

  /** Bytes `4*i .. 4*i+4` of a flattened sequence of 4-byte groups are group `i`. */
  predicate GroupAt(s: seq<byte>, i: nat, g: seq<byte>) {
    4 * i + 4 <= |s| && s[4 * i .. 4 * i + 4] == g
  }

  lemma {:induction false} FlattenQuads(ss: seq<seq<byte>>)
    requires forall i :: 0 <= i < |ss| ==> |ss[i]| == 4
    ensures |Flatten(ss)| == 4 * |ss|
    ensures forall i :: 0 <= i < |ss| ==> GroupAt(Flatten(ss), i, ss[i])
    decreases |ss|
  {
    if ss != [] {
      var rest := Flatten(ss[1..]);
      FlattenQuads(ss[1..]);
      assert Flatten(ss) == ss[0] + rest;
      forall i | 0 <= i < |ss|
        ensures GroupAt(Flatten(ss), i, ss[i])
      {
        if i == 0 {
          assert Flatten(ss)[0..4] == ss[0];
        } else {
          assert GroupAt(rest, i - 1, ss[1..][i - 1]);
          assert Flatten(ss)[4 * i .. 4 * i + 4] == rest[4 * (i - 1) .. 4 * (i - 1) + 4];
        }
      }
    }
  }

  /**
   * The default texture is 32 by 32 pixels given as 4096 bytes, and pixel `i`
   * is magenta exactly when it lies in the flipped half, opaque white otherwise.
   */
  lemma DefaultPixelsLayout()
    ensures |DefaultPixels()| == WIDTH * HEIGHT * 4 == 4096
    ensures forall i :: 0 <= i < WIDTH * HEIGHT ==>
      (IsMagenta(i) ==> GroupAt(DefaultPixels(), i, MAGENTA)) && (!IsMagenta(i) ==> GroupAt(DefaultPixels(), i, WHITE))
  {
    var ss := seq(WIDTH * HEIGHT, i requires 0 <= i => Pixel(i));
    FlattenQuads(ss);
    assert DefaultPixels() == Flatten(ss);
    forall i | 0 <= i < WIDTH * HEIGHT
      ensures (IsMagenta(i) ==> GroupAt(DefaultPixels(), i, MAGENTA)) && (!IsMagenta(i) ==> GroupAt(DefaultPixels(), i, WHITE))
    {
      assert GroupAt(Flatten(ss), i, ss[i]);
      assert ss[i] == Pixel(i);
    }
  }

  /** The fallback texture of both managers. */
  function CreateDefaultTexture(): (t: Texture2D)
    ensures t.FromRgba8? && t.width == WIDTH && t.height == HEIGHT
    ensures |t.pixels| == t.width * t.height * 4
  {
    DefaultPixelsLayout();
    FromRgba8(WIDTH, HEIGHT, DefaultPixels())
  }

  /** Corners of the checkerboard: the top-left pixel is white, pixel 17 of the first row magenta. */
  lemma DefaultTextureCorners()
    ensures GroupAt(CreateDefaultTexture().pixels, 0, WHITE)
    ensures GroupAt(CreateDefaultTexture().pixels, 17, MAGENTA)
    ensures GroupAt(CreateDefaultTexture().pixels, 600, WHITE)
    ensures GroupAt(CreateDefaultTexture().pixels, 520, MAGENTA)
  {
    DefaultPixelsLayout();
    assert !IsMagenta(0) && IsMagenta(17) && !IsMagenta(600) && IsMagenta(520);
  }
}
