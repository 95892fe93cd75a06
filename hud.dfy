/**
 * The text and bar overlays: src/draw/bullets_display.rs,
 * src/draw/key_display.rs and src/draw/health_display.rs. Each is drawn at
 * depth -1, after everything in the world.
 */
module Hud {
  import opened Model
  import opened Constants
  import Renderer

  /** The depth of every overlay. */
  const HUD_Z_INDEX: real := -1.0

  /** "Reloading..." while reloading, else the bullets left out of the magazine size. */
  function BulletsText(info: PlayerInfo): (r: string)
    ensures info.shootingStatus == Reloading ==> r == "Reloading..."
    ensures info.shootingStatus != Reloading ==>
      r == "Bullets:" + Renderer.Decimal(info.bullets) + "/" + Renderer.Decimal(MAX_BULLETS)
  {
    if info.shootingStatus.Reloading? then "Reloading..."
    else "Bullets:" + Renderer.Decimal(info.bullets) + "/" + Renderer.Decimal(MAX_BULLETS)
  }

  /** Only the status and the bullet count decide the text. */
  lemma BulletsTextDependsOnCounter(a: PlayerInfo, b: PlayerInfo)
    requires a.shootingStatus == b.shootingStatus && a.bullets == b.bullets
    ensures BulletsText(a) == BulletsText(b)
  {
  }

  /** The count shown reads back as the bullets the player has. */
  lemma BulletsTextReadsBack(info: PlayerInfo)
    requires info.shootingStatus != Reloading
    ensures var r := BulletsText(info);
      |r| > 8 + |Renderer.Decimal(info.bullets)|
      && Renderer.ParseDecimal(r[8..8 + |Renderer.Decimal(info.bullets)|]) == info.bullets
  {
    NumeratorReadsBack("Bullets:", info.bullets, MAX_BULLETS);
  }

  /** "Find the exit" once every key is picked up, else picked up out of all keys. */
  function KeysText(gameObjects: GameObjects): (r: string)
    ensures gameObjects.keys == [] ==> r == KEYS_UI_FIND_EXIT_TEXT
    ensures gameObjects.keys != [] ==>
      r == "Keys:" + Renderer.Decimal(gameObjects.playerInfo.pickedUpKeys) + "/"
           + Renderer.Decimal(gameObjects.playerInfo.pickedUpKeys + |gameObjects.keys|)
  {
    if gameObjects.keys == [] then KEYS_UI_FIND_EXIT_TEXT
    else
      "Keys:" + Renderer.Decimal(gameObjects.playerInfo.pickedUpKeys) + "/"
      + Renderer.Decimal(gameObjects.playerInfo.pickedUpKeys + |gameObjects.keys|)
  }

  /** In a text `prefix + a + "/" + b`, the part after the prefix reads back as `a`. */
  lemma NumeratorReadsBack(prefix: string, a: nat, b: nat)
    ensures var da := Renderer.Decimal(a);
      var r := prefix + da + "/" + Renderer.Decimal(b);
      Renderer.ParseDecimal(r[|prefix|..|prefix| + |da|]) == a
  {
    var da, db := Renderer.Decimal(a), Renderer.Decimal(b);
    var r := prefix + da + "/" + db;
    var front := r[|prefix|..|prefix| + |da|];
    assert front == da;
    Renderer.DecimalRoundTrip(a);
  }

  /** ... and the part after the slash reads back as `b`. */
  lemma DenominatorReadsBack(prefix: string, a: nat, b: nat)
    ensures var da := Renderer.Decimal(a);
      var r := prefix + da + "/" + Renderer.Decimal(b);
      Renderer.ParseDecimal(r[|prefix| + |da| + 1..]) == b
  {
    var da, db := Renderer.Decimal(a), Renderer.Decimal(b);
    var r := prefix + da + "/" + db;
    var back := r[|prefix| + |da| + 1..];
    assert back == db;
    Renderer.DecimalRoundTrip(b);
  }

  /** The text reads back as the keys picked up and, larger than that while keys remain, the picked-up and remaining keys together. */
  lemma KeysTextReadsBack(gameObjects: GameObjects)
    requires gameObjects.keys != []
    ensures var picked := Renderer.Decimal(gameObjects.playerInfo.pickedUpKeys);
      var r := KeysText(gameObjects);
      |r| > 6 + |picked|
      && Renderer.ParseDecimal(r[5..5 + |picked|]) == gameObjects.playerInfo.pickedUpKeys
      && Renderer.ParseDecimal(r[6 + |picked|..]) == gameObjects.playerInfo.pickedUpKeys + |gameObjects.keys|
  {
    NumeratorReadsBack("Keys:", gameObjects.playerInfo.pickedUpKeys, gameObjects.playerInfo.pickedUpKeys + |gameObjects.keys|);
    DenominatorReadsBack("Keys:", gameObjects.playerInfo.pickedUpKeys, gameObjects.playerInfo.pickedUpKeys + |gameObjects.keys|);
  }

  /** The length of the health bar: the health's share of the maximum, of the full width. */
  function BarLength(health: real): (r: real)
    ensures health == PLAYER_MAX_HEALTH ==> r == HEALTH_DISPLAY_WIDTH
    ensures health == 0.0 ==> r == 0.0
    ensures health < 0.0 <==> r < 0.0
  {
    (health / PLAYER_MAX_HEALTH) * HEALTH_DISPLAY_WIDTH
  }

  /** More health is a longer bar; the bar is not clamped. */
  lemma BarLengthMonotone(h1: real, h2: real)
    requires h1 <= h2
    ensures BarLength(h1) <= BarLength(h2)
  {
  }
}
