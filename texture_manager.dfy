/**
 * src/file_loaders/texture_manager.rs: the texture table. Loading puts the
 * fallback texture under Debug first and then every listed image whose file
 * could be read; a lookup falls back to Debug.
 */
module TextureManager {
  import opened Wrappers
  import opened Assets
  import opened Constants
  import opened Textures

  /** The images of walls, keys and the gun. */
  const SCENERY_PATHS: seq<(TextureId, string)> := [
    (Stone, "stone.png"),
    (Metal, "metal.png"),
    (Door, "door.png"),
    (Key1, "key/key1.png"),
    (Key2, "key/key2.png"),
    (Gun1, "gun/FAMAS_00.png"),
    (Gun2, "gun/FAMAS_03.png"),
    (Gun3, "gun/FAMAS_04.png"),
    (Gun4, "gun/FAMAS_05.png"),
    (Gun5, "gun/FAMAS_06.png"),
    (Gun6, "gun/FAMAS_07.png"),
    (Gun7, "gun/FAMAS_08.png"),
    (Gun8, "gun/FAMAS_09.png")
  ]

  /** The images of the melee enemy. */
  const MELEE_ENEMY_PATHS: seq<(TextureId, string)> := [
    (Enemy1, "enemy/melee/enemy1.png"),
    (Enemy2, "enemy/melee/enemy2.png"),
    (Enemy3, "enemy/melee/enemy3.png"),
    (Enemy4, "enemy/melee/enemy4.png"),
    (Enemy5, "enemy/melee/enemy5.png"),
    (Enemy6, "enemy/melee/enemy6.png"),
    (Enemy7, "enemy/melee/enemy7.png"),
    (Enemy8, "enemy/melee/enemy8.png")
  ]

  /** The images of the ranged enemy. */
  const RANGED_ENEMY_PATHS: seq<(TextureId, string)> := [
    (RangedEnemy1, "enemy/ranged/enemy1.png"),
    (RangedEnemy2, "enemy/ranged/enemy2.png"),
    (RangedEnemy3, "enemy/ranged/enemy3.png"),
    (RangedEnemy4, "enemy/ranged/enemy4.png"),
    (RangedEnemy5, "enemy/ranged/enemy5.png"),
    (RangedEnemy6, "enemy/ranged/enemy6.png"),
    (RangedEnemy7, "enemy/ranged/enemy7.png"),
    (RangedEnemy8, "enemy/ranged/enemy8.png")
  ]

  /** The images of the slow melee enemy. */
  const MELEE_SLOW_ENEMY_PATHS: seq<(TextureId, string)> := [
    (MeleeSlowEnemy1, "enemy/meleeSlow/enemy1.png"),
    (MeleeSlowEnemy2, "enemy/meleeSlow/enemy2.png"),
    (MeleeSlowEnemy3, "enemy/meleeSlow/enemy3.png"),
    (MeleeSlowEnemy4, "enemy/meleeSlow/enemy4.png"),
    (MeleeSlowEnemy5, "enemy/meleeSlow/enemy5.png"),
    (MeleeSlowEnemy6, "enemy/meleeSlow/enemy6.png"),
    (MeleeSlowEnemy7, "enemy/meleeSlow/enemy7.png"),
    (MeleeSlowEnemy8, "enemy/meleeSlow/enemy8.png")
  ]

  /** The images of the explosion. */
  const EXPLOSION_PATHS: seq<(TextureId, string)> := [
    (Explostion1, "explosion/1.png"),
    (Explostion2, "explosion/2.png"),
    (Explostion3, "explosion/3.png"),
    (Explostion4, "explosion/4.png"),
    (Explostion5, "explosion/5.png"),
    (Explostion6, "explosion/6.png"),
    (Explostion7, "explosion/7.png"),
    (Explostion8, "explosion/8.png"),
    (Explostion9, "explosion/9.png")
  ]

  /** The images of the corpse, the projectile and the exit sign. */
  const OTHER_PATHS: seq<(TextureId, string)> := [
    (Skull, "skull.png"),
    (Projectile, "projectile.png"),
    (TextFindTheKeys, "text/find_exit.png")
  ]

  /** The image files of the game, relative to TEXTURE_PATH, in the order of the source table. */
  const TEXTURE_PATHS: seq<(TextureId, string)> :=
    SCENERY_PATHS + MELEE_ENEMY_PATHS + RANGED_ENEMY_PATHS + MELEE_SLOW_ENEMY_PATHS + EXPLOSION_PATHS + OTHER_PATHS

  /** The position of an identifier in the enumeration, Debug first. */
  function Ordinal(t: TextureId): nat {
    match t
    case Debug => 0
    case Stone => 1
    case Metal => 2
    case Door => 3
    case Key1 => 4
    case Key2 => 5
    case Gun1 => 6
    case Gun2 => 7
    case Gun3 => 8
    case Gun4 => 9
    case Gun5 => 10
    case Gun6 => 11
    case Gun7 => 12
    case Gun8 => 13
    case Enemy1 => 14
    case Enemy2 => 15
    case Enemy3 => 16
    case Enemy4 => 17
    case Enemy5 => 18
    case Enemy6 => 19
    case Enemy7 => 20
    case Enemy8 => 21
    case RangedEnemy1 => 22
    case RangedEnemy2 => 23
    case RangedEnemy3 => 24
    case RangedEnemy4 => 25
    case RangedEnemy5 => 26
    case RangedEnemy6 => 27
    case RangedEnemy7 => 28
    case RangedEnemy8 => 29
    case MeleeSlowEnemy1 => 30
    case MeleeSlowEnemy2 => 31
    case MeleeSlowEnemy3 => 32
    case MeleeSlowEnemy4 => 33
    case MeleeSlowEnemy5 => 34
    case MeleeSlowEnemy6 => 35
    case MeleeSlowEnemy7 => 36
    case MeleeSlowEnemy8 => 37
    case Explostion1 => 38
    case Explostion2 => 39
    case Explostion3 => 40
    case Explostion4 => 41
    case Explostion5 => 42
    case Explostion6 => 43
    case Explostion7 => 44
    case Explostion8 => 45
    case Explostion9 => 46
    case Skull => 47
    case Projectile => 48
    case TextFindTheKeys => 49
  }

  /** `g` lists consecutive identifiers in enumeration order, starting after position `start`. */
  predicate InOrderFrom(g: seq<(TextureId, string)>, start: nat) {
    forall i :: 0 <= i < |g| ==> Ordinal(g[i].0) == start + i + 1
  }

  /** Concatenating two adjacent runs gives one run. */
  lemma InOrderAppend(a: seq<(TextureId, string)>, b: seq<(TextureId, string)>, start: nat)
    requires InOrderFrom(a, start) && InOrderFrom(b, start + |a|)
    ensures InOrderFrom(a + b, start)
  {
    forall i | 0 <= i < |a + b|
      ensures Ordinal((a + b)[i].0) == start + i + 1
    {
      if i >= |a| {
        assert (a + b)[i] == b[i - |a|];
      }
    }
  }

  lemma SceneryInOrder()
    ensures InOrderFrom(SCENERY_PATHS, 0)
  {
  }

  lemma MeleeEnemyInOrder()
    ensures InOrderFrom(MELEE_ENEMY_PATHS, 13)
  {
  }

  lemma RangedEnemyInOrder()
    ensures InOrderFrom(RANGED_ENEMY_PATHS, 21)
  {
  }

  lemma MeleeSlowEnemyInOrder()
    ensures InOrderFrom(MELEE_SLOW_ENEMY_PATHS, 29)
  {
  }

  lemma ExplosionInOrder()
    ensures InOrderFrom(EXPLOSION_PATHS, 37)
  {
    forall i | 0 <= i < |EXPLOSION_PATHS|
      ensures Ordinal(EXPLOSION_PATHS[i].0) == 37 + i + 1
    {
      if i < 5 {
        assert EXPLOSION_PATHS[i] == EXPLOSION_PATHS[..5][i];
      }
    }
  }

  lemma OtherInOrder()
    ensures InOrderFrom(OTHER_PATHS, 46)
  {
  }

  /** The table lists the identifiers in enumeration order, Debug excluded. */
  lemma TexturePathsInOrder()
    ensures |TEXTURE_PATHS| == 49
    ensures forall i :: 0 <= i < |TEXTURE_PATHS| ==> Ordinal(TEXTURE_PATHS[i].0) == i + 1
  {
    SceneryInOrder();
    MeleeEnemyInOrder();
    RangedEnemyInOrder();
    MeleeSlowEnemyInOrder();
    ExplosionInOrder();
    OtherInOrder();
    InOrderAppend(SCENERY_PATHS, MELEE_ENEMY_PATHS, 0);
    var a := SCENERY_PATHS + MELEE_ENEMY_PATHS;
    InOrderAppend(a, RANGED_ENEMY_PATHS, 0);
    var b := a + RANGED_ENEMY_PATHS;
    InOrderAppend(b, MELEE_SLOW_ENEMY_PATHS, 0);
    var c := b + MELEE_SLOW_ENEMY_PATHS;
    InOrderAppend(c, EXPLOSION_PATHS, 0);
    var d := c + EXPLOSION_PATHS;
    InOrderAppend(d, OTHER_PATHS, 0);
    assert TEXTURE_PATHS == d + OTHER_PATHS;
  }

  /** The texture table holds 49 images, one per identifier, and never overrides Debug. */
  lemma TexturePathsDistinct()
    ensures |TEXTURE_PATHS| == 49
    ensures forall i :: 0 <= i < |TEXTURE_PATHS| ==> TEXTURE_PATHS[i].0 != Debug
    ensures forall i, j :: 0 <= i < j < |TEXTURE_PATHS| ==> TEXTURE_PATHS[i].0 != TEXTURE_PATHS[j].0
  {
    TexturePathsInOrder();
  }

  /** The file system as the loader sees it: the bytes at a path, or None when reading fails. */
  type FileSystem = string -> Option<seq<byte>>

  /** `load_texture_with_filter`: an unreadable file is reported and skipped. */
  function LoadTextureWithFilter(textures: map<TextureId, Texture2D>, texture: TextureId, path: string,
                                 filter: FilterMode, read: FileSystem): map<TextureId, Texture2D>
  {
    match read(TEXTURE_PATH + path)
    case None => textures
    case Some(bytes) => textures[texture := FromFile(bytes, Some(filter))]
  }

  /** The map after loading every entry of `paths` in order, starting from `textures`. */
  function LoadAll(textures: map<TextureId, Texture2D>, paths: seq<(TextureId, string)>,
                   filter: FilterMode, read: FileSystem): map<TextureId, Texture2D>
    decreases |paths|
  {
    if paths == [] then textures
    else
      var last := paths[|paths| - 1];
      LoadTextureWithFilter(LoadAll(textures, paths[..|paths| - 1], filter, read), last.0, last.1, filter, read)
  }

  predicate Readable(read: FileSystem, path: string) {
    read(TEXTURE_PATH + path).Some?
  }

  /** Some entry for `id` names a file that can be read. */
  predicate Listed(paths: seq<(TextureId, string)>, read: FileSystem, id: TextureId) {
    exists j :: 0 <= j < |paths| && paths[j].0 == id && Readable(read, paths[j].1)
  }

  /** An entry is listed in `paths` when it is listed before the last one or is the last one. */
  lemma ListedSnoc(paths: seq<(TextureId, string)>, read: FileSystem, id: TextureId)
    requires paths != []
    ensures Listed(paths, read, id) <==>
      Listed(paths[..|paths| - 1], read, id) || (paths[|paths| - 1].0 == id && Readable(read, paths[|paths| - 1].1))
  {
    var init := paths[..|paths| - 1];
    if Listed(init, read, id) {
      var j :| 0 <= j < |init| && init[j].0 == id && Readable(read, init[j].1);
      assert paths[j] == init[j];
    }
    if Listed(paths, read, id) {
      var j :| 0 <= j < |paths| && paths[j].0 == id && Readable(read, paths[j].1);
      if j < |init| {
        assert init[j] == paths[j];
      }
    }
  }

  /** Loading adds exactly the identifiers whose file could be read; a failed read adds nothing. */
  lemma {:induction false} LoadAllKeys(textures: map<TextureId, Texture2D>, paths: seq<(TextureId, string)>,
                                       filter: FilterMode, read: FileSystem, id: TextureId)
    ensures id in LoadAll(textures, paths, filter, read) <==> id in textures || Listed(paths, read, id)
    decreases |paths|
  {
    if paths != [] {
      LoadAllKeys(textures, paths[..|paths| - 1], filter, read, id);
      ListedSnoc(paths, read, id);
    } else {
      assert !Listed(paths, read, id);
    }
  }

  /** An identifier no entry names keeps whatever texture it had. */
  lemma {:induction false} LoadAllKeepsUnlisted(textures: map<TextureId, Texture2D>, paths: seq<(TextureId, string)>,
                                                filter: FilterMode, read: FileSystem, id: TextureId)
    requires id in textures
    requires forall j :: 0 <= j < |paths| ==> paths[j].0 != id
    ensures id in LoadAll(textures, paths, filter, read)
    ensures LoadAll(textures, paths, filter, read)[id] == textures[id]
    decreases |paths|
  {
    if paths != [] {
      LoadAllKeepsUnlisted(textures, paths[..|paths| - 1], filter, read, id);
    }
  }

  /** With distinct identifiers, a readable entry ends up holding the image decoded from its file. */
  lemma {:induction false} LoadAllStoresFile(textures: map<TextureId, Texture2D>, paths: seq<(TextureId, string)>,
                                             filter: FilterMode, read: FileSystem, j: nat)
    requires j < |paths| && Readable(read, paths[j].1)
    requires forall a, b :: 0 <= a < b < |paths| ==> paths[a].0 != paths[b].0
    ensures paths[j].0 in LoadAll(textures, paths, filter, read)
    ensures LoadAll(textures, paths, filter, read)[paths[j].0] == FromFile(read(TEXTURE_PATH + paths[j].1).value, Some(filter))
    decreases |paths|
  {
    var init := paths[..|paths| - 1];
    if j < |init| {
      assert init[j] == paths[j];
      LoadAllStoresFile(textures, init, filter, read, j);
    }
  }

  /** `load_multiple_textures`: one insertion attempt per entry, in order. */
  method LoadMultipleTextures(textures: map<TextureId, Texture2D>, filter: FilterMode,
                              paths: seq<(TextureId, string)>, read: FileSystem)
    returns (r: map<TextureId, Texture2D>)
    ensures r == LoadAll(textures, paths, filter, read)
  {
    r := textures;
    for k := 0 to |paths|
      invariant r == LoadAll(textures, paths[..k], filter, read)
    {
      assert paths[..k + 1][..k] == paths[..k];
      var (texture, path) := paths[k];
      match read(TEXTURE_PATH + path) {
        case None =>
        case Some(bytes) =>
          r := r[texture := FromFile(bytes, Some(filter))];
      }
    }
    assert paths[..|paths|] == paths;
  }

  datatype TextureManager = TextureManager(textures: map<TextureId, Texture2D>)

  /**
   * `load`: Debug holds the fallback texture and is never overwritten, and
   * every other identifier is present exactly when its file could be read.
   */
  method Load(read: FileSystem) returns (tm: TextureManager)
    ensures Debug in tm.textures && tm.textures[Debug] == CreateDefaultTexture()
    ensures forall id :: id != Debug ==> (id in tm.textures <==> Listed(TEXTURE_PATHS, read, id))
    ensures tm.textures == LoadAll(map[Debug := CreateDefaultTexture()], TEXTURE_PATHS, Nearest, read)
  {
    var textures := map[Debug := CreateDefaultTexture()];
    textures := LoadMultipleTextures(textures, Nearest, TEXTURE_PATHS, read);
    tm := TextureManager(textures);
    TexturePathsDistinct();
    LoadAllKeepsUnlisted(map[Debug := CreateDefaultTexture()], TEXTURE_PATHS, Nearest, read, Debug);
    forall id | id != Debug
      ensures id in tm.textures <==> Listed(TEXTURE_PATHS, read, id)
    {
      LoadAllKeys(map[Debug := CreateDefaultTexture()], TEXTURE_PATHS, Nearest, read, id);
    }
  }

  /** `get_texture`: the stored texture, else the Debug one, which `load` always provides. */
  function GetTexture(tm: TextureManager, texture: TextureId): (t: Texture2D)
    requires Debug in tm.textures
    ensures texture in tm.textures ==> t == tm.textures[texture]
    ensures texture !in tm.textures ==> t == tm.textures[Debug]
  {
    if texture in tm.textures then tm.textures[texture] else tm.textures[Debug]
  }

  /** After `load` a missing image shows the checkerboard, and a readable one its own file. */
  lemma GetTextureAfterLoad(read: FileSystem, tm: TextureManager, j: nat)
    requires tm.textures == LoadAll(map[Debug := CreateDefaultTexture()], TEXTURE_PATHS, Nearest, read)
    requires Debug in tm.textures
    requires j < |TEXTURE_PATHS|
    ensures !Readable(read, TEXTURE_PATHS[j].1) ==> GetTexture(tm, TEXTURE_PATHS[j].0) == CreateDefaultTexture()
    ensures Readable(read, TEXTURE_PATHS[j].1) ==>
      GetTexture(tm, TEXTURE_PATHS[j].0) == FromFile(read(TEXTURE_PATH + TEXTURE_PATHS[j].1).value, Some(Nearest))
  {
    var init := map[Debug := CreateDefaultTexture()];
    TexturePathsDistinct();
    LoadAllKeepsUnlisted(init, TEXTURE_PATHS, Nearest, read, Debug);
    if Readable(read, TEXTURE_PATHS[j].1) {
      LoadAllStoresFile(init, TEXTURE_PATHS, Nearest, read, j);
    } else {
      var id := TEXTURE_PATHS[j].0;
      LoadAllKeys(init, TEXTURE_PATHS, Nearest, read, id);
      forall k | 0 <= k < |TEXTURE_PATHS| && TEXTURE_PATHS[k].0 == id
        ensures !Readable(read, TEXTURE_PATHS[k].1)
      {
        assert k == j;
      }
    }
  }
}
