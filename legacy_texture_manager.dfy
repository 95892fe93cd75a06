/**
 * src/texture_manager.rs, the older texture table: only Debug and Stone, read
 * from a fixed path and stored without setting a sampling filter.
 */
module LegacyTextureManager {
  import opened Wrappers
  import opened Assets
  import opened Textures
  import TextureManager

  const STONE_PATH: string := "assets/stone.png"

  /** `load_texture`: insert the decoded file, or leave the map as it was when the file cannot be read. */
  function LoadTexture(textures: map<TextureId, Texture2D>, texture: TextureId, path: string,
                       read: TextureManager.FileSystem): (r: map<TextureId, Texture2D>)
    ensures read(path).None? ==> r == textures
    ensures read(path).Some? ==> texture in r && r[texture] == FromFile(read(path).value, None)
    ensures forall id :: id != texture ==> (id in r <==> id in textures)
    ensures forall id :: id != texture && id in textures ==> r[id] == textures[id]
  {
    match read(path)
    case None => textures
    case Some(bytes) => textures[texture := FromFile(bytes, None)]
  }

  datatype LegacyTextureManager = LegacyTextureManager(textures: map<TextureId, Texture2D>)

  /** `load`: Debug always holds the fallback texture, Stone exactly when its file could be read. */
  function Load(read: TextureManager.FileSystem): (tm: LegacyTextureManager)
    ensures Debug in tm.textures && tm.textures[Debug] == CreateDefaultTexture()
    ensures Stone in tm.textures <==> read(STONE_PATH).Some?
    ensures tm.textures.Keys <= {Debug, Stone}
  {
    LegacyTextureManager(LoadTexture(map[Debug := CreateDefaultTexture()], Stone, STONE_PATH, read))
  }

  /** `get_texture`: a missing texture falls back to Debug. */
  function GetTexture(tm: LegacyTextureManager, texture: TextureId): (t: Texture2D)
    requires Debug in tm.textures
    ensures texture in tm.textures ==> t == tm.textures[texture]
    ensures texture !in tm.textures ==> t == tm.textures[Debug]
  {
    if texture in tm.textures then tm.textures[texture] else tm.textures[Debug]
  }

  /** Without the stone image every wall is drawn with the checkerboard. */
  lemma MissingStoneShowsDefault(read: TextureManager.FileSystem)
    requires read(STONE_PATH).None?
    ensures GetTexture(Load(read), Stone) == CreateDefaultTexture()
  {
  }
}
