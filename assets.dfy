/**
 * Identifiers of the game's textures and sounds. One enumeration covers every
 * snapshot of the sources: the older `Texture { Debug, Stone }` is a subset.
 */
module Assets {
  datatype TextureId =
    | Debug | Stone | Metal | Door
    | Key1 | Key2
    | Gun1 | Gun2 | Gun3 | Gun4 | Gun5 | Gun6 | Gun7 | Gun8
    | Enemy1 | Enemy2 | Enemy3 | Enemy4 | Enemy5 | Enemy6 | Enemy7 | Enemy8
    | RangedEnemy1 | RangedEnemy2 | RangedEnemy3 | RangedEnemy4
    | RangedEnemy5 | RangedEnemy6 | RangedEnemy7 | RangedEnemy8
    | MeleeSlowEnemy1 | MeleeSlowEnemy2 | MeleeSlowEnemy3 | MeleeSlowEnemy4
    | MeleeSlowEnemy5 | MeleeSlowEnemy6 | MeleeSlowEnemy7 | MeleeSlowEnemy8
    | Explostion1 | Explostion2 | Explostion3 | Explostion4 | Explostion5
    | Explostion6 | Explostion7 | Explostion8 | Explostion9
    | Skull | Projectile | TextFindTheKeys

  datatype SoundId = PickUpKey | PlayerTakeDamage | Shooting | ShotHit | Lose | Escape
}
