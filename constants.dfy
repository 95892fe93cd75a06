/** The tuning constants of src/constants.rs that the modelled core reads. */
module Constants {
  /** Number of screen columns of the wall raycaster (the source spells it SEGEMENTS). */
  const HORIZONTAL_WALL_SEGEMENTS: nat := 200
  /** `std::f32::consts::PI`, the exact value of the nearest `f32`. */
  const PI: real := 3.1415927410125732421875
  const FOV: real := PI / 4.0
  const VIEW_DISTANCE: real := 1000.0
  const WALL_RESOLUTION: real := 10000.0

  const PLAYER_MAX_HEALTH: real := 100.0
  const PLAYER_SIZE: real := 0.2
  const MOVE_SPEED: real := 1.9

  const KEY_SIZE: real := 0.5

  /** Milliseconds per frame of the gun firing animation. */
  const GUN_FIRE_ANIMATION_SPEED: nat := 80

  const ENEMY_SIZE: real := 0.8
  const ENEMY_HP: real := 100.0
  const ENEMY_MAX_CHASE_DISTANCE: real := 40.0

  const RELOAD_SPEED: real := 3.0
  const SHOOT_SPEED: real := 0.1
  const MAX_BULLETS: nat := 30
  const GUN_DAMAGE: real := 50.0
  const MAX_SHOOT_DISTANCE: real := 100.0

  const CREATE_GUNSHOT_HIT_ANIMATION_OFFSET_TO_CAMERA: real := 0.1

  const CORPSE_SIZE: real := 0.15
  const CORPSE_OFFSET: real := 0.45

  const KEYS_UI_FIND_EXIT_TEXT: string := "Find the exit"

  const HEALTH_DISPLAY_WIDTH: real := 0.14

  const TEXTURE_PATH: string := "resources/textures/"
}
