# raycast_shooter in Dafny

A verified model of the game rules of *raycast_shooter*, a first-person
shooter written in Rust on macroquad. The player walks a 2D map of wall
segments that is drawn with one ray per screen column. Melee enemies chase
the player and hurt them at close range. Projectiles fly in straight lines.
Keys must be collected before an exit trigger ends the level, and a
magazine-based gun hits the nearest enemy along the look direction.

The model covers:

- the per-tick services: movement gated by collisions, the enemy chase and
  sidestep, projectiles, key pickup, damage, the gun's state machine, hit-scan
  shooting and enemy culling;
- the entities: melee enemies and decorations;
- the input fold of the controller;
- the game-state transition table;
- the raycaster's bookkeeping: the ray fan, the nearest hit, texture offsets,
  z-index and height, and sprite culling;
- the draw-order sort;
- the HUD texts and the `MM:SS` time format;
- the exit hint;
- level conversion;
- the registries of best completion times, textures and sounds.

Floating point is modelled as `real`. The numeric library (square root,
trigonometry, `angle_between`, and the segment intersection of the `geo`
crate) is a `Numerics` value that is passed to every member that needs it.
Its laws are ghost predicates (`SqrtExact`, `SqrtOfZero`, `TrigAtZero`,
`Pythagorean`), and each lemma requires only the laws it uses.

Modules follow the source files:

| module | source |
|---|---|
| `Vectors`, `Math` | the glam vector type and src/math.rs |
| `Model`, `Assets`, `Constants` | the data files src/model.rs and src/model/*, and src/constants.rs |
| `Service` | src/service.rs |
| `PlayerService`, `EnemyService`, `KeyService`, `ProjectileService`, `Shoot` | src/service/* |
| `MeleeEnemies`, `Decorations` | src/model/melee_enemy.rs and src/model/decoration.rs |
| `Controller`, `GameStates` | src/controller.rs and src/game_state.rs |
| `Rays`, `Draw`, `WallDraw`, `Sprites`, `Gun`, `Hud`, `ExitText` | src/draw.rs and src/draw/* |
| `DrawOrder`, `Renderer` | src/renderer.rs and src/renderers.rs |
| `LevelLoader` | src/level_loader.rs |
| `CompletionTimes`, `Textures`, `TextureManager` | src/file_loaders/* |
| `LegacyTextureManager` | src/texture_manager.rs |
| `SoundManager` | src/sound_manager.rs |

`Seqs` and `ArgMin` hold the iterator adaptors the source uses:

- `filter`;
- `flatten`;
- `min_by`, which keeps the first minimum.

The repository mixes historical snapshots. For example, `Enemy` is a trait in
src/service/enemy.rs and a struct in src/model/enemy.rs, and there are two
texture managers and two decoration records. Each file is modelled against
its own types.

Where a described intent and the code differ, the model follows the code:

- projectiles test the player before the walls;
- an enemy sidesteps only along `+dir` of each blocking wall, never `-dir`;
- the Y/N end-screen keys are tested with N first.

Operations that change state in place are imperative Dafny:

- `GameStates.NormalRun` updates the fields of a `GameContext` object;
- `CompletionTimes.BestCompletionTimes` updates its map field in place;
- the `SoundManager` class updates its looped set and an audio call log;
- `DrawOrder.SortInPlace` is an insertion sort over an `array`;
- `Shoot.ShootEnemies` is built from the loops `DamageInPlace`, `CollectKilled` and `RetainAlive`;
- `TextureManager.LoadMultipleTextures` and `SoundManager.LoadSounds` are loops.

Each of these methods is proved against a function that specifies it, and
the properties are proved about that function.

## Model

| member | source | states |
|---|---|---|
| Math.DistanceNonNegative | src/math.rs:51-53 | with a non-negative square root, distances are never negative |
| Math.DistanceSymmetric | src/math.rs:51-53 | the distance from a to b equals the distance from b to a |
| Math.DistanceToSelf | src/math.rs:51-53 | a point is at distance 0 from itself |
| Math.RotateByZero | src/math.rs:3-9 | rotating by angle 0 about any origin returns the point |
| Math.RotatePreservesRadius | src/math.rs:3-9 | rotation keeps the squared distance to the origin of rotation |
| Math.FindIntersection | src/math.rs:11-28 | Some exactly when the segments meet in a single point, which is returned; collinear overlap gives None |
| Math.LeadingNonNegative | src/math.rs:30-49 | the quadratic of the segment/circle test has a non-negative leading coefficient |
| Math.QuadraticEnds | src/math.rs:30-49 | at t=0 and t=1 the quadratic is the squared distance from each endpoint to the centre, minus the squared radius |
| Math.SmallDiscriminantMisses | src/math.rs:34-41 | a discriminant below EPSILON (a zero-length segment included) never reports an intersection |
| Math.RootSolves | src/math.rs:43-47 | each root the code computes solves the quadratic |
| Math.NoRootInUnit | src/math.rs:43-47 | when both endpoints are inside the circle, no root lies in [0,1] |
| Math.InsideSegmentMisses | src/math.rs:30-49 | a segment with both endpoints strictly inside the circle is reported as not intersecting (test 91-103) |
| Math.CrossingRootInUnit | src/math.rs:43-47 | when the segment starts inside and ends outside, the larger root lies in [0,1] |
| Math.CrossingSegmentHits | src/math.rs:30-49 | a non-degenerate segment that leaves the circle is reported as intersecting |
| Math.LineMissesCircleExample | src/math.rs:92-103 | the unit test's segment misses the circle of radius 0.4 at the origin |
| Math.LineHitsCircleExample | src/math.rs:92-103 | the same segment meets the circle centred at (0, 0.8) |
| Math.CirclesCollideSymmetric | src/math.rs:51-53 | the circle collision test is symmetric in its two circles |
| Math.CirclesCollideInclusive | src/math.rs:51-53 | circles that exactly touch (distance = r1 + r2) collide |
| Math.CirclesCollideExamples | src/math.rs:106-119 | the overlapping pair of the test collides and the separated pair does not |
| Math.FindPerpendicularVector | src/math.rs:55-57 | the result is orthogonal to v and has v's squared length |
| Math.PerpendicularTwiceNegates | src/math.rs:55-57 | the perpendicular of the perpendicular is -v |
| Service.MoveEntity | src/service.rs:8-23 | size kept; the result is the input or the input moved by exactly `movement`; it moves iff no wall meets the destination circle |
| Service.MoveEntityLandsClear | src/service.rs:11-22 | an entity that moved ends where no wall touches it |
| Service.MoveEntityWithoutWalls | src/service.rs:11-13 | with no walls every move succeeds |
| Service.MoveEntityBlocked | src/service.rs:15-16 | one wall meeting the destination circle blocks the move entirely |
| Service.MoveEntityBlockedExample | src/service.rs:34-53 | the unit circle cannot rise by 1 under the wall at y = 1.5 (test 46-47) |
| Service.MoveEntityFreeExample | src/service.rs:34-53 | it can rise by 0.1 |
| Service.BlockedTargetHits | src/service.rs:34-53 | the circle at (0,1) with radius 1 reaches the test wall |
| PlayerService.MovePlayerEntity | src/service/player.rs:13-28 | size kept; all or nothing; for a non-zero move, it moves iff no wall meets the destination; a blocked move leaves the entity as it was |
| PlayerService.MovePlayer | src/service/player.rs:13-44 | look and size kept; a destination `position + direction·delta·MOVE_SPEED` that no wall touches is reached, and one that a wall touches leaves the player exactly as it was |
| PlayerService.CheckPickupKey | src/service/player.rs:46-61 | one `PickUpKey(id)` per touching key, in key order; keys are not removed |
| PlayerService.NoTouchNoPickup | src/service/player.rs:46-61 | no touching key gives no event |
| PlayerService.PickupsNameTouchedKeys | src/service/player.rs:46-61 | every event names a key the player touches |
| PlayerService.PickupNearKeyExample | src/service/player.rs:191-223 | the test's near key is picked up |
| PlayerService.NearKeyTouches | src/service/player.rs:191-223 | the test's near key touches the player |
| PlayerService.PickupFarKeyExample | src/service/player.rs:191-223 | the test's far key yields nothing |
| PlayerService.FarKeyMisses | src/service/player.rs:191-223 | the test's far key does not touch the player |
| PlayerService.TurnPlayer | src/service/player.rs:63-66 | turning changes only `look` |
| PlayerService.TurnByZero | src/service/player.rs:63-66 | turning by 0 changes nothing |
| PlayerService.TurnKeepsLookLength | src/service/player.rs:63-66 | turning keeps the look vector's length |
| PlayerService.AttackWithoutWalls | src/service/player.rs:68-83 | without walls an enemy attacks iff the player circle meets the attack-range circle |
| PlayerService.EnemyCanAttackPlayerExamples | src/service/player.rs:150-188 | just outside the range there is no attack; just inside there is |
| PlayerService.TickDamagePerAttacker | src/service/player.rs:85-102 | summing the per-enemy damage equals the number of attackers times the hit |
| PlayerService.DealDamageToPlayer | src/service/player.rs:85-102 | health drops by (attackers)·delta·ENEMY_DPS, other fields kept; never increases for delta ≥ 0 |
| PlayerService.IsPlayerAtExit | src/service/player.rs:104-113 | false when there are no exit triggers |
| PlayerService.AtExitOnTrigger | src/service/player.rs:104-113 | standing on a trigger is being at the exit |
| EnemyService.IntersectingWallsEmpty | src/service/enemy.rs:10-15 | no intersecting walls iff no wall meets the enemy's circle |
| EnemyService.AttackWithoutWalls | src/service/enemy.rs:17-32 | with no walls the attack test is the circle test with the given range |
| EnemyService.WallBlocksAttack | src/service/enemy.rs:17-32 | a wall crossing the enemy→player segment prevents the attack |
| ArgMin.MinByOfFilter | src/service/enemy.rs:40-54 | `filter(p).min_by(key)` is None when nothing satisfies `p`, else the first element satisfying `p` whose key is least among those |
| EnemyService.MoveEnemyToSides | src/service/enemy.rs:34-64 | unchanged when no candidate is free; otherwise moved to the first free candidate `position + dir` whose distance to the player is least among the free ones (every earlier free candidate is strictly farther), with size kept |
| EnemyService.WallDirections | src/service/enemy.rs:84-89 | one candidate direction per intersecting wall: normalize(start-end)·delta·MOVE_SPEED |
| EnemyService.MoveEnemy | src/service/enemy.rs:66-90 | size kept; beyond the chase distance unchanged; a clear direct step is taken; else the original, the step, or a free sidestep |
| EnemyService.FarEnemyStaysExample | src/service/enemy.rs:134-170 | an enemy 50 units away does not move (test 163-169) |
| EnemyService.UpdateEnemies | src/service/enemy.rs:92-108 | one updated enemy per input, in order; the events are concatenated in enemy order |
| MeleeEnemies.Update | src/model/melee_enemy.rs:42-51 | id and hp kept; entity is `move_enemy`'s result; one PlayerTakeDamage(delta·ENEMY_DPS) iff the moved enemy can attack |
| MeleeEnemies.TakeDamage | src/model/melee_enemy.rs:61-68 | hp drops by the damage; id and entity kept |
| MeleeEnemies.TakeDamageTwice | src/model/melee_enemy.rs:61-68 | two hits add up |
| MeleeEnemies.GetSize | src/model/melee_enemy.rs:29-31 | the draw size is non-negative for non-negative inputs |
| MeleeEnemies.Default | src/model/melee_enemy.rs:75-84 | default enemy at the origin with ENEMY_SIZE and ENEMY_HP |
| MeleeEnemies.TwoShotsKill | src/model/melee_enemy.rs:61-84 | a default enemy survives one GUN_DAMAGE hit and dies at the second |
| MeleeEnemies.UpdateMeleeEnemies | src/service/enemy.rs:92-108 | updating melee enemies keeps count, ids and hp, and emits only damage events |
| MeleeEnemies.DamageOnly | src/service/enemy.rs:92-108 | if each update emits only damage events, so does the whole pass |
| ProjectileService.FindProjectileHitWalls | src/service/projectile.rs:9-18 | None iff no wall intersects old→new |
| ProjectileService.HitIsFirstCrossedWall | src/service/projectile.rs:9-18 | the hit is that of the first crossed wall in list order |
| ProjectileService.UpdateProjectile | src/service/projectile.rs:20-64 | player hit first: removed with [PlayerTakeDamage, LocationShot]; else wall hit: removed with the offset LocationShot; else moved, no events |
| ProjectileService.RemovedProjectileReports | src/service/projectile.rs:20-64 | a removed projectile reports at least one event; a surviving one reports none |
| ProjectileService.PlayerHitIgnoresWalls | src/service/projectile.rs:27-41 | when the player is hit the walls make no difference |
| ProjectileService.Outcomes | src/service/projectile.rs:66-81 | one outcome per projectile |
| ProjectileService.UpdateProjectiles | src/service/projectile.rs:66-81 | survivors in order, events concatenated; at most as many survivors, at least one event per removed projectile |
| KeyService.Flagged | src/service/key.rs:7-20 | the collision flag is computed once per key |
| KeyService.EventsOf | src/service/key.rs:22-31 | every event is PickUpKey |
| KeyService.CheckPickupKey | src/service/key.rs:6-39 | remaining keys are exactly the non-touching ones in order; one PickUpKey per touching key |
| KeyService.PartitionMatchesFilters | src/service/key.rs:7-36 | the single-flag partition equals the two filters |
| KeyService.PickupPartitionsKeys | src/service/key.rs:6-39 | remaining + events = keys |
| KeyService.RemainingAreUntouched | src/service/key.rs:33-36 | remaining keys are untouched input keys, and every untouched key remains |
| KeyService.NoTouchKeepsKeys | src/service/key.rs:80-82 | no collision: keys returned unchanged, no event |
| KeyService.CheckPickupKeyExamples | src/service/key.rs:50-83 | the near key is picked up, the far one stays |
| Decorations.Update | src/model/decoration.rs:41-55 | permanent kept; expired removed; otherwise life shortened by delta; survivors alive or unchanged |
| Decorations.UpdateKeepsAlive | src/model/decoration.rs:46-54 | a surviving decoration is still alive |
| Decorations.UpdateTwice | src/model/decoration.rs:41-55 | two updates that both survive equal one update by the sum |
| Decorations.UpdateShortensLife | src/model/decoration.rs:51-54 | life never grows for delta ≥ 0, and nothing else changes |
| Decorations.GetTexture | src/model/decoration.rs:32-38 | default for no texture, the only texture for one, the animation for more |
| Decorations.SingleTextureIsStill | src/model/decoration.rs:32-38 | a one-texture decoration looks the same at any time |
| Controller.HandleLeft | src/controller.rs:16-22 | entity kept; look rotated by +TURN_SPEED·delta about the origin |
| Controller.HandleRight | src/controller.rs:24-30 | entity kept; look rotated by -TURN_SPEED·delta about the origin |
| Controller.HandleForward | src/controller.rs:32-41 | look and size kept; the player stays or moves by look·delta·MOVE_SPEED, and a clear destination is always reached |
| Controller.HandleBack | src/controller.rs:43-52 | look and size kept; the player stays or moves by -look·delta·MOVE_SPEED, and a clear destination is always reached |
| Controller.HandleInput | src/controller.rs:54-63 | empty input keeps the player; moves only keep look; turns only keep the entity |
| Controller.HandleInputAppend | src/controller.rs:54-63 | the fold is left to right: input a+b is a, then b |
| Controller.BlockedForwardKeepsPlayer | src/controller.rs:32-41 | a blocked Forward leaves the player identical |
| Controller.BlockedBackKeepsPlayer | src/controller.rs:43-52 | a blocked Back leaves the player identical |
| Controller.ForwardThenBackReturns | src/controller.rs:32-63 | without walls Forward then Back returns to the start |
| Controller.TurnWithoutTime | src/controller.rs:16-30 | turning for zero time changes nothing |
| GameStates.GameContext.constructor | src/game_state.rs:88-96 | the context holds the given world and start time |
| GameStates.ChooseOnEndScreen | src/game_state.rs:134-154 | N quits; else Y restarts; else stay |
| GameStates.NBeatsY | src/game_state.rs:136-139 | with N released, Y makes no difference |
| GameStates.Elapsed | src/game_state.rs:123-127 | the time since the start, as a non-negative duration |
| GameStates.AfterFrame | src/game_state.rs:123-129 | GameOver before GameWon(elapsed), else still Running with the same context |
| GameStates.GameOverWins | src/game_state.rs:123-129 | a world that is both lost and won is GameOver |
| GameStates.NormalRun | src/game_state.rs:104-132 | world replaced by reset, input, step in that order; start kept; state from AfterFrame; never quits |
| GameStates.EndScreenRun | src/game_state.rs:134-154 | quit iff N; Y gives a fresh Running from the initial world starting now; otherwise the screen stays (GameWon keeps its time) |
| GameStates.Run | src/game_state.rs:156-162 | a running game plays one frame and never quits; an end screen quits iff N is released, stays as it was unless restarted, and on restart becomes a fresh running context with the initial objects started now |
| Rays.RayAngleEnds | src/draw/wall.rs:57-68 | ray 0 is at +FOV/2, the last at -FOV/2, the middle at 0 |
| Rays.RayAnglesDecrease | src/draw/wall.rs:57-68 | angles fall by FOV/SEGMENTS per ray |
| Rays.RayAnglesSymmetric | src/draw/wall.rs:57-68 | the fan is symmetric about the look direction |
| Rays.Nearest | src/draw/wall.rs:76-91 | None iff no hit; otherwise a hit no farther than any other |
| Rays.HitsFrom | src/draw/wall.rs:134-160 | the rays with a hit, each once, in ray order |
| Rays.HitsFromComplete | src/draw/wall.rs:134-160 | every ray with a hit appears |
| Draw.ForPlayer | src/draw.rs:13-18 | camera at the player, look point VIEW_DISTANCE along the look |
| Draw.CreateRays | src/draw.rs:39-53 | SEGMENTS+1 rays, ray k is the look rotated by its angle |
| Draw.MiddleRayIsLook | src/draw.rs:39-53 | the middle ray is the look itself |
| Draw.RelativePositionInUnit | src/draw.rs:55-59 | a hit on the wall has relative position in [0,1] |
| Draw.Clamp | src/draw.rs:61-68 | result within bounds, equal to x when x is within them |
| Draw.NormalAngle | src/draw.rs:61-68 | the angle is acos of a value in [-1,1] |
| Draw.HitOf | src/draw.rs:70-89 | a hit iff the ray meets this wall; it carries the wall's texture |
| Draw.CastRay | src/draw.rs:70-89 | None iff no wall is met; else the hit of some wall, nearest of all |
| Draw.CastRayWithoutWalls | src/draw.rs:70-89 | no walls, no hit |
| Draw.Brightness | src/draw.rs:93-99 | brightness clamped to [0.3, 1.0] and equal to the square root inside that range |
| Draw.Height | src/draw.rs:93-99 | height is 1/distance |
| Draw.NearerIsTaller | src/draw.rs:93-99 | a nearer wall is drawn at least as tall |
| Draw.DrawWalls | src/draw.rs:135-157 | at most one column per ray, only for rays with a hit, z = distance, in ray order |
| Draw.EveryHitIsDrawn | src/draw.rs:135-157 | every ray with a hit gets its column |
| WallDraw.GetZIndex | src/draw/wall.rs:26-28 | z-index is the distance |
| WallDraw.CreateRays | src/draw/wall.rs:57-68 | SEGMENTS+1 rays, ray k rotated by its angle |
| WallDraw.SameRaysAsDraw | src/draw/wall.rs:57-68 | both snapshots build the same fan |
| WallDraw.AsU64 | src/draw/wall.rs:70-74 | saturating truncation to u64 |
| WallDraw.ResolutionSteps | src/draw/wall.rs:70-74 | WALL_RESOLUTION gives 10000 steps |
| WallDraw.TextureOffset | src/draw/wall.rs:70-74 | in [0,1) and a whole multiple of 1/WALL_RESOLUTION |
| WallDraw.TextureOffsetRepeats | src/draw/wall.rs:70-74 | the offset repeats with period 1 |
| WallDraw.HitOf | src/draw/wall.rs:76-91 | a hit iff the ray meets the wall; wall's texture, offset in [0,1) |
| WallDraw.CastRay | src/draw/wall.rs:76-91 | None iff no wall is met; else a hit of minimal distance |
| WallDraw.DrawWallsInOrder | src/draw/wall.rs:134-160 | at most one drawable per ray, each the column of a ray with a hit |
| WallDraw.DrawWallsResultColumns | src/draw/wall.rs:134-160 | any ordering of the drawables has z = distance and height = 1/distance |
| WallDraw.EveryHitIsDrawn | src/draw/wall.rs:134-160 | in any ordering, every ray with a hit is drawn |
| Sprites.DebugSprite | src/draw/sprite_2d.rs:75-89 | size 0.1, offset 0, texture Debug, at the entity |
| Sprites.SpriteToDrawable | src/draw/sprite_2d.rs:92-120 | culled iff \|angle\| - half size > FOV/2; else z = distance, size and offset scaled by 1/distance |
| Sprites.InViewIsDrawn | src/draw/sprite_2d.rs:103-107 | a sprite whose centre is in the field of view is never culled |
| Sprites.LargerSpriteCulledLess | src/draw/sprite_2d.rs:103-107 | if a larger sprite is culled, so is a smaller one at that angle |
| Sprites.DrawSprites | src/draw/sprite_2d.rs:122-134 | exactly the projections of the sprites that are not culled, one per such sprite, in sprite order: the i-th drawable is the drawable of the i-th pair of `Rays.HitsFrom` over the sprites |
| Sprites.DrawSpritesKeepsOrder | src/draw/sprite_2d.rs:122-134 | of two drawables, the earlier one projects an earlier sprite |
| Rays.SomesAreHits | src/draw/wall.rs:134-160 | flattening the casts gives the hits of `HitsFrom`, same number and same order |
| Gun.GunTexture | src/draw/gun.rs:43-61 | Gun1 iff not shooting; else frame (ms/80) mod 7 of the seven |
| Gun.GunAnimationPeriodic | src/draw/gun.rs:54-55 | the animation repeats every 7 frames |
| Gun.GunFrameHolds | src/draw/gun.rs:54-55 | each frame holds for GUN_FIRE_ANIMATION_SPEED ms |
| Gun.GunDrawable.GetZIndex | src/draw/gun.rs:11-13 | the gun is at z 0 |
| Gun.DrawGun | src/draw/gun.rs:43-61 | the drawable shows the selected texture |
| Hud.BulletsText | src/draw/bullets_display.rs:41-49 | "Reloading..." when reloading, else "Bullets:b/MAX" |
| Hud.BulletsTextDependsOnCounter | src/draw/bullets_display.rs:41-49 | only the status and the count matter |
| Hud.BulletsTextReadsBack | src/draw/bullets_display.rs:44-46 | the count can be read back from the text |
| Hud.KeysText | src/draw/key_display.rs:41-53 | the find-the-exit text when no key is left, else "Keys:p/p+left" |
| Hud.NumeratorReadsBack | src/draw/key_display.rs:44-50 | the number before "/" reads back |
| Hud.DenominatorReadsBack | src/draw/key_display.rs:44-50 | the number after "/" reads back |
| Hud.KeysTextReadsBack | src/draw/key_display.rs:41-53 | picked and total read back; the total is picked plus the keys left |
| Hud.BarLength | src/draw/health_display.rs:48-52 | full at max health, 0 at 0, negative exactly for negative health |
| Hud.BarLengthMonotone | src/draw/health_display.rs:48-52 | more health, longer bar |
| ExitText.CreateExitText | src/draw/exit_text_sprite.rs:34-59 | None without keys or without a touching trigger; else at a touching trigger with EXIT_TEXT_SIZE |
| ExitText.ExitTextAtNearest | src/draw/exit_text_sprite.rs:47-58 | the hint sits at the nearest touching trigger |
| ExitText.ExitTextSprite | src/draw/exit_text_sprite.rs:17-31 | position and size from the entity, constant offset, TextFindTheKeys texture |
| DrawOrder.InsertDesc | src/renderers.rs:29-33 | inserting adds one element |
| DrawOrder.SortDesc | src/renderers.rs:29-33 | the sorted list has the input's length |
| DrawOrder.InsertDescMultiset | src/renderers.rs:29-33 | insertion adds exactly the element |
| DrawOrder.InsertDescSorted | src/renderers.rs:29-33 | insertion keeps descending order |
| DrawOrder.SortDescSorted | src/renderers.rs:29-33 | the result is ordered by non-increasing z |
| DrawOrder.SortDescPermutation | src/renderers.rs:29-33 | the result is a permutation of the input |
| DrawOrder.InsertDescKeepsDepthOrder | src/renderers.rs:29-33 | insertion keeps the order of equal-z items |
| DrawOrder.SortDescStable | src/renderers.rs:29-33 | the sort is stable |
| DrawOrder.InsertDescAt | src/renderers.rs:29-33 | insertion places x after the items at least as far |
| DrawOrder.InsertStep | src/renderers.rs:29-33 | one in-place insertion step on the array |
| DrawOrder.SortInPlace | src/renderers.rs:29-33 | the array ends sorted as SortDesc of its old contents |
| DrawOrder.SortDrawables | src/renderer.rs:34-38 | the collected and sorted list is SortDesc of the input |
| Renderer.DigitChar | src/renderer.rs:123-127 | a digit character |
| Renderer.Decimal | src/renderer.rs:123-127 | decimal digits, one for k<10 and two for 10≤k<100 |
| Renderer.DigitRoundTrip | src/renderer.rs:123-127 | a digit reads back |
| Renderer.DecimalRoundTrip | src/renderer.rs:123-127 | a number's decimal text reads back |
| Renderer.Pad2 | src/renderer.rs:126 | padded to at least two characters |
| Renderer.LeadingZero | src/renderer.rs:126 | a leading zero does not change the value |
| Renderer.Pad2Value | src/renderer.rs:126 | padding keeps the value |
| Renderer.TimeToText | src/renderer.rs:123-127 | at least 5 characters with ':' before the last two; exactly 5 under 100 minutes |
| Renderer.PaddedReadsBack | src/renderer.rs:126 | a padded number reads back |
| Renderer.TimeToTextReadsBack | src/renderer.rs:123-127 | the minutes are secs/60 and the seconds are secs%60, below 60 |
| Renderer.SubSecondsIgnored | src/renderer.rs:123-127 | sub-second parts do not matter |
| Renderer.TimeToTextExample | src/renderer.rs:123-127 | 125.000000999 s is "02:05" |
| LevelLoader.ArrayToVec | src/level_loader.rs:113-115 | the point's coordinates |
| LevelLoader.IntoGameObjects | src/level_loader.rs:41-110 | Err(NoKeys) iff no keys; Err(NoExits) iff keys but no exits; else counts kept, player placed with normalized look, default player info, no decorations |
| LevelLoader.WallsCopied | src/level_loader.rs:50-58 | each wall keeps start, end and texture |
| LevelLoader.EnemiesPlaced | src/level_loader.rs:60-70 | each enemy is at its point with ENEMY_SIZE, ENEMY_HP and a fresh id |
| LevelLoader.KeysPlaced | src/level_loader.rs:72-82 | each key is at its point with KEY_SIZE and a fresh id |
| LevelLoader.ExitsCopied | src/level_loader.rs:88-95 | each exit keeps position and size |
| LevelLoader.LoadedLevelIsPlayable | src/level_loader.rs:84-99 | a converted level has keys and exits |
| LevelLoader.ZeroLookStaysZero | src/level_loader.rs:42-48 | a zero look stays zero |
| CompletionTimes.LoadedTimes | src/file_loaders/completion_time_loader.rs:25-33 | the file's map, or the empty map when reading fails |
| CompletionTimes.BestFor | src/file_loaders/completion_time_loader.rs:58-66 | the stored time, or Duration::MAX for an unknown level |
| CompletionTimes.FreshFileKnowsNoTimes | src/file_loaders/completion_time_loader.rs:25-33 | after a failed read every level has Duration::MAX |
| CompletionTimes.SavedTimes | src/file_loaders/completion_time_loader.rs:68-83 | inserted when absent; replaced only when the stored time is larger; other levels kept |
| CompletionTimes.SaveThenLoad | src/file_loaders/completion_time_loader.rs:58-83 | after a save the level's best is the minimum of old and new; other levels unchanged |
| CompletionTimes.SaveIdempotent | src/file_loaders/completion_time_loader.rs:68-83 | saving the same time twice is saving it once |
| CompletionTimes.SaveNeverWorsens | src/file_loaders/completion_time_loader.rs:68-83 | no stored time ever grows |
| CompletionTimes.SavesCommute | src/file_loaders/completion_time_loader.rs:68-83 | the order of two saves to a level does not matter |
| CompletionTimes.BestCompletionTimes.Load | src/file_loaders/completion_time_loader.rs:25-33 | the object holds the loaded map |
| CompletionTimes.BestCompletionTimes.LoadBestForLevel | src/file_loaders/completion_time_loader.rs:58-66 | the stored time, or Duration::MAX |
| CompletionTimes.BestCompletionTimes.SaveBestForLevel | src/file_loaders/completion_time_loader.rs:68-83 | the map becomes SavedTimes of the old map |
| Textures.Pixel | src/file_loaders/texture_manager.rs:66-73 | each pixel has four bytes |
| Textures.FlattenQuads | src/file_loaders/texture_manager.rs:63-77 | the flattened pixels hold pixel i at bytes 4i..4i+4 |
| Textures.DefaultPixelsLayout | src/file_loaders/texture_manager.rs:63-77 | 4096 bytes; pixel i magenta iff (i%32 > 16) != (i > 512), else white |
| Textures.CreateDefaultTexture | src/file_loaders/texture_manager.rs:63-77 | a 32×32 RGBA texture of 32·32·4 bytes |
| Textures.DefaultTextureCorners | src/file_loaders/texture_manager.rs:66-73 | sample pixels in each quadrant have the expected colour |
| TextureManager.InOrderAppend | src/file_loaders/texture_manager.rs:7-57 | ordered tables concatenate into an ordered table |
| TextureManager.SceneryInOrder | src/file_loaders/texture_manager.rs:7-57 | the scenery rows follow the enumeration |
| TextureManager.MeleeEnemyInOrder | src/file_loaders/texture_manager.rs:7-57 | the melee enemy rows follow the enumeration |
| TextureManager.RangedEnemyInOrder | src/file_loaders/texture_manager.rs:7-57 | the ranged enemy rows follow the enumeration |
| TextureManager.MeleeSlowEnemyInOrder | src/file_loaders/texture_manager.rs:7-57 | the slow enemy rows follow the enumeration |
| TextureManager.ExplosionInOrder | src/file_loaders/texture_manager.rs:7-57 | the explosion rows follow the enumeration |
| TextureManager.OtherInOrder | src/file_loaders/texture_manager.rs:7-57 | the remaining rows follow the enumeration |
| TextureManager.TexturePathsInOrder | src/file_loaders/texture_manager.rs:7-57 | row i names identifier i+1 of the enumeration |
| TextureManager.TexturePathsDistinct | src/file_loaders/texture_manager.rs:7-57 | 49 rows, distinct identifiers, none of them Debug |
| TextureManager.ListedSnoc | src/file_loaders/texture_manager.rs:98-106 | a readable listed id is listed in a prefix or is the last row |
| TextureManager.LoadAllKeys | src/file_loaders/texture_manager.rs:79-106 | after loading, an id is present iff it was present or a listed file could be read |
| TextureManager.LoadAllKeepsUnlisted | src/file_loaders/texture_manager.rs:79-106 | an id with no row keeps its texture |
| TextureManager.LoadAllStoresFile | src/file_loaders/texture_manager.rs:79-106 | a readable row stores its decoded file with the filter |
| TextureManager.LoadMultipleTextures | src/file_loaders/texture_manager.rs:98-106 | the loop equals LoadAll |
| TextureManager.Load | src/file_loaders/texture_manager.rs:108-114 | Debug holds the default texture; any other id is present iff its file could be read |
| TextureManager.GetTexture | src/file_loaders/texture_manager.rs:116-125 | the stored texture, or Debug's |
| TextureManager.GetTextureAfterLoad | src/file_loaders/texture_manager.rs:108-125 | after load an unreadable texture shows the default, a readable one its file |
| LegacyTextureManager.LoadTexture | src/texture_manager.rs:22-31 | a failed read leaves the map unchanged; a good read stores the file; other ids untouched |
| LegacyTextureManager.Load | src/texture_manager.rs:33-39 | Debug holds the default; Stone present iff its file was read; nothing else |
| LegacyTextureManager.GetTexture | src/texture_manager.rs:41-48 | the stored texture, or Debug's |
| LegacyTextureManager.MissingStoneShowsDefault | src/texture_manager.rs:33-48 | an unreadable stone shows the default texture |
| SoundManager.SoundPathsDistinct | src/sound_manager.rs:9-16 | six sounds, one file each |
| SoundManager.LoadAllKeys | src/sound_manager.rs:23-33 | a sound is present iff it was or its file loaded |
| SoundManager.LoadSounds | src/sound_manager.rs:23-33 | the loop equals LoadAll |
| SoundManager.LoopedStaysLoaded | src/sound_manager.rs:50-68 | start and stop keep looped ⊆ loaded |
| SoundManager.StartLoopedIdempotent | src/sound_manager.rs:50-61 | a second start changes nothing; an id loops iff it did or is loaded |
| SoundManager.StartThenStop | src/sound_manager.rs:50-68 | start then stop restores the looped set |
| SoundManager.SoundManager.Load | src/sound_manager.rs:35-42 | exactly the loaded sounds, nothing looping, no calls |
| SoundManager.SoundManager.Play | src/sound_manager.rs:44-48 | plays only a loaded sound; nothing else changes |
| SoundManager.SoundManager.StartLooped | src/sound_manager.rs:50-61 | plays and records only a loaded sound not yet looping |
| SoundManager.SoundManager.StopLooped | src/sound_manager.rs:63-68 | stops and removes only a looping sound |
| SoundManager.SoundManager.StopAll | src/sound_manager.rs:70-75 | no sound loops afterwards |
| SoundManager.RepeatedStartPlaysOnce | src/sound_manager.rs:50-61 | starting twice issues one PlayLooped |
| Shoot.UpdateShoot | src/service/shoot.rs:110-118 | fires iff Shooting with bullets and ready; firing resets the timer and spends a bullet, Reloading iff it was the last; not firing keeps timer+delta |
| Shoot.EmptyMagazineReloads | src/service/shoot.rs:18-27 | Shooting with 0 bullets switches to Reloading without firing (test 354-368) |
| Shoot.NotReadyOnlyWaits | src/service/shoot.rs:29-37 | not ready: only the timer changes (test 326-336) |
| Shoot.IdleGunRefills | src/service/shoot.rs:61-108 | NotShooting/Reloading never fire; at RELOAD_SPEED the magazine refills and Reloading becomes NotShooting; the timer is not reset |
| Shoot.BulletsStayBounded | src/service/shoot.rs:110-118 | bullets never exceed MAX_BULLETS |
| Shoot.UpdateShootExamples | src/service/shoot.rs:313-433 | the unit tests' transitions |
| Shoot.StartShooting | src/service/shoot.rs:235-244 | only NotShooting becomes Shooting; nothing else changes |
| Shoot.StopShooting | src/service/shoot.rs:246-255 | only Shooting becomes NotShooting; nothing else changes |
| Shoot.PressRelease | src/service/shoot.rs:235-255 | press then release restores an idle gun; Reloading ignores both |
| Shoot.WallHit | src/service/shoot.rs:120-168 | a wall hit is the intersection point and its distance |
| Shoot.ClosestWallHit | src/service/shoot.rs:120-168 | None iff no wall is hit, else the nearest wall hit |
| Shoot.FindShotEnemy | src/service/shoot.rs:120-168 | a hittable input enemy at its position if any; else the wall point; else None |
| Shoot.ShotEnemyIsNearest | src/service/shoot.rs:120-168 | the shot enemy is no farther than any hittable enemy |
| Shoot.ShotMissesEverything | src/service/shoot.rs:120-168 | no location iff no enemy and no wall is hit |
| Shoot.FirstWithId | src/service/shoot.rs:194-202 | `find`: the first index with the id, None iff absent |
| Shoot.Damage | src/service/shoot.rs:194-202 | only the first enemy with the id loses GUN_DAMAGE |
| Shoot.KilledEvents | src/service/shoot.rs:204-216 | one EnemyKilled per dead enemy at its position, in order |
| Shoot.ShotEvents | src/service/shoot.rs:170-174 | one LocationShot for a location, none without |
| Shoot.FilterSnoc | src/service/shoot.rs:218 | filtering a longer prefix appends the next element when it passes |
| Shoot.KilledEventsSnoc | src/service/shoot.rs:204-216 | one more enemy adds its kill event when dead |
| Shoot.DamageInPlace | src/service/shoot.rs:194-202 | the loop computes Damage |
| Shoot.CollectKilled | src/service/shoot.rs:204-216 | the loop computes KilledEvents |
| Shoot.RetainAlive | src/service/shoot.rs:218 | the loop keeps exactly the living enemies, in order |
| Shoot.ShootEnemies | src/service/shoot.rs:176-221 | the result is the damage-cull-report pass |
| Shoot.MissKeepsEnemies | src/service/shoot.rs:176-221 | a miss keeps the enemies and emits at most one event |
| Shoot.HitReportsDeadThenShot | src/service/shoot.rs:176-221 | kills are listed before one LocationShot at the target; survivors have hp > 0 |
| Shoot.TargetTakesDamage | src/service/shoot.rs:194-202 | the target loses GUN_DAMAGE, every other enemy is untouched |
| Shoot.TestShootRay | src/service/shoot.rs:285-310 | the test's ray ends at (100, 0) |
| Shoot.TestRayMeetsEnemy | src/service/shoot.rs:285-310 | it meets the test enemy |
| Shoot.TestEnemyHittable | src/service/shoot.rs:285-310 | the test enemy is hittable |
| Shoot.ShootEnemiesExample | src/service/shoot.rs:285-310 | the test enemy survives with hp - GUN_DAMAGE and a LocationShot is emitted |
| Shoot.CreateCorpse | src/service/shoot.rs:223-233 | a permanent skull of CORPSE_SIZE at the location |
| Shoot.CreateShotAnimationDecoration | src/service/shoot.rs:257-274 | the explosion, moved toward the player by the offset, lives 0.3 s |
| Shoot.ShotAtPlayerStaysPut | src/service/shoot.rs:257-274 | a shot at the player's own position is not moved |
| Shoot.NormalizeZero | src/service/shoot.rs:257-274 | normalize_or_zero of zero is zero |

## Left out

- Drawing and windowing are not modelled: pixel drawing, text and rectangle calls, the renderers, the end screens and the frame loop of `src/main.rs`. These are macroquad I/O and screen-layout arithmetic. `draw_wall`'s brightness and height are kept.
- Keyboard and focus handling (src/input.rs, src/focus_manager.rs) are not modelled. Input arrives as values: the operation list of the controller and `EndKeys` for the end screens.
- Files, serde and decoding are not modelled. The reads are parameters: `FileSystem`, `SoundLoader`, and the `Option` map given to `CompletionTimes`. `load_level`, `read_file` and `save` are not modelled.
- The audio and texture backends are not modelled. Textures are the `Texture2D` value that `from_rgba8` or `from_file` would build. Sound calls are appended to the `calls` log of `SoundManager`.
- Floating point is `real`. Square root, trigonometry, `angle_between` and the `geo` intersection are fields of `Numerics`, so f32 rounding, NaN and the epsilon tolerances of the tests are not reproduced. Division by zero (f32 infinity) goes through `Math.SafeDiv`, which yields 0.
- Rayon's `par_iter` and `par_bridge` are modelled sequentially. For `draw_walls` in src/draw/wall.rs, `IsDrawWallsResult` admits the drawables in any order.
- Fresh `Uuid`s given to enemies and keys are a parameter `nat -> Uuid`.
- Constants missing from src/constants.rs as given are fields of `Model.Tuning`: ENEMY_DPS, TURN_SPEED, ENEMY_ATTACK_RANGE, ENEMY_MOVE_SPEED, ENEMY_DRAW_SIZE_MOD, EXIT_TEXT_SIZE, EXIT_TEXT_HEIGHT_OFFSET and `PlayerInfo::default`. The sound directory is the `soundPath` parameter of `SoundManager.Load`.
- Panics become the `Err` cases of `LevelLoader.IntoGameObjects`. The `Debug` entry that `GetTexture` expects is a `requires`, and `TextureManager.Load` and `LegacyTextureManager.Load` guarantee it.
- CompletionTimes: level numbers are `nat` rather than `u32`.
- SoundManager.SoundManager.StopAll: the stop calls, one per loaded sound, are logged as one `StopEach` of the set of every loaded sound, because HashMap iteration order is unspecified.
- WallDraw.Column and Sprites.SpriteToDrawable: the distance shading `calculate_brightness` that src/draw/wall.rs:15 imports and src/draw/wall.rs:143 and src/draw/sprite_2d.rs:116 call is not defined in any source file of this model. It is the parameter `brightness: real -> real`, so no property of its values is stated.
- Decorations.GetTexture: animation frame choice (`select_animation_texture`) is a parameter. Its module is not part of this model.
- MeleeEnemies: `get_hp` and `get_id` are the datatype's fields. `get_texture`, `get_vertical_offset` and `as_sprite` are drawing only.
- Controller.HandleLeft and Controller.HandleRight: the look is rotated about the world origin. The source does this with `rotate_point(look, Vec2::ZERO, ±angle)`, and the model keeps it as written.
- MeleeEnemies.GetSize: states only non-negativity, because the product with ENEMY_DRAW_SIZE_MOD is a `Tuning` field whose value is unknown.
- PlayerService.IsPlayerAtExit: an `exists` over the triggers is the definition itself. The contract adds only the no-trigger case, and AtExitOnTrigger adds one sufficient case.
- Math.RotatePoint and Math.LineIntersectsCircle are definitions. Their properties are the lemmas listed above.
- The HUD displays' `get_z_index` is the constant `Hud.HUD_Z_INDEX`, which is -1.
