/**
 * src/draw/exit_text_sprite.rs: while keys remain, standing in an exit shows
 * a "find the keys" sign at the nearest exit the player is standing in.
 */
module ExitText {
  import opened Wrappers
  import opened Vectors
  import opened Math
  import opened Model
  import opened Assets
  import opened Seqs
  import opened ArgMin
  import Sprites

  /** An exit that counts for the sign: keys remain and the player touches it. */
  function Relevant(n: Numerics, gameObjects: GameObjects): Entity -> bool {
    (exit: Entity) => gameObjects.keys != []
      && CheckCirclesCollide(n, gameObjects.player.entity.position, gameObjects.player.entity.size, exit.position, exit.size)
  }

  function DistanceToPlayer(n: Numerics, gameObjects: GameObjects): Entity -> real {
    (exit: Entity) => Distance(n, exit.position, gameObjects.player.entity.position)
  }

  /** The sign's entity: at the nearest touched exit, of size EXIT_TEXT_SIZE. */
  function CreateExitText(n: Numerics, tuning: Tuning, gameObjects: GameObjects): (r: Option<Entity>)
    ensures gameObjects.keys == [] ==> r.None?
    ensures r.None? <==> forall i :: 0 <= i < |gameObjects.exitTriggers| ==> !Relevant(n, gameObjects)(gameObjects.exitTriggers[i])
    ensures r.Some? ==> r.value.size == tuning.exitTextSize
    ensures r.Some? ==> exists i :: (0 <= i < |gameObjects.exitTriggers|
              && Relevant(n, gameObjects)(gameObjects.exitTriggers[i])
              && gameObjects.exitTriggers[i].position == r.value.position)
  {
    var touched := Filter(gameObjects.exitTriggers, Relevant(n, gameObjects));
    FilterMembers(gameObjects.exitTriggers, Relevant(n, gameObjects));
    match MinBy(touched, DistanceToPlayer(n, gameObjects))
    case None => None
    case Some(nearest) => Some(Entity(nearest.position, tuning.exitTextSize))
  }

  /** No touched exit is nearer to the player than the sign. */
  lemma ExitTextAtNearest(n: Numerics, tuning: Tuning, gameObjects: GameObjects, i: nat)
    requires i < |gameObjects.exitTriggers| && Relevant(n, gameObjects)(gameObjects.exitTriggers[i])
    ensures CreateExitText(n, tuning, gameObjects).Some?
    ensures Distance(n, CreateExitText(n, tuning, gameObjects).value.position, gameObjects.player.entity.position)
         <= Distance(n, gameObjects.exitTriggers[i].position, gameObjects.player.entity.position)
  {
    var touched := Filter(gameObjects.exitTriggers, Relevant(n, gameObjects));
    FilterMembers(gameObjects.exitTriggers, Relevant(n, gameObjects));
    var j :| 0 <= j < |touched| && touched[j] == gameObjects.exitTriggers[i];
    assert DistanceToPlayer(n, gameObjects)(touched[j]) == Distance(n, gameObjects.exitTriggers[i].position, gameObjects.player.entity.position);
  }

  /** The sign as a sprite: a fixed height above the floor and always the "find the keys" text. */
  function ExitTextSprite(tuning: Tuning, entity: Entity): (s: Sprites.SpriteView)
    ensures s.position == entity.position && s.size == entity.size
    ensures s.verticalOffset == tuning.exitTextHeightOffset && s.texture == TextFindTheKeys
  {
    Sprites.SpriteView(entity.position, tuning.exitTextHeightOffset, entity.size, TextFindTheKeys)
  }
}
