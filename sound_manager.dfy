/**
 * src/sound_manager.rs: the loaded sounds and the set of sounds currently
 * playing in a loop. The audio backend is not modelled; the commands sent to
 * it are kept in a log so that the contracts can say which were sent.
 */
module SoundManager {
  import opened Wrappers
  import opened Assets

  /** A decoded sound, known to the model only by the file it came from. */
  datatype Sound = Sound(path: string)

  /** The commands the manager sends to the audio backend. */
  datatype AudioCall =
    | PlayOnce(id: SoundId)
    | PlayLooped(id: SoundId)
    | Stop(id: SoundId)
    | StopEach(ids: set<SoundId>)

  /** `load_sound` on a full path: the sound, or None when it fails. */
  type SoundLoader = string -> Option<Sound>

  const SOUND_PATHS: seq<(SoundId, string)> := [
    (SoundId.PickUpKey, "pick_up_key.wav"),
    (SoundId.PlayerTakeDamage, "take_damage.wav"),
    (SoundId.Shooting, "shooting.wav"),
    (SoundId.ShotHit, "shot_hit.wav"),
    (SoundId.Lose, "lose.wav"),
    (SoundId.Escape, "escape.wav")
  ]

  /** Every sound has exactly one file. */
  lemma SoundPathsDistinct()
    ensures |SOUND_PATHS| == 6
    ensures forall i, j :: 0 <= i < j < |SOUND_PATHS| ==> SOUND_PATHS[i].0 != SOUND_PATHS[j].0
  {
  }

  /** The sounds map after trying each entry of `paths` in order; failures are skipped. */
  function LoadAll(sounds: map<SoundId, Sound>, soundPath: string, paths: seq<(SoundId, string)>, load: SoundLoader)
    : map<SoundId, Sound>
    decreases |paths|
  {
    if paths == [] then sounds
    else
      var (id, path) := paths[|paths| - 1];
      var before := LoadAll(sounds, soundPath, paths[..|paths| - 1], load);
      match load(soundPath + path)
      case None => before
      case Some(sound) => before[id := sound]
  }

  predicate Loads(load: SoundLoader, soundPath: string, entry: (SoundId, string)) {
    load(soundPath + entry.1).Some?
  }

  /** After loading, the map holds exactly the earlier sounds and those whose load succeeded. */
  lemma {:induction false} LoadAllKeys(sounds: map<SoundId, Sound>, soundPath: string, paths: seq<(SoundId, string)>,
                                       load: SoundLoader, id: SoundId)
    ensures id in LoadAll(sounds, soundPath, paths, load) <==>
      id in sounds || exists j :: 0 <= j < |paths| && paths[j].0 == id && Loads(load, soundPath, paths[j])
    decreases |paths|
  {
    if paths != [] {
      var init := paths[..|paths| - 1];
      LoadAllKeys(sounds, soundPath, init, load, id);
      assert forall j :: 0 <= j < |init| ==> init[j] == paths[j];
    }
  }

  /** `load_sounds`: one load attempt per entry, inserting each success. */
  method LoadSounds(sounds: map<SoundId, Sound>, soundPath: string, paths: seq<(SoundId, string)>, load: SoundLoader)
    returns (r: map<SoundId, Sound>)
    ensures r == LoadAll(sounds, soundPath, paths, load)
  {
    r := sounds;
    for k := 0 to |paths|
      invariant r == LoadAll(sounds, soundPath, paths[..k], load)
    {
      assert paths[..k + 1][..k] == paths[..k];
      var (id, path) := paths[k];
      var sound := load(soundPath + path);
      if sound.Some? {
        r := r[id := sound.value];
      }
    }
    assert paths[..|paths|] == paths;
  }

  /** The looped set after `start_looped`: only a loaded sound that is not yet looping is added. */
  function StartedLooping(looped: set<SoundId>, sounds: map<SoundId, Sound>, id: SoundId): set<SoundId> {
    if id !in looped && id in sounds then looped + {id} else looped
  }

  /** The looped set after `stop_looped`. */
  function StoppedLooping(looped: set<SoundId>, id: SoundId): set<SoundId> {
    looped - {id}
  }

  /** Both transitions keep every looping sound a loaded one. */
  lemma LoopedStaysLoaded(looped: set<SoundId>, sounds: map<SoundId, Sound>, id: SoundId)
    requires looped <= sounds.Keys
    ensures StartedLooping(looped, sounds, id) <= sounds.Keys
    ensures StoppedLooping(looped, id) <= sounds.Keys
  {
  }

  /** Starting a loop twice is the same as starting it once. */
  lemma StartLoopedIdempotent(looped: set<SoundId>, sounds: map<SoundId, Sound>, id: SoundId)
    ensures StartedLooping(StartedLooping(looped, sounds, id), sounds, id) == StartedLooping(looped, sounds, id)
    ensures id in StartedLooping(looped, sounds, id) <==> id in looped || id in sounds
  {
  }

  /** Stopping a loop that was just started restores the looped set. */
  lemma StartThenStop(looped: set<SoundId>, sounds: map<SoundId, Sound>, id: SoundId)
    requires id !in looped
    ensures StoppedLooping(StartedLooping(looped, sounds, id), id) == looped
  {
  }

  class SoundManager {
    var sounds: map<SoundId, Sound>
    var looped: set<SoundId>
    /** What was sent to the audio backend, oldest first. */
    var calls: seq<AudioCall>

    /** Only loaded sounds can be looping, which makes the lookup in `stop_looped` safe. */
    predicate Valid()
      reads this
    {
      looped <= sounds.Keys
    }

    /** `load`: every listed sound whose file loads, and nothing looping. */
    constructor Load(soundPath: string, load: SoundLoader)
      ensures Valid()
      ensures sounds == LoadAll(map[], soundPath, SOUND_PATHS, load)
      ensures forall id :: id in sounds <==>
        exists j :: 0 <= j < |SOUND_PATHS| && SOUND_PATHS[j].0 == id && Loads(load, soundPath, SOUND_PATHS[j])
      ensures looped == {} && calls == []
    {
      var loaded := LoadSounds(map[], soundPath, SOUND_PATHS, load);
      sounds := loaded;
      looped := {};
      calls := [];
      forall id | true
        ensures id in loaded <==>
          exists j :: 0 <= j < |SOUND_PATHS| && SOUND_PATHS[j].0 == id && Loads(load, soundPath, SOUND_PATHS[j])
      {
        LoadAllKeys(map[], soundPath, SOUND_PATHS, load, id);
      }
    }

    /** `play`: a one-shot play of a loaded sound; an unloaded one is silently ignored. */
    method Play(id: SoundId)
      modifies this
      ensures sounds == old(sounds) && looped == old(looped)
      ensures calls == old(calls) + (if id in sounds then [PlayOnce(id)] else [])
    {
      if id in sounds {
        calls := calls + [PlayOnce(id)];
      }
    }

    method StartLooped(id: SoundId)
      requires Valid()
      modifies this
      ensures Valid()
      ensures sounds == old(sounds)
      ensures looped == StartedLooping(old(looped), sounds, id)
      ensures calls == old(calls) + (if id !in old(looped) && id in sounds then [PlayLooped(id)] else [])
    {
      if id !in looped && id in sounds {
        calls := calls + [PlayLooped(id)];
        looped := looped + {id};
      }
    }

    method StopLooped(id: SoundId)
      requires Valid()
      modifies this
      ensures Valid()
      ensures sounds == old(sounds)
      ensures looped == StoppedLooping(old(looped), id)
      ensures calls == old(calls) + (if id in old(looped) then [Stop(id)] else [])
    {
      if id in looped {
        looped := looped - {id};
        assert id in sounds;
        calls := calls + [Stop(id)];
      }
    }

    /** `stop_all`: every loaded sound is stopped and no loop remains. */
    method StopAll()
      requires Valid()
      modifies this
      ensures Valid()
      ensures sounds == old(sounds) && looped == {}
      ensures calls == old(calls) + [StopEach(sounds.Keys)]
    {
      calls := calls + [StopEach(sounds.Keys)];
      looped := {};
    }
  }

  /** A second `start_looped` of the same sound sends nothing more to the backend. */
  method RepeatedStartPlaysOnce(m: SoundManager, id: SoundId)
    requires m.Valid() && id in m.sounds && id !in m.looped
    modifies m
    ensures m.calls == old(m.calls) + [PlayLooped(id)]
    ensures m.looped == old(m.looped) + {id}
  {
    m.StartLooped(id);
    m.StartLooped(id);
  }
}
