/**
 * src/file_loaders/completion_time_loader.rs: the best completion time of
 * each level, kept in a map from level number to duration. Reading and
 * writing the JSON file is not modelled: what the read produced is a
 * parameter, and a save is the map it would write.
 */
module CompletionTimes {
  import opened Wrappers
  import opened Renderer

  /** `Duration::MAX`: `u64::MAX` seconds and 999 999 999 nanoseconds. */
  const DURATION_MAX: Duration := 18_446_744_073_709_551_615 * NANOS_PER_SEC + 999_999_999

  /** The level numbers (`u32`) are kept as naturals. */
  type Level = nat

  /** What `load` ends up with: the file's map, or an empty one when reading or parsing failed. */
  function LoadedTimes(read: Option<map<Level, Duration>>): (times: map<Level, Duration>)
    ensures read.None? ==> times == map[]
    ensures read.Some? ==> times == read.value
  {
    match read
    case None => map[]
    case Some(t) => t
  }

  /** `load_best_for_level` on a loaded map: the stored time, or the largest duration for an unplayed level. */
  function BestFor(times: map<Level, Duration>, level: Level): (d: Duration)
    ensures level in times ==> d == times[level]
    ensures level !in times ==> d == DURATION_MAX
  {
    if level in times then times[level] else DURATION_MAX
  }

  /** A level that was never completed reads back as the largest duration. */
  lemma FreshFileKnowsNoTimes(level: Level)
    ensures BestFor(LoadedTimes(None), level) == DURATION_MAX
  {
  }

  /** The map `save_best_for_level` writes: a stored time is only ever replaced by a strictly better one. */
  function SavedTimes(times: map<Level, Duration>, level: Level, time: Duration): (r: map<Level, Duration>)
    ensures level in r && r.Keys == times.Keys + {level}
    ensures level !in times ==> r[level] == time
    ensures level in times && times[level] > time ==> r[level] == time
    ensures level in times && times[level] <= time ==> r == times
    ensures forall l :: l in times && l != level ==> r[l] == times[l]
  {
    if level in times then
      if times[level] > time then times[level := time] else times
    else times[level := time]
  }

  function Min(a: Duration, b: Duration): Duration {
    if a <= b then a else b
  }

  /**
   * Saving then loading gives the better of the old best and the new time;
   * every other level reads back as before.
   */
  lemma SaveThenLoad(times: map<Level, Duration>, level: Level, time: Duration, other: Level)
    requires time <= DURATION_MAX
    ensures BestFor(SavedTimes(times, level, time), level) == Min(BestFor(times, level), time)
    ensures other != level ==> BestFor(SavedTimes(times, level, time), other) == BestFor(times, other)
  {
  }

  /** Saving the same time twice is the same as saving it once. */
  lemma SaveIdempotent(times: map<Level, Duration>, level: Level, time: Duration)
    ensures SavedTimes(SavedTimes(times, level, time), level, time) == SavedTimes(times, level, time)
  {
  }

  /** A save never makes a best time worse. */
  lemma SaveNeverWorsens(times: map<Level, Duration>, level: Level, time: Duration, l: Level)
    requires l in times
    ensures SavedTimes(times, level, time)[l] <= times[l]
  {
  }

  /** The order of two saves for the same level does not matter: the minimum wins. */
  lemma SavesCommute(times: map<Level, Duration>, level: Level, t1: Duration, t2: Duration)
    ensures SavedTimes(SavedTimes(times, level, t1), level, t2) == SavedTimes(SavedTimes(times, level, t2), level, t1)
  {
    var a := SavedTimes(SavedTimes(times, level, t1), level, t2);
    var b := SavedTimes(SavedTimes(times, level, t2), level, t1);
    assert a.Keys == b.Keys;
    assert forall l :: l in a ==> a[l] == b[l];
  }

  /** The times file as an object: `save_best_for_level` updates its map in place. */
  class BestCompletionTimes {
    var times: map<Level, Duration>

    /** `load`: the file's contents, or an empty map when it cannot be read. */
    constructor Load(read: Option<map<Level, Duration>>)
      ensures times == LoadedTimes(read)
    {
      times := LoadedTimes(read);
    }

    function LoadBestForLevel(level: Level): (d: Duration)
      reads this
      ensures level in times ==> d == times[level]
      ensures level !in times ==> d == DURATION_MAX
    {
      BestFor(times, level)
    }

    method SaveBestForLevel(level: Level, time: Duration)
      modifies this
      ensures times == SavedTimes(old(times), level, time)
    {
      if level in times {
        if times[level] > time {
          times := times[level := time];
        }
      } else {
        times := times[level := time];
      }
    }
  }
}
