/**
 * src/service/key.rs: key pickup as a partition of the key list. The
 * collision flag is computed once per key; the touched keys become
 * `PickUpKey` events and the others stay on the map.
 */
module KeyService {
  import opened Vectors
  import opened Math
  import opened Model
  import opened Seqs
  import PlayerService

  /** A key the player does not touch, as a filter condition. */
  function NotTouching(n: Numerics, player: Model.Player): KeyObject -> bool {
    k => !PlayerService.TouchesPlayer(n, player, k)
  }

  /** The collision flag of every key, paired with the key. */
  function Flagged(n: Numerics, player: Model.Player, keys: seq<KeyObject>): (r: seq<(bool, KeyObject)>)
    ensures |r| == |keys|
    ensures forall i :: 0 <= i < |r| ==> r[i] == (PlayerService.TouchesPlayer(n, player, keys[i]), keys[i])
  {
    seq(|keys|, i requires 0 <= i < |keys| => (PlayerService.TouchesPlayer(n, player, keys[i]), keys[i]))
  }

  /** One PickUpKey per raised flag. */
  function EventsOf(flagged: seq<(bool, KeyObject)>): (r: seq<GameEvent>)
    ensures forall i :: 0 <= i < |r| ==> r[i] == GameEvent.PickUpKey
    decreases |flagged|
  {
    if flagged == [] then []
    else (if flagged[0].0 then [GameEvent.PickUpKey] else []) + EventsOf(flagged[1..])
  }

  /** The keys whose flag is down, in order. */
  function RemainingOf(flagged: seq<(bool, KeyObject)>): (r: seq<KeyObject>)
    decreases |flagged|
  {
    if flagged == [] then []
    else (if flagged[0].0 then [] else [flagged[0].1]) + RemainingOf(flagged[1..])
  }

  /** The pickup pass: the keys left on the map and one event per touched key. */
  function CheckPickupKey(n: Numerics, player: Model.Player, keys: seq<KeyObject>): (r: (seq<KeyObject>, seq<GameEvent>))
    ensures r.0 == Filter(keys, NotTouching(n, player))
    ensures |r.1| == |Filter(keys, PlayerService.Touching(n, player))|
    ensures forall i :: 0 <= i < |r.1| ==> r.1[i] == GameEvent.PickUpKey
  {
    var flagged := Flagged(n, player, keys);
    PartitionMatchesFilters(n, player, keys);
    (RemainingOf(flagged), EventsOf(flagged))
  }

  /** The two halves of the partition are the two filters of the key list. */
  lemma {:induction false} PartitionMatchesFilters(n: Numerics, player: Model.Player, keys: seq<KeyObject>)
    ensures RemainingOf(Flagged(n, player, keys)) == Filter(keys, NotTouching(n, player))
    ensures |EventsOf(Flagged(n, player, keys))| == |Filter(keys, PlayerService.Touching(n, player))|
    decreases |keys|
  {
    if keys != [] {
      PartitionMatchesFilters(n, player, keys[1..]);
      assert Flagged(n, player, keys)[1..] == Flagged(n, player, keys[1..]);
    }
  }

  /** Every key ends up either as an event or on the map, never both. */
  lemma PickupPartitionsKeys(n: Numerics, player: Model.Player, keys: seq<KeyObject>)
    ensures var r := CheckPickupKey(n, player, keys); |r.0| + |r.1| == |keys|
  {
    FilterPartitionLength(keys, PlayerService.Touching(n, player), NotTouching(n, player));
  }

  /** The keys left are exactly the keys of the input the player does not touch. */
  lemma RemainingAreUntouched(n: Numerics, player: Model.Player, keys: seq<KeyObject>)
    ensures var r := CheckPickupKey(n, player, keys);
      (forall i :: 0 <= i < |r.0| ==> r.0[i] in keys && !PlayerService.TouchesPlayer(n, player, r.0[i]))
      && (forall i :: 0 <= i < |keys| && !PlayerService.TouchesPlayer(n, player, keys[i]) ==> keys[i] in r.0)
  {
    FilterMembers(keys, NotTouching(n, player));
  }

  /** Without a collision the keys come back unchanged and nothing is picked up. */
  lemma NoTouchKeepsKeys(n: Numerics, player: Model.Player, keys: seq<KeyObject>)
    requires forall i :: 0 <= i < |keys| ==> !PlayerService.TouchesPlayer(n, player, keys[i])
    ensures CheckPickupKey(n, player, keys) == (keys, [])
  {
    FilterAll(keys, NotTouching(n, player));
    FilterNone(keys, PlayerService.Touching(n, player));
  }

  /** The unit test: a key at (0, 0.5) is picked up from the origin and kept from (10, 10). */
  lemma CheckPickupKeyExamples(n: Numerics, id: Uuid)
    requires n.sqrt(0.25) == 0.5
    requires SqrtExactAt(n, 190.25)
    ensures var r := CheckPickupKey(n, Model.Player(Entity(Vec2(0.0, 0.0), 1.0), Zero), [KeyObject(id, Entity(Vec2(0.0, 0.5), 1.0))]);
      |r.1| == 1 && |r.0| == 0
    ensures var r := CheckPickupKey(n, Model.Player(Entity(Vec2(10.0, 10.0), 1.0), Zero), [KeyObject(id, Entity(Vec2(0.0, 0.5), 1.0))]);
      |r.1| == 0 && |r.0| == 1
  {
    var key := KeyObject(id, Entity(Vec2(0.0, 0.5), 1.0));
    PlayerService.NearKeyTouches(n, id);
    PlayerService.FarKeyMisses(n, id);
    assert [key][1..] == [];
    PickupPartitionsKeys(n, Model.Player(Entity(Vec2(0.0, 0.0), 1.0), Zero), [key]);
    PickupPartitionsKeys(n, Model.Player(Entity(Vec2(10.0, 10.0), 1.0), Zero), [key]);
  }
}
