/**
 * src/controller.rs: the player's input for one frame, applied as a left
 * fold of the operations over the player.
 */
module Controller {
  import opened Vectors
  import opened Math
  import opened Model
  import opened Constants
  import Service

  datatype Operation = Left | Right | Forward | Back

  /** Turning left rotates the look vector by `+turnSpeed*delta` about the origin. */
  function HandleLeft(n: Numerics, tuning: Tuning, player: Player, delta: real): (r: Player)
    ensures r.entity == player.entity
    ensures r.look == RotatePoint(n, player.look, Zero, tuning.turnSpeed * delta)
  {
    Player(player.entity, RotatePoint(n, player.look, Zero, tuning.turnSpeed * delta))
  }

  /** Turning right rotates it by `-turnSpeed*delta`. */
  function HandleRight(n: Numerics, tuning: Tuning, player: Player, delta: real): (r: Player)
    ensures r.entity == player.entity
    ensures r.look == RotatePoint(n, player.look, Zero, -tuning.turnSpeed * delta)
  {
    Player(player.entity, RotatePoint(n, player.look, Zero, -tuning.turnSpeed * delta))
  }

  /** The displacement of a step forward. */
  function Step(player: Player, delta: real): Vec2 {
    player.look.Scale(delta).Scale(MOVE_SPEED)
  }

  /** A step forward along the look vector, unless a wall is in the way. */
  function HandleForward(n: Numerics, walls: seq<Wall>, player: Player, delta: real): (r: Player)
    ensures r.look == player.look
    ensures r.entity.size == player.entity.size
    ensures r == player || r.entity.position == player.entity.position.Add(Step(player, delta))
    ensures !HitsAnyWall(n, walls, player.entity.position.Add(Step(player, delta)), player.entity.size)
            ==> r.entity.position == player.entity.position.Add(Step(player, delta))
  {
    Player(Service.MoveEntity(n, player.entity, Step(player, delta), walls), player.look)
  }

  /** A step backward against the look vector, unless a wall is in the way. */
  function HandleBack(n: Numerics, walls: seq<Wall>, player: Player, delta: real): (r: Player)
    ensures r.look == player.look
    ensures r.entity.size == player.entity.size
    ensures r == player || r.entity.position == player.entity.position.Add(Step(player, delta).Neg())
    ensures !HitsAnyWall(n, walls, player.entity.position.Add(Step(player, delta).Neg()), player.entity.size)
            ==> r.entity.position == player.entity.position.Add(Step(player, delta).Neg())
  {
    assert player.look.Neg().Scale(delta).Scale(MOVE_SPEED) == Step(player, delta).Neg();
    Player(Service.MoveEntity(n, player.entity, player.look.Neg().Scale(delta).Scale(MOVE_SPEED), walls), player.look)
  }

  function HandleOne(n: Numerics, tuning: Tuning, walls: seq<Wall>, player: Player, op: Operation, delta: real): Player {
    match op
    case Left => HandleLeft(n, tuning, player, delta)
    case Right => HandleRight(n, tuning, player, delta)
    case Forward => HandleForward(n, walls, player, delta)
    case Back => HandleBack(n, walls, player, delta)
  }

  /** The operations applied left to right, starting from the current player. */
  function HandleInput(n: Numerics, tuning: Tuning, walls: seq<Wall>, player: Player, operations: seq<Operation>, delta: real): (r: Player)
    ensures operations == [] ==> r == player
    ensures (forall i :: 0 <= i < |operations| ==> operations[i] == Forward || operations[i] == Back)
            ==> r.look == player.look && r.entity.size == player.entity.size
    ensures (forall i :: 0 <= i < |operations| ==> operations[i] == Left || operations[i] == Right)
            ==> r.entity == player.entity
    decreases |operations|
  {
    if operations == [] then player
    else HandleInput(n, tuning, walls, HandleOne(n, tuning, walls, player, operations[0], delta), operations[1..], delta)
  }

  /** Handling `a + b` is handling `a` and then `b` from where `a` left the player. */
  lemma {:induction false} HandleInputAppend(n: Numerics, tuning: Tuning, walls: seq<Wall>, player: Player,
                                             a: seq<Operation>, b: seq<Operation>, delta: real)
    ensures HandleInput(n, tuning, walls, player, a + b, delta)
         == HandleInput(n, tuning, walls, HandleInput(n, tuning, walls, player, a, delta), b, delta)
    decreases |a|
  {
    if a == [] {
      assert a + b == b;
    } else {
      assert (a + b)[1..] == a[1..] + b;
      HandleInputAppend(n, tuning, walls, HandleOne(n, tuning, walls, player, a[0], delta), a[1..], b, delta);
    }
  }

  /** A step that is blocked leaves the player exactly as it was. */
  lemma BlockedForwardKeepsPlayer(n: Numerics, walls: seq<Wall>, player: Player, delta: real, i: nat)
    requires i < |walls|
    requires LineIntersectsCircle(n, walls[i].start, walls[i].end, player.entity.position.Add(Step(player, delta)), player.entity.size)
    ensures HandleForward(n, walls, player, delta) == player
  {
    Service.MoveEntityBlocked(n, player.entity, Step(player, delta), walls, i);
  }

  lemma BlockedBackKeepsPlayer(n: Numerics, walls: seq<Wall>, player: Player, delta: real, i: nat)
    requires i < |walls|
    requires LineIntersectsCircle(n, walls[i].start, walls[i].end, player.entity.position.Add(Step(player, delta).Neg()), player.entity.size)
    ensures HandleBack(n, walls, player, delta) == player
  {
    assert player.look.Neg().Scale(delta).Scale(MOVE_SPEED) == Step(player, delta).Neg();
    Service.MoveEntityBlocked(n, player.entity, Step(player, delta).Neg(), walls, i);
  }

  /** With no walls, a step forward and a step back return the player to where it started. */
  lemma ForwardThenBackReturns(n: Numerics, tuning: Tuning, player: Player, delta: real)
    ensures HandleInput(n, tuning, [], player, [Forward, Back], delta) == player
  {
    var p1 := HandleForward(n, [], player, delta);
    assert p1 == Player(Entity(player.entity.position.Add(Step(player, delta)), player.entity.size), player.look);
    var p2 := HandleBack(n, [], p1, delta);
    assert Step(p1, delta) == Step(player, delta);
    assert p2.entity.position == player.entity.position;
    assert [Forward, Back][1..] == [Back];
    assert [Back][1..] == [];
  }

  /** Turning by a zero frame time changes nothing. */
  lemma TurnWithoutTime(n: Numerics, tuning: Tuning, player: Player)
    requires TrigAtZero(n)
    ensures HandleLeft(n, tuning, player, 0.0) == player
    ensures HandleRight(n, tuning, player, 0.0) == player
  {
    assert tuning.turnSpeed * 0.0 == 0.0 && -tuning.turnSpeed * 0.0 == 0.0;
    RotateByZero(n, player.look, Zero);
  }
}
