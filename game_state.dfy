/**
 * src/game_state.rs: the top-level state machine. A running game becomes
 * GameOver or GameWon after a frame; from either end screen N quits and Y
 * starts a new game. The collaborators of a running frame (resetting the
 * per-frame state, applying the input, advancing the world, the end tests)
 * are given as a `FrameLogic`; rendering and the clock are left to the caller.
 */
module GameStates {

  /** The keys released in this frame that the end screens react to. */
  datatype EndKeys = EndKeys(nReleased: bool, yReleased: bool)

  /** What an end screen does with the keys. */
  datatype EndChoice = Quit | Restart | Stay

  /** The game objects' updates of one running frame and the two end tests. */
  datatype FrameLogic<!G, !I> = FrameLogic(
    resetState: G -> G,
    handleInput: (G, I, real) -> G,
    nextGameStep: (G, real) -> G,
    isGameOver: G -> bool,
    isGameWon: G -> bool)

  /** The world of a running game and the moment it started. */
  class GameContext<G> {
    var gameObjects: G
    var startTime: nat

    constructor (gameObjects: G, startTime: nat)
      ensures this.gameObjects == gameObjects && this.startTime == startTime
    {
      this.gameObjects := gameObjects;
      this.startTime := startTime;
    }
  }

  datatype GameState<G> = Running(context: GameContext<G>) | GameOver | GameWon(time: nat)

  /** N is tested before Y: with both released the game quits. */
  function ChooseOnEndScreen(keys: EndKeys): (r: EndChoice)
    ensures r == Quit <==> keys.nReleased
    ensures r == Restart <==> !keys.nReleased && keys.yReleased
    ensures r == Stay <==> !keys.nReleased && !keys.yReleased
  {
    if keys.nReleased then Quit
    else if keys.yReleased then Restart
    else Stay
  }

  /** Y alone restarts, whatever Y was pressed with; N always quits. */
  lemma NBeatsY(keys: EndKeys)
    ensures ChooseOnEndScreen(keys.(yReleased := true)) != Stay
    ensures keys.nReleased ==> ChooseOnEndScreen(keys.(yReleased := !keys.yReleased)) == Quit
  {
  }

  /** `Instant::duration_since`, which saturates at zero. */
  function Elapsed(startTime: nat, now: nat): (d: nat)
    ensures startTime <= now ==> startTime + d == now
    ensures now < startTime ==> d == 0
  {
    if startTime <= now then now - startTime else 0
  }

  /** The state after a running frame that ended with game objects `g`. */
  function AfterFrame<I, G>(logic: FrameLogic<G, I>, g: G, context: GameContext<G>, now: nat): (r: GameState<G>)
    reads context
    ensures logic.isGameOver(g) ==> r == GameOver
    ensures !logic.isGameOver(g) && logic.isGameWon(g) ==> r == GameWon(Elapsed(context.startTime, now))
    ensures !logic.isGameOver(g) && !logic.isGameWon(g) ==> r == Running(context)
  {
    if logic.isGameOver(g) then GameOver
    else if logic.isGameWon(g) then GameWon(Elapsed(context.startTime, now))
    else Running(context)
  }

  /** A frame that ends both lost and won counts as lost. */
  lemma GameOverWins<I, G>(logic: FrameLogic<G, I>, g: G, context: GameContext<G>, now: nat)
    requires logic.isGameOver(g) && logic.isGameWon(g)
    ensures !AfterFrame(logic, g, context, now).GameWon?
  {
  }

  /** The game objects after one running frame. */
  function FrameObjects<I, G>(logic: FrameLogic<G, I>, g: G, input: I, delta: real): G {
    logic.nextGameStep(logic.handleInput(logic.resetState(g), input, delta), delta)
  }

  /**
   * One running frame: the context's game objects are reset, updated from
   * the input and advanced in place; then the end tests decide the state.
   * A running frame never asks to quit.
   */
  method NormalRun<I, G>(logic: FrameLogic<G, I>, context: GameContext<G>, input: I, delta: real, now: nat)
    returns (state: GameState<G>, quit: bool)
    modifies context
    ensures context.gameObjects == FrameObjects(logic, old(context.gameObjects), input, delta)
    ensures context.startTime == old(context.startTime)
    ensures state == AfterFrame(logic, context.gameObjects, context, now)
    ensures !quit
  {
    context.gameObjects := logic.resetState(context.gameObjects);
    context.gameObjects := logic.handleInput(context.gameObjects, input, delta);
    context.gameObjects := logic.nextGameStep(context.gameObjects, delta);
    state := AfterFrame(logic, context.gameObjects, context, now);
    quit := false;
  }

  /**
   * An end screen: N quits and keeps the screen, Y starts a new game from
   * `initial` at `now`, and anything else keeps the screen.
   */
  method EndScreenRun<G>(screen: GameState<G>, keys: EndKeys, initial: G, now: nat)
    returns (state: GameState<G>, quit: bool)
    requires !screen.Running?
    ensures quit <==> ChooseOnEndScreen(keys) == Quit
    ensures ChooseOnEndScreen(keys) != Restart ==> state == screen
    ensures ChooseOnEndScreen(keys) == Restart ==>
      state.Running? && fresh(state.context)
      && state.context.gameObjects == initial && state.context.startTime == now
  {
    match ChooseOnEndScreen(keys)
    case Quit => state, quit := screen, true;
    case Stay => state, quit := screen, false;
    case Restart =>
      var context := new GameContext(initial, now);
      state, quit := Running(context), false;
  }

  /** `run`: each state goes to its own handler. */
  method Run<I, G>(logic: FrameLogic<G, I>, current: GameState<G>, input: I, keys: EndKeys, delta: real, initial: G, now: nat)
    returns (state: GameState<G>, quit: bool)
    modifies if current.Running? then {current.context} else {}
    ensures current.Running? ==>
      !quit && current.context.gameObjects == FrameObjects(logic, old(current.context.gameObjects), input, delta)
      && state == AfterFrame(logic, current.context.gameObjects, current.context, now)
    ensures !current.Running? ==> (quit <==> keys.nReleased)
    ensures current.GameWon? && ChooseOnEndScreen(keys) != Restart ==> state == GameWon(current.time)
    ensures current.GameOver? && ChooseOnEndScreen(keys) != Restart ==> state == GameOver
    ensures !current.Running? && ChooseOnEndScreen(keys) == Restart ==>
      state.Running? && fresh(state.context)
      && state.context.gameObjects == initial && state.context.startTime == now
  {
    match current
    case Running(context) =>
      state, quit := NormalRun(logic, context, input, delta, now);
    case GameOver =>
      state, quit := EndScreenRun(current, keys, initial, now);
    case GameWon(_) =>
      state, quit := EndScreenRun(current, keys, initial, now);
  }
}
