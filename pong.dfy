/**
 * The board-move command generator of the Pong example game
 * (ExampleGames/Pong/code/MainGameEntity.h): it fires when the up or the
 * down arrow is held and emits a command whose one integer says which way
 * the board moves.
 */
module Pong {
  import opened Input

  /** The generator's combination: the two arrow keys. */
  const BoardMoveKeys: set<InputEnum> := {PressUp, PressDown}

  /** The `BoardMoveCommandGenerator` constructor: a fresh UID, the arrow keys, OR mode. */
  method NewBoardMoveCommandGenerator(counter: UidCounter) returns (g: CommandGenerator)
    requires counter.next < Uint32Modulus
    modifies counter
    ensures fresh(g)
    ensures g.cmdTypeUID == old(counter.next) && counter.next == UidAfter(old(counter.next), 1)
    ensures g.keyCombination == BoardMoveKeys && !g.isKeyCombAnd
  {
    g := new CommandGenerator(counter);
    g.SetKeyCombination(BoardMoveKeys);
    g.isKeyCombAnd := false;
  }

  /**
   * `GenerateCommand` as written: the command carries the generator's UID,
   * no floats, and one integer, 1 when the FIRST input of the frame is the
   * up arrow and -1 otherwise.  `inputs[0]` is read unchecked.
   */
  function BoardMoveCommand(uid: nat, inputs: seq<InputRecord>): (cmd: CustomizedCommand)
    requires |inputs| > 0
    ensures cmd.commandTypeUID == uid && cmd.payloadFloats == [] && |cmd.payloadInts| == 1
    ensures cmd.payloadInts[0] == 1 <==> inputs[0].inputEnum == PressUp
    ensures cmd.payloadInts[0] == -1 <==> inputs[0].inputEnum != PressUp
  {
    var up := if inputs[0].inputEnum == PressUp then 1 else -1;
    CustomizedCommand(uid, [up], [])
  }

  /**
   * The command evidently intended: the board moves up exactly when the up
   * arrow is among the frame's inputs, found as `FindQualifiedInput` finds it.
   */
  function IntendedBoardMoveCommand(uid: nat, inputs: seq<InputRecord>): (cmd: CustomizedCommand)
    ensures cmd.commandTypeUID == uid && cmd.payloadFloats == [] && |cmd.payloadInts| == 1
    ensures cmd.payloadInts[0] == 1 <==> PressUp in KindsOf(inputs)
    ensures cmd.payloadInts[0] == -1 <==> PressUp !in KindsOf(inputs)
  {
    FirstOfKindMissing(PressUp, inputs);
    var up := if FirstOfKind(PressUp, inputs) < |inputs| then 1 else -1;
    CustomizedCommand(uid, [up], [])
  }

  // ---------------------------------------------------------------------------
  // Properties
  // ---------------------------------------------------------------------------

  /** The generator fires exactly when an arrow key is held, so `inputs[0]` exists whenever it is called. */
  lemma FiresOnArrows(inputs: seq<InputRecord>)
    ensures Holds(BoardMoveKeys, false, KindsOf(inputs)) <==> PressUp in KindsOf(inputs) || PressDown in KindsOf(inputs)
    ensures Holds(BoardMoveKeys, false, KindsOf(inputs)) ==> |inputs| > 0
  {
    if PressUp in KindsOf(inputs) {
      assert PressUp in BoardMoveKeys * KindsOf(inputs);
    }
    if PressDown in KindsOf(inputs) {
      assert PressDown in BoardMoveKeys * KindsOf(inputs);
    }
  }

  /**
   * The polling of `HandleInput` puts `PRESS_W` (and A, S, D, R) before
   * `PRESS_UP`: with W and the up arrow held, the generator fires and the
   * board moves down.
   */
  lemma UpWithWMovesDown(uid: nat)
    ensures var inputs := [InputRecord(PressW, [], []), InputRecord(PressUp, [], [])];
      Holds(BoardMoveKeys, false, KindsOf(inputs)) &&
      BoardMoveCommand(uid, inputs).payloadInts == [-1] &&
      IntendedBoardMoveCommand(uid, inputs).payloadInts == [1]
  {
    var inputs := [InputRecord(PressW, [], []), InputRecord(PressUp, [], [])];
    assert inputs[1].inputEnum == PressUp;
    FiresOnArrows(inputs);
  }

  /** With a single arrow held, and whatever else, the intended command moves the board toward that arrow. */
  lemma IntendedFollowsTheArrow(uid: nat, inputs: seq<InputRecord>)
    requires (PressUp in KindsOf(inputs)) != (PressDown in KindsOf(inputs))
    ensures IntendedBoardMoveCommand(uid, inputs).payloadInts == if PressUp in KindsOf(inputs) then [1] else [-1]
  {
  }

  /** The two commands agree whenever the first input is an arrow key. */
  lemma AgreeWhenArrowFirst(uid: nat, inputs: seq<InputRecord>)
    requires |inputs| > 0 && inputs[0].inputEnum in BoardMoveKeys
    requires inputs[0].inputEnum == PressDown ==> PressUp !in KindsOf(inputs)
    ensures BoardMoveCommand(uid, inputs) == IntendedBoardMoveCommand(uid, inputs)
  {
  }
}
