/**
 * The command-generation side of engine/input/InputHandler.h and
 * InputHandler.cpp.  Each frame the handler turns the keys held into a list
 * of inputs, and every registered command generator whose key combination
 * matches emits one command.  The key and mouse polling through Dear ImGui
 * is not modelled: the frame's input list is a parameter.
 */
module Input {

  /** `InputEnum`, in declaration order. */
  datatype InputEnum =
    | Invalid | PressW | PressS | PressA | PressD | PressUp | PressR | PressDown
    | PressEsc | PressMouseMiddleButton | MouseMove

  /** A copy of an `ImGuiInput`, as the frame's `std::vector<ImGuiInput>` holds it. */
  datatype InputRecord = InputRecord(inputEnum: InputEnum, payloadInts: seq<int>, payloadFloats: seq<real>)

  /** `CustomizedCommand`: a command type and an uninterpreted payload. */
  datatype CustomizedCommand = CustomizedCommand(commandTypeUID: nat, payloadInts: seq<int>, payloadFloats: seq<real>)

  /** One input of a frame, with the payload its polling code appends. */
  class ImGuiInput {
    var inputEnum: InputEnum
    var payloadInts: seq<int>
    var payloadFloats: seq<real>

    constructor(iInputEnum: InputEnum)
      ensures inputEnum == iInputEnum && payloadInts == [] && payloadFloats == []
    {
      inputEnum := iInputEnum;
      payloadInts := [];
      payloadFloats := [];
    }

    /** `AddInt`: appends to the integer payload; the kind and the float payload are kept. */
    method AddInt(iInt: int)
      modifies this
      ensures payloadInts == old(payloadInts) + [iInt]
      ensures inputEnum == old(inputEnum) && payloadFloats == old(payloadFloats)
    {
      payloadInts := payloadInts + [iInt];
    }

    /** `AddFloat`: appends to the float payload; the kind and the integer payload are kept. */
    method AddFloat(iFloat: real)
      modifies this
      ensures payloadFloats == old(payloadFloats) + [iFloat]
      ensures inputEnum == old(inputEnum) && payloadInts == old(payloadInts)
    {
      payloadFloats := payloadFloats + [iFloat];
    }

    /** The copy `push_back` stores in the frame's input list. */
    function Record(): InputRecord
      reads this
    {
      InputRecord(inputEnum, payloadInts, payloadFloats)
    }
  }

  /** 2^32: the static UID counter is a `uint32_t`. */
  const Uint32Modulus: nat := 0x1_0000_0000

  /** The static `CommandGenerator::m_commandTypeUIDCounter`, defined as 0. */
  class UidCounter {
    var next: nat

    constructor()
      ensures next == 0
    {
      next := 0;
    }
  }

  /** The UID the counter hands out after `k` more generators, from `start`. */
  function UidAfter(start: nat, k: nat): (uid: nat)
    ensures uid < Uint32Modulus
  {
    (start + k) % Uint32Modulus
  }

  /** Whether the keys held satisfy a combination: all of them in AND mode, any of them in OR mode. */
  predicate Holds(keyCombination: set<InputEnum>, isAnd: bool, curInputStates: set<InputEnum>) {
    if isAnd then keyCombination <= curInputStates else keyCombination * curInputStates != {}
  }

  /**
   * `CommandGenerator`.  `GenerateCommand` is pure virtual; the command a
   * concrete generator emits is given to `HandleInput` as a function of its
   * UID and the frame's inputs.
   */
  class CommandGenerator {
    var keyCombination: set<InputEnum>
    var cmdTypeUID: nat
    var isKeyCombAnd: bool

    /** Takes the counter's value as the UID and increments the counter, wrapping at 2^32; a new generator is in AND mode. */
    constructor(counter: UidCounter)
      requires counter.next < Uint32Modulus
      modifies counter
      ensures cmdTypeUID == old(counter.next)
      ensures counter.next == UidAfter(old(counter.next), 1)
      ensures keyCombination == {} && isKeyCombAnd
    {
      cmdTypeUID := counter.next;
      keyCombination := {};
      isKeyCombAnd := true;
      counter.next := (counter.next + 1) % Uint32Modulus;
    }

    /** `SetKeyCombination`: what `GetKeyCombination` returns from now on; the UID and mode are kept. */
    method SetKeyCombination(k: set<InputEnum>)
      modifies this
      ensures keyCombination == k
      ensures cmdTypeUID == old(cmdTypeUID) && isKeyCombAnd == old(isKeyCombAnd)
    {
      keyCombination := k;
    }

    /** `CheckCmdTypeUID`. */
    predicate CheckCmdTypeUID(iCmdTypeUID: nat)
      reads this
    {
      iCmdTypeUID == cmdTypeUID
    }

    /** The combination test of `CheckKeyCombination`, on this generator's fields. */
    predicate Matches(curInputStates: set<InputEnum>)
      reads this
    {
      Holds(keyCombination, isKeyCombAnd, curInputStates)
    }

    /** `CheckKeyCombination`: the loop over the combination with early returns. */
    method CheckKeyCombination(curInputStates: set<InputEnum>) returns (ok: bool)
      ensures ok == Holds(keyCombination, isKeyCombAnd, curInputStates)
    {
      var remaining := keyCombination;
      if isKeyCombAnd {
        while remaining != {}
          invariant remaining <= keyCombination
          invariant keyCombination - remaining <= curInputStates
          decreases |remaining|
        {
          var k :| k in remaining;
          if k !in curInputStates {
            return false;
          }
          remaining := remaining - {k};
        }
        return true;
      } else {
        while remaining != {}
          invariant remaining <= keyCombination
          invariant (keyCombination - remaining) * curInputStates == {}
          decreases |remaining|
        {
          var k :| k in remaining;
          if k in curInputStates {
            assert k in keyCombination * curInputStates;
            return true;
          }
          remaining := remaining - {k};
        }
        return false;
      }
    }
  }

  /** The position of the first input of kind `e`, or `|inputs|` when there is none. */
  function FirstOfKind(e: InputEnum, inputs: seq<InputRecord>): (k: nat)
    ensures k <= |inputs|
    ensures k < |inputs| ==> inputs[k].inputEnum == e
    ensures forall j :: 0 <= j < k ==> inputs[j].inputEnum != e
  {
    if inputs == [] then 0
    else if inputs[0].inputEnum == e then 0
    else 1 + FirstOfKind(e, inputs[1..])
  }

  /** The input `FindQualifiedInput` falls back on: `ImGuiInput(INVALID)`, with empty payloads. */
  const InvalidInput: InputRecord := InputRecord(Invalid, [], [])

  /** `FindQualifiedInput`: the first input of kind `iEnum`, else an `INVALID` input. */
  method FindQualifiedInput(iEnum: InputEnum, inputs: seq<InputRecord>) returns (r: InputRecord)
    ensures FirstOfKind(iEnum, inputs) < |inputs| ==> r == inputs[FirstOfKind(iEnum, inputs)]
    ensures FirstOfKind(iEnum, inputs) == |inputs| ==> r == InvalidInput
  {
    for i := 0 to |inputs|
      invariant forall j :: 0 <= j < i ==> inputs[j].inputEnum != iEnum
    {
      if inputs[i].inputEnum == iEnum {
        FirstIsUnique(iEnum, inputs, i);
        return inputs[i];
      }
    }
    return InvalidInput;
  }

  /** The kinds present in a frame's input list. */
  function KindsOf(inputs: seq<InputRecord>): (kinds: set<InputEnum>)
    ensures forall e :: e in kinds <==> exists i :: 0 <= i < |inputs| && inputs[i].inputEnum == e
  {
    set i | 0 <= i < |inputs| :: inputs[i].inputEnum
  }

  /** `ImGuiInputHandler`: the set of registered generators. */
  class ImGuiInputHandler {
    var commandGenerators: set<CommandGenerator>

    constructor()
      ensures commandGenerators == {}
    {
      commandGenerators := {};
    }

    /**
     * `AddOrUpdateCommandGenerator`: null is ignored; when a registered
     * generator has an equal key combination, that one is unregistered and
     * the new one is NOT registered; otherwise the new one is added.
     */
    method AddOrUpdateCommandGenerator(p: CommandGenerator?)
      modifies this
      ensures p == null ==> commandGenerators == old(commandGenerators)
      ensures p != null && (exists g :: g in old(commandGenerators) && g.keyCombination == p.keyCombination) ==>
        exists g :: g in old(commandGenerators) && g.keyCombination == p.keyCombination &&
          commandGenerators == old(commandGenerators) - {g}
      ensures p != null && (forall g :: g in old(commandGenerators) ==> g.keyCombination != p.keyCombination) ==>
        commandGenerators == old(commandGenerators) + {p}
    {
      if p == null {
        return;
      }
      var remaining := commandGenerators;
      while remaining != {}
        invariant remaining <= commandGenerators == old(commandGenerators)
        invariant forall g :: g in commandGenerators - remaining ==> g.keyCombination != p.keyCombination
        decreases |remaining|
      {
        var g :| g in remaining;
        if g.keyCombination == p.keyCombination {
          commandGenerators := commandGenerators - {g};
          return;
        }
        remaining := remaining - {g};
      }
      commandGenerators := commandGenerators + {p};
    }

    /** `RemoveCommandGenerator`: unregisters `p` if it is registered; an absent one changes nothing. */
    method RemoveCommandGenerator(p: CommandGenerator)
      modifies this
      ensures commandGenerators == old(commandGenerators) - {p}
    {
      if p in commandGenerators {
        commandGenerators := commandGenerators - {p};
      }
    }

    /** `GenerateInputEnum`: the set of the inputs' kinds. */
    method GenerateInputEnum(inputs: seq<InputRecord>) returns (inputEnums: set<InputEnum>)
      ensures inputEnums == KindsOf(inputs)
    {
      inputEnums := {};
      for i := 0 to |inputs|
        invariant inputEnums == KindsOf(inputs[..i])
      {
        assert inputs[..i + 1] == inputs[..i] + [inputs[i]];
        inputEnums := inputEnums + {inputs[i].inputEnum};
      }
      assert inputs[..|inputs|] == inputs;
    }

    /** The registered generators whose combination the frame's inputs satisfy. */
    function Firing(frameInputs: seq<InputRecord>): set<CommandGenerator>
      reads this, commandGenerators
    {
      set g | g in commandGenerators && g.Matches(KindsOf(frameInputs))
    }

    /**
     * The command-generation loop of `HandleInput`: one command per
     * registered generator whose check passes, built from the whole frame
     * list, in the set's iteration order (listed in `fired`).
     */
    method HandleInput(frameInputs: seq<InputRecord>, generate: (nat, seq<InputRecord>) -> CustomizedCommand)
      returns (commands: seq<CustomizedCommand>, ghost fired: seq<CommandGenerator>)
      ensures |commands| == |fired|
      ensures forall i :: 0 <= i < |fired| ==> commands[i] == generate(fired[i].cmdTypeUID, frameInputs)
      ensures forall i, j :: 0 <= i < j < |fired| ==> fired[i] != fired[j]
      ensures forall g :: g in fired <==> g in Firing(frameInputs)
    {
      var inputEnums := GenerateInputEnum(frameInputs);
      commands, fired := [], [];
      var remaining := commandGenerators;
      while remaining != {}
        invariant remaining <= commandGenerators
        invariant |commands| == |fired|
        invariant forall i :: 0 <= i < |fired| ==> commands[i] == generate(fired[i].cmdTypeUID, frameInputs)
        invariant forall i, j :: 0 <= i < j < |fired| ==> fired[i] != fired[j]
        invariant forall g :: g in fired ==> g !in remaining
        invariant forall g :: g in fired <==> g in commandGenerators - remaining && g.Matches(inputEnums)
        decreases |remaining|
      {
        var g :| g in remaining;
        var ok := g.CheckKeyCombination(inputEnums);
        if ok {
          commands := commands + [generate(g.cmdTypeUID, frameInputs)];
          fired := fired + [g];
        }
        remaining := remaining - {g};
      }
    }
  }

  // ---------------------------------------------------------------------------
  // Properties
  // ---------------------------------------------------------------------------

  /** The first match `FindQualifiedInput` returns is the one `FirstOfKind` names. */
  lemma {:induction false} FirstIsUnique(e: InputEnum, inputs: seq<InputRecord>, i: nat)
    requires i < |inputs| && inputs[i].inputEnum == e
    requires forall j :: 0 <= j < i ==> inputs[j].inputEnum != e
    ensures FirstOfKind(e, inputs) == i
  {
    if i > 0 {
      FirstIsUnique(e, inputs[1..], i - 1);
    }
  }

  /** `FindQualifiedInput` falls back on `INVALID` exactly when no input has the kind. */
  lemma {:induction false} FirstOfKindMissing(e: InputEnum, inputs: seq<InputRecord>)
    ensures FirstOfKind(e, inputs) == |inputs| <==> e !in KindsOf(inputs)
  {
    if inputs != [] && inputs[0].inputEnum != e {
      FirstOfKindMissing(e, inputs[1..]);
      assert KindsOf(inputs) == {inputs[0].inputEnum} + KindsOf(inputs[1..]) by {
        forall k | k in KindsOf(inputs) ensures k in {inputs[0].inputEnum} + KindsOf(inputs[1..]) {
          var i :| 0 <= i < |inputs| && inputs[i].inputEnum == k;
          if i > 0 {
            assert inputs[1..][i - 1].inputEnum == k;
          }
        }
      }
    }
  }

  /** An empty combination holds in AND mode and never in OR mode. */
  lemma EmptyCombination(curInputStates: set<InputEnum>)
    ensures Holds({}, true, curInputStates)
    ensures !Holds({}, false, curInputStates)
  {
  }

  /** A non-empty combination that holds in AND mode holds in OR mode too. */
  lemma AndImpliesOr(keyCombination: set<InputEnum>, curInputStates: set<InputEnum>)
    requires keyCombination != {}
    requires Holds(keyCombination, true, curInputStates)
    ensures Holds(keyCombination, false, curInputStates)
  {
    var k :| k in keyCombination;
    assert k in keyCombination * curInputStates;
  }

  /** Holding more keys never stops a combination from matching. */
  lemma HoldsIsMonotone(keyCombination: set<InputEnum>, isAnd: bool, s: set<InputEnum>, t: set<InputEnum>)
    requires s <= t
    requires Holds(keyCombination, isAnd, s)
    ensures Holds(keyCombination, isAnd, t)
  {
    if !isAnd {
      var k :| k in keyCombination * s;
      assert k in keyCombination * t;
    }
  }

  /** The counter after `k` generators are constructed from counter value `start`, one constructor step each. */
  function CounterAfter(start: nat, k: nat): nat {
    if k == 0 then start else UidAfter(CounterAfter(start, k - 1), 1)
  }

  /** The UIDs of `n` generators constructed one after another from counter value `start`, in construction order. */
  function RunUids(start: nat, n: nat): (uids: seq<nat>)
    ensures |uids| == n
  {
    if n == 0 then [] else RunUids(start, n - 1) + [CounterAfter(start, n - 1)]
  }

  /** From the initial counter value 0, the `k`-th constructor step leaves `k` modulo 2^32. */
  lemma {:induction false} CounterAfterFromZero(k: nat)
    ensures CounterAfter(0, k) == k % Uint32Modulus
  {
    if k > 0 {
      CounterAfterFromZero(k - 1);
      var p := k - 1;
      if p % Uint32Modulus + 1 == Uint32Modulus {
        assert k % Uint32Modulus == 0;
      } else {
        assert k % Uint32Modulus == p % Uint32Modulus + 1;
      }
    }
  }

  /** In a run of constructions from the initial counter, the `i`-th generator's UID is `i` modulo 2^32. */
  lemma {:induction false} RunUidsFromZero(n: nat)
    ensures forall i :: 0 <= i < n ==> RunUids(0, n)[i] == i % Uint32Modulus
  {
    if n > 0 {
      RunUidsFromZero(n - 1);
      CounterAfterFromZero(n - 1);
      assert RunUids(0, n) == RunUids(0, n - 1) + [CounterAfter(0, n - 1)];
    }
  }

  /** The generators of a run of at most 2^32 constructions get increasing, hence pairwise distinct, UIDs. */
  lemma UidsAreDistinct(n: nat)
    requires n <= Uint32Modulus
    ensures forall i, j :: 0 <= i < j < n ==> RunUids(0, n)[i] < RunUids(0, n)[j]
  {
    RunUidsFromZero(n);
    forall i, j | 0 <= i < j < n
      ensures RunUids(0, n)[i] < RunUids(0, n)[j]
    {
      assert i % Uint32Modulus == i && j % Uint32Modulus == j;
    }
  }

  /** In a longer run the counter wraps: the generator constructed 2^32-th gets the first generator's UID again. */
  lemma UidsWrap(n: nat)
    requires n > Uint32Modulus
    ensures RunUids(0, n)[Uint32Modulus] == RunUids(0, n)[0]
  {
    RunUidsFromZero(n);
  }

  /**
   * Among generators constructed in one run of at most 2^32, `CheckCmdTypeUID`
   * of a generator's UID holds for that generator and for no other.
   */
  lemma CheckCmdTypeUIDSelectsOne(gens: seq<CommandGenerator>, i: nat, j: nat)
    requires |gens| <= Uint32Modulus
    requires forall k :: 0 <= k < |gens| ==> gens[k].cmdTypeUID == RunUids(0, |gens|)[k]
    requires i < |gens| && j < |gens|
    ensures gens[j].CheckCmdTypeUID(gens[i].cmdTypeUID) <==> i == j
  {
    UidsAreDistinct(|gens|);
  }
}
