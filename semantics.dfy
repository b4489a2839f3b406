/**
 * What the interpreter of Interpreter.java computes, as functions: the
 * effect of one instruction on a state, the bounded run that commits one
 * step per instruction, and the properties of the recorded steps that the
 * time-travel navigation relies on.
 */
module Semantics {
  import opened Wrappers
  import opened Bits
  import opened Constants
  import opened Commands
  import opened Machine
  import opened Journal
  import opened Navigation
  import opened Recording

  /** The exception a run can end in: an array index outside the memory. */
  datatype Fault = IndexOutOfBounds(index: int)

  /** What one instruction does: the writes it makes in order, or end the run. */
  datatype Effect = Proceed(writes: seq<Write>) | Stop

  /** Java's `+` on int: the sum wrapped into 32 bits. */
  function JavaAdd(x: int, y: int): int
  {
    var w := (x + y) % 0x1_0000_0000;
    if w >= 0x8000_0000 then w - 0x1_0000_0000 else w
  }

  /** The functions the five arithmetic opcodes pass to `op`. */
  function Alu(opcode: int, x: int, y: int): int
    requires 0x3 <= opcode <= 0x7
  {
    if opcode == 0x3 then JavaAdd(x, y)
    else if opcode == 0x4 then And(x, y)
    else if opcode == 0x5 then Or(x, y)
    else if opcode == 0x6 then Xor(x, y)
    else if x == y then -1 else 0
  }

  /** RAR: shift right by one, the low bit moving into bit 23. */
  function Rar(a: int): int
  {
    Or(ShiftRight(a, 1), ShiftLeft(And(a, 1), VALUE_WIDTH - 1))
  }

  /**
   * The effect of the fetched word `ir` in state s (the switch of
   * makeTimeline).  The masks `& ADDRESS_MASK` and `& VALUE_MASK` are
   * AddressBits and ValueBits.
   */
  function Decode(s: Snapshot, ir: int): (eff: Effect)
  {
    var arg := AddressBits(ir);
    var opcode := OpcodeBits(ir);
    var next := Write(IAR, AddressBits(s.iar + 1));
    if opcode == 0x0 then Proceed([Write(ACCU, ir), next])
    else if opcode == 0x1 then Proceed([Write(ACCU, s.Lookup(arg)), next])
    else if opcode == 0x2 then Proceed([Write(arg, s.accu), next])
    else if 0x3 <= opcode <= 0x7 then
      Proceed([Write(ACCU, ValueBits(Alu(opcode, s.accu, s.Lookup(arg)))), next])
    else if opcode == 0x8 then Proceed([Write(IAR, arg)])
    else if opcode == 0x9 then
      Proceed(if And(s.accu, SIGNBIT) != 0 then [Write(IAR, arg)] else [next])
    else if opcode == 0xa then
      Proceed([Write(ACCU, s.Lookup(AddressBits(s.Lookup(arg)))), next])
    else if opcode == 0xb then
      Proceed([Write(AddressBits(s.Lookup(arg)), s.accu), next])
    else if opcode == 0xc then
      Proceed([Write(arg, s.iar + 1), Write(IAR, AddressBits(arg + 1))])
    else if opcode == 0xd then Proceed([Write(IAR, s.Lookup(arg))])
    else if opcode == 0xf then
      if arg == 0x1_0000 then Proceed([Write(ACCU, ValueBits(Not(s.accu))), next])
      else if arg == 0x2_0000 then Proceed([Write(ACCU, Rar(s.accu)), next])
      else Stop
    else Stop
  }

  /**
   * Fetch and execute one instruction.  The only index the interpreter can
   * get wrong is the fetch address: every other address it uses is masked.
   */
  function Execute(s: Snapshot): (r: Result<Effect, Fault>)
    ensures r.Err? <==> !InRange(s.iar)
    ensures r.Err? ==> r.error == IndexOutOfBounds(s.iar)
  {
    if !InRange(s.iar) then Err(IndexOutOfBounds(s.iar))
    else Ok(Decode(s, s.Lookup(s.iar)))
  }

  /**
   * The steps committed when the loop runs on from state s with `steps`
   * committed and `pending` not yet: stop at the bound, at HALT or an
   * unknown instruction (committing the pending updates), or on a fault.
   */
  function Loop(s: Snapshot, pending: Step, steps: seq<Step>, maxSteps: int): (r: Result<seq<Step>, Fault>)
    ensures r.Ok? ==> |steps| <= |r.value| && r.value[..|steps|] == steps
    ensures r.Ok? && |steps| <= maxSteps ==> |r.value| <= maxSteps
    ensures r.Ok? && |steps| > maxSteps ==> r.value == steps
    decreases maxSteps - |steps|
  {
    if |steps| >= maxSteps then Ok(steps)
    else match Execute(s)
      case Err(f) => Err(f)
      case Ok(Stop) => Ok(steps + [pending])
      case Ok(Proceed(ws)) => Loop(StoreAll(s, ws), [], steps + [pending + Record(s, ws)], maxSteps)
  }

  /** Java throws for a memory index outside the array, and for an unknown register. */
  predicate Accepted(addr: int, registers: bool)
  {
    if registers then InRange(addr) else 0 <= addr < MEMORY_SIZE
  }

  /** The first address that is not accepted: where the Java code throws. */
  function FirstOutside(addrs: seq<int>, registers: bool): (r: Option<int>)
    ensures r.None? <==> forall i :: 0 <= i < |addrs| ==> Accepted(addrs[i], registers)
    ensures r.Some? ==> r.value in addrs && !Accepted(r.value, registers)
  {
    if |addrs| == 0 then None
    else if !Accepted(addrs[0], registers) then Some(addrs[0])
    else FirstOutside(addrs[1..], registers)
  }

  /** The first rejected address is the one at the first rejected position. */
  lemma {:induction false} FirstOutsideAt(addrs: seq<int>, registers: bool, i: nat)
    requires i < |addrs| && !Accepted(addrs[i], registers)
    requires forall j :: 0 <= j < i ==> Accepted(addrs[j], registers)
    ensures FirstOutside(addrs, registers) == Some(addrs[i])
    decreases i
  {
    if i > 0 {
      FirstOutsideAt(addrs[1..], registers, i - 1);
    }
  }

  function LineAddresses(commands: seq<Command>): (addrs: seq<int>)
    ensures |addrs| == |commands|
    ensures forall i :: 0 <= i < |commands| ==> addrs[i] == commands[i].address
  {
    seq(|commands|, i requires 0 <= i < |commands| => commands[i].address)
  }

  function WriteAddresses(ws: seq<Write>): (addrs: seq<int>)
    ensures |addrs| == |ws|
    ensures forall i :: 0 <= i < |ws| ==> addrs[i] == ws[i].addr
  {
    seq(|ws|, i requires 0 <= i < |ws| => ws[i].addr)
  }

  /**
   * The steps a run records (makeTimeline): load the program, fault on a
   * line outside the memory, write the presets as pending updates, then
   * loop.
   */
  function Run(commands: seq<Command>, labelMap: map<string, int>, presets: seq<Write>, maxSteps: int)
    : (r: Result<seq<Step>, Fault>)
    requires HasInstructions(commands)
    ensures r.Ok? ==> |r.value| <= if maxSteps < 0 then 0 else maxSteps
  {
    match FirstOutside(LineAddresses(commands), false)
    case Some(a) => Err(IndexOutOfBounds(a))
    case None =>
      match FirstOutside(WriteAddresses(presets), true)
      case Some(a) => Err(IndexOutOfBounds(a))
      case None =>
        assert Loadable(commands);
        var s0 := Initial(commands, labelMap);
        Loop(StoreAll(s0, presets), Record(s0, presets), [], maxSteps)
  }

  /** A run that does not fault on loading is the loop from the preset state. */
  lemma RunLoops(commands: seq<Command>, labelMap: map<string, int>, presets: seq<Write>, maxSteps: int)
    requires HasInstructions(commands) && Run(commands, labelMap, presets, maxSteps).Ok?
    ensures Loadable(commands)
    ensures forall i :: 0 <= i < |presets| ==> InRange(presets[i].addr)
    ensures var s0 := Initial(commands, labelMap);
      Run(commands, labelMap, presets, maxSteps) == Loop(StoreAll(s0, presets), Record(s0, presets), [], maxSteps)
  {
    assert FirstOutside(LineAddresses(commands), false).None?;
    assert FirstOutside(WriteAddresses(presets), true).None?;
    forall i | 0 <= i < |presets|
      ensures InRange(presets[i].addr)
    {
      assert Accepted(WriteAddresses(presets)[i], true);
    }
  }

  // ------------------------------------------------------------ one step

  /**
   * An instruction writes one or two locations, two different ones, and
   * only locations get and set accept: LDIV and STIV mask the pointer.
   */
  lemma DecodeWrites(s: Snapshot, ir: int)
    requires Decode(s, ir).Proceed?
    ensures var ws := Decode(s, ir).writes;
      && 1 <= |ws| <= 2
      && (forall i :: 0 <= i < |ws| ==> InRange(ws[i].addr))
      && (|ws| == 2 ==> ws[0].addr != ws[1].addr)
  {
    var arg := And(ir, ADDRESS_MASK);
    MaskAddress(ir);
    MaskAddress(s.Lookup(arg));
    var op := OpcodeBits(ir);
    var ws := Decode(s, ir).writes;
    if op == 0x0 || op == 0x1 || (0x3 <= op <= 0x7) || op == 0xa || op == 0xf {
      assert ws[0].addr == ACCU && ws[1].addr == IAR;
    } else if op == 0x2 || op == 0xc {
      assert ws[0].addr == arg && ws[1].addr == IAR;
    } else if op == 0xb {
      assert ws[0].addr == And(s.Lookup(arg), ADDRESS_MASK) && ws[1].addr == IAR;
    } else {
      assert |ws| == 1 && ws[0].addr == IAR;
    }
  }

  /** The opcode of a word is its bits from 20 up; the argument its 20 low bits. */
  lemma DecodeFields(s: Snapshot)
    requires InRange(s.iar)
    ensures var ir := s.Lookup(s.iar);
      Execute(s) == Ok(Decode(s, ir)) &&
      And(ir, ADDRESS_MASK) == ir % ADDRESS_RANGE && OpcodeBits(ir) == ir / ADDRESS_RANGE
  {
    MaskAddress(s.Lookup(s.iar));
    Pow2Values();
  }

  /** The sum ADD stores is the true sum modulo 2^24: the 32-bit wrap does not show. */
  lemma AddKeepsLowBits(x: int, y: int)
    ensures And(JavaAdd(x, y), VALUE_MASK) == (x + y) % VALUE_RANGE
  {
    var z := x + y;
    var w := z % 0x1_0000_0000;
    MaskValue(JavaAdd(x, y));
    DivModUnique(z, 0x1_0000_0000, z / 0x1_0000_0000, w);
    var j := JavaAdd(x, y);
    var m := if w >= 0x8000_0000 then -(z / 0x1_0000_0000) * 256 - 256 else -(z / 0x1_0000_0000) * 256;
    assert j == z + m * VALUE_RANGE;
    ModShift(z, VALUE_RANGE, m);
  }

  /** EQL stores all 24 ones for equal operands, else 0. */
  lemma EqlResult(x: int, y: int)
    ensures And(Alu(0x7, x, y), VALUE_MASK) == if x == y then VALUE_MASK else 0
  {
    var r := Alu(0x7, x, y);
    assert r == if x == y then -1 else 0;
    MaskValue(r);
  }

  /** The arithmetic opcodes store a 24-bit value into ACCU and advance IAR. */
  lemma AluStoresValue(s: Snapshot)
    requires InRange(s.iar)
    requires var op := OpcodeBits(s.Lookup(s.iar)); 0x3 <= op <= 0x7
    ensures Execute(s).Ok? && Execute(s).value.Proceed?
    ensures var ws := Execute(s).value.writes;
      |ws| == 2 && ws[0].addr == ACCU && 0 <= ws[0].value <= VALUE_MASK &&
      ws[1] == Write(IAR, (s.iar + 1) % ADDRESS_RANGE)
  {
    var ir := s.Lookup(s.iar);
    var opcode := OpcodeBits(ir);
    MaskValue(Alu(opcode, s.accu, s.Lookup(And(ir, ADDRESS_MASK))));
    MaskAddress(s.iar + 1);
  }

  /** Bit 23 of a word: the bit JMN tests. */
  lemma SignBitTest(a: int)
    ensures And(a, SIGNBIT) == ((a / SIGNBIT) % 2) * SIGNBIT
  {
    WidthsDetermineMasks();
    AndShiftedMask(a, 1, VALUE_WIDTH - 1);
    AndLowMask(a / SIGNBIT, 1);
  }

  /** JMN jumps exactly when bit 23 of ACCU is set, and otherwise advances IAR. */
  lemma JmnTestsSignBit(s: Snapshot)
    requires InRange(s.iar) && OpcodeBits(s.Lookup(s.iar)) == 0x9
    ensures var ir := s.Lookup(s.iar);
      Execute(s) == Ok(Proceed(
        if (s.accu / SIGNBIT) % 2 == 1 then [Write(IAR, ir % ADDRESS_RANGE)]
        else [Write(IAR, (s.iar + 1) % ADDRESS_RANGE)]))
  {
    SignBitTest(s.accu);
    MaskAddress(s.Lookup(s.iar));
    MaskAddress(s.iar + 1);
  }

  /** NOT on a 24-bit value flips its 24 bits. */
  lemma NotFlipsValue(a: int)
    requires 0 <= a <= VALUE_MASK
    ensures And(Not(a), VALUE_MASK) == VALUE_MASK - a
  {
    MaskValue(Not(a));
    DivModUnique(Not(a), VALUE_RANGE, -1, VALUE_MASK - a);
  }

  /** Two NOTs give the 24-bit value back. */
  lemma NotTwice(a: int)
    requires 0 <= a <= VALUE_MASK
    ensures And(Not(And(Not(a), VALUE_MASK)), VALUE_MASK) == a
  {
    NotFlipsValue(a);
    NotFlipsValue(VALUE_MASK - a);
  }

  /** RAR on a 24-bit value rotates it right by one bit within the 24 bits. */
  lemma RarRotates(a: int)
    requires 0 <= a <= VALUE_MASK
    ensures Rar(a) == a / 2 + (a % 2) * SIGNBIT
    ensures 0 <= Rar(a) <= VALUE_MASK
  {
    WidthsDetermineMasks();
    AndLowMask(a, 1);
    var low := And(a, 1);
    assert low == a % 2;
    var high := ShiftLeft(low, VALUE_WIDTH - 1);
    assert high == low * Pow2(23);
    assert ShiftRight(a, 1) == a / 2;
    OrCommutes(a / 2, high);
    OrDisjoint(low, a / 2, 23);
  }

  // ------------------------------------------------------------ whole runs

  /** The pending updates are the head of the first step the loop commits. */
  lemma LoopFirstStep(s: Snapshot, pending: Step, maxSteps: int)
    requires Loop(s, pending, [], maxSteps).Ok? && |Loop(s, pending, [], maxSteps).value| > 0
    ensures var first := Loop(s, pending, [], maxSteps).value[0];
      |pending| <= |first| && first[..|pending|] == pending
  {
    var out := Loop(s, pending, [], maxSteps).value;
    match Execute(s)
    case Ok(Proceed(ws)) =>
      var step := pending + Record(s, ws);
      assert out[..1] == [step];
      assert step[..|pending|] == pending;
    case Ok(Stop) =>
      assert out == [pending];
  }

  /** The presets are logged first, as the head of step 0, with their old values. */
  lemma PresetsInFirstStep(commands: seq<Command>, labelMap: map<string, int>, presets: seq<Write>, maxSteps: int)
    requires HasInstructions(commands) && Run(commands, labelMap, presets, maxSteps).Ok?
    requires |Run(commands, labelMap, presets, maxSteps).value| > 0
    ensures Loadable(commands)
    ensures var first := Run(commands, labelMap, presets, maxSteps).value[0];
      var s0 := Initial(commands, labelMap);
      |presets| <= |first| && first[..|presets|] == Record(s0, presets)
  {
    RunLoops(commands, labelMap, presets, maxSteps);
    var s0 := Initial(commands, labelMap);
    LoopFirstStep(StoreAll(s0, presets), Record(s0, presets), maxSteps);
  }

  /** Committing the pending updates followed by an instruction's log keeps the log recorded. */
  lemma CommitRecorded(s0: Snapshot, steps: seq<Step>, pending: Step, s: Snapshot, ws: seq<Write>)
    requires Recorded(s0, steps) && Consistent(Replay(s0, steps), pending)
    requires s == StoreAll(Replay(s0, steps), NewWrites(pending))
    ensures var step := pending + Record(s, ws);
      && Recorded(s0, steps + [step])
      && Consistent(Replay(s0, steps + [step]), [])
      && StoreAll(s, ws) == StoreAll(Replay(s0, steps + [step]), NewWrites([]))
  {
    var r := Replay(s0, steps);
    var step := pending + Record(s, ws);
    RecordReplays(s, ws);
    assert NewWrites(step) == NewWrites(pending) + ws;
    RecordAppend(r, NewWrites(pending), ws);
    StoreAllAppend(r, NewWrites(pending), ws);
    RecordedSnoc(s0, steps, step);
    RecordIsConsistent(StoreAll(s, ws), []);
  }

  /** Every step the loop commits was recorded from the state its predecessors reach. */
  lemma {:induction false} LoopRecorded(s0: Snapshot, s: Snapshot, pending: Step, steps: seq<Step>, maxSteps: int)
    requires Recorded(s0, steps) && Consistent(Replay(s0, steps), pending)
    requires s == StoreAll(Replay(s0, steps), NewWrites(pending))
    requires Loop(s, pending, steps, maxSteps).Ok?
    ensures Recorded(s0, Loop(s, pending, steps, maxSteps).value)
    decreases maxSteps - |steps|
  {
    if |steps| < maxSteps {
      var e := Execute(s);
      if e == Ok(Stop) {
        RecordedSnoc(s0, steps, pending);
      } else if e.Ok? {
        var ws := e.value.writes;
        var step := pending + Record(s, ws);
        LoopProceeds(s, pending, steps, maxSteps, ws);
        CommitRecorded(s0, steps, pending, s, ws);
        LoopRecorded(s0, StoreAll(s, ws), [], steps + [step], maxSteps);
      }
    }
  }

  /** A run's steps replay from the initial state: the recording invariant. */
  lemma RunRecorded(commands: seq<Command>, labelMap: map<string, int>, presets: seq<Write>, maxSteps: int)
    requires HasInstructions(commands) && Run(commands, labelMap, presets, maxSteps).Ok?
    ensures Loadable(commands)
    ensures Recorded(Initial(commands, labelMap), Run(commands, labelMap, presets, maxSteps).value)
  {
    RunLoops(commands, labelMap, presets, maxSteps);
    var s0 := Initial(commands, labelMap);
    RecordReplays(s0, presets);
    RecordIsConsistent(s0, presets);
    LoopRecorded(s0, StoreAll(s0, presets), Record(s0, presets), [], maxSteps);
  }

  /** The addresses of a log are those of the writes it records. */
  lemma RecordAddresses(s: Snapshot, ws: seq<Write>, i: nat)
    requires i < |ws|
    ensures Record(s, ws)[i].addr == ws[i].addr
  {
    RecordOldValue(s, ws, i);
  }

  /** Every step the loop commits names only locations the state has. */
  lemma {:induction false} LoopInRange(s: Snapshot, pending: Step, steps: seq<Step>, maxSteps: int)
    requires AllInRange(steps) && InRangeStep(pending) && Loop(s, pending, steps, maxSteps).Ok?
    ensures AllInRange(Loop(s, pending, steps, maxSteps).value)
    decreases maxSteps - |steps|
  {
    if |steps| < maxSteps {
      match Execute(s)
      case Ok(Stop) =>
        assert (steps + [pending])[|steps|] == pending;
      case Ok(Proceed(ws)) =>
        var step := pending + Record(s, ws);
        DecodeWrites(s, s.Lookup(s.iar));
        forall i | 0 <= i < |step|
          ensures InRange(step[i].addr)
        {
          if i >= |pending| {
            RecordAddresses(s, ws, i - |pending|);
          }
        }
        assert (steps + [step])[|steps|] == step;
        LoopInRange(StoreAll(s, ws), [], steps + [step], maxSteps);
    }
  }

  /** Every step of a run names only locations the state has, so it can be navigated. */
  lemma RunInRange(commands: seq<Command>, labelMap: map<string, int>, presets: seq<Write>, maxSteps: int)
    requires HasInstructions(commands) && Run(commands, labelMap, presets, maxSteps).Ok?
    ensures AllInRange(Run(commands, labelMap, presets, maxSteps).value)
  {
    RunLoops(commands, labelMap, presets, maxSteps);
    var s0 := Initial(commands, labelMap);
    forall i | 0 <= i < |presets|
      ensures InRange(Record(s0, presets)[i].addr)
    {
      RecordAddresses(s0, presets, i);
    }
    LoopInRange(StoreAll(s0, presets), Record(s0, presets), [], maxSteps);
  }

  /** Without pending updates every committed step writes distinct locations. */
  lemma {:induction false} LoopDistinct(s: Snapshot, steps: seq<Step>, maxSteps: int)
    requires forall k :: 0 <= k < |steps| ==> Distinct(steps[k])
    requires Loop(s, [], steps, maxSteps).Ok?
    ensures var out := Loop(s, [], steps, maxSteps).value;
      forall k :: 0 <= k < |out| ==> Distinct(out[k])
    decreases maxSteps - |steps|
  {
    if |steps| < maxSteps {
      match Execute(s)
      case Ok(Stop) =>
        assert (steps + [[]])[|steps|] == [];
      case Ok(Proceed(ws)) =>
        var step := [] + Record(s, ws);
        DecodeWrites(s, s.Lookup(s.iar));
        if |ws| == 2 {
          RecordAddresses(s, ws, 0);
          RecordAddresses(s, ws, 1);
        }
        assert (steps + [step])[|steps|] == step;
        LoopDistinct(StoreAll(s, ws), steps + [step], maxSteps);
    }
  }

  /** A run without presets can be walked both ways: every step is undoable. */
  lemma RunUndoable(commands: seq<Command>, labelMap: map<string, int>, maxSteps: int)
    requires HasInstructions(commands) && Run(commands, labelMap, [], maxSteps).Ok?
    ensures Undoable(Run(commands, labelMap, [], maxSteps).value)
  {
    RunInRange(commands, labelMap, [], maxSteps);
    RunLoops(commands, labelMap, [], maxSteps);
    var s0 := Initial(commands, labelMap);
    assert StoreAll(s0, []) == s0 && Record(s0, []) == [];
    LoopDistinct(s0, [], maxSteps);
  }

  /** Below the bound, an instruction that proceeds commits one step and the loop goes on. */
  lemma LoopProceeds(s: Snapshot, pending: Step, steps: seq<Step>, maxSteps: int, ws: seq<Write>)
    requires |steps| < maxSteps && Execute(s) == Ok(Proceed(ws))
    ensures Loop(s, pending, steps, maxSteps) == Loop(StoreAll(s, ws), [], steps + [pending + Record(s, ws)], maxSteps)
  {
  }

  /** Below the bound, an instruction that proceeds is committed, after the pending updates, as step 0. */
  lemma LoopCommitsFirst(s: Snapshot, pending: Step, maxSteps: int, ws: seq<Write>)
    requires maxSteps >= 1 && Execute(s) == Ok(Proceed(ws))
    requires Loop(s, pending, [], maxSteps).Ok?
    ensures |Loop(s, pending, [], maxSteps).value| >= 1
    ensures Loop(s, pending, [], maxSteps).value[0] == pending + Record(s, ws)
  {
    var step := pending + Record(s, ws);
    LoopProceeds(s, pending, [], maxSteps, ws);
    var out := Loop(StoreAll(s, ws), [], [] + [step], maxSteps);
    assert out.Ok?;
    assert out.value[..1] == [step];
    assert out.value[0] == out.value[..1][0];
  }

  /**
   * A preset to a location the first instruction also writes puts that
   * location twice into step 0, which going back then does not restore.
   */
  lemma PresetClash(commands: seq<Command>, labelMap: map<string, int>, presets: seq<Write>, maxSteps: int,
                    ws: seq<Write>, i: nat, j: nat)
    requires HasInstructions(commands) && Run(commands, labelMap, presets, maxSteps).Ok?
    requires maxSteps >= 1 && Loadable(commands)
    requires Execute(StoreAll(Initial(commands, labelMap), presets)) == Ok(Proceed(ws))
    requires i < |presets| && j < |ws| && presets[i].addr == ws[j].addr
    ensures |Run(commands, labelMap, presets, maxSteps).value| >= 1
    ensures !Distinct(Run(commands, labelMap, presets, maxSteps).value[0])
  {
    RunLoops(commands, labelMap, presets, maxSteps);
    LoopClash(Initial(commands, labelMap), presets, maxSteps, ws, i, j);
  }

  /** PresetClash for the loop that follows the presets written over s0. */
  lemma LoopClash(s0: Snapshot, presets: seq<Write>, maxSteps: int, ws: seq<Write>, i: nat, j: nat)
    requires maxSteps >= 1 && Execute(StoreAll(s0, presets)) == Ok(Proceed(ws))
    requires Loop(StoreAll(s0, presets), Record(s0, presets), [], maxSteps).Ok?
    requires i < |presets| && j < |ws| && presets[i].addr == ws[j].addr
    ensures var out := Loop(StoreAll(s0, presets), Record(s0, presets), [], maxSteps).value;
      |out| >= 1 && !Distinct(out[0])
  {
    var s1 := StoreAll(s0, presets);
    var pending := Record(s0, presets);
    LoopCommitsFirst(s1, pending, maxSteps, ws);
    var step := pending + Record(s1, ws);
    RecordAddresses(s0, presets, i);
    RecordAddresses(s1, ws, j);
    assert step[i].addr == step[|presets| + j].addr;
  }
}
