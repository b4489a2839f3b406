/**
 * The recording run of Interpreter.java (makeTimeline and op): the
 * fetch/decode/execute loop that drives a TimelineBuilder, committing one
 * step per instruction, until HALT, an unknown instruction or the step
 * bound.  Each method is proved to do what the functions of Semantics say.
 */
module Interpreter {
  import opened Wrappers
  import opened Bits
  import opened Constants
  import opened Commands
  import opened Machine
  import opened Journal
  import opened Navigation
  import opened Recording
  import opened Semantics

  /** The writes of one instruction are those Semantics.Decode gives for the fetched word. */
  ghost predicate Performed(b: TimelineBuilder, s: Snapshot, pending: Step, ws: seq<Write>)
    reads b, b.state, b.state.mem
  {
    b.state.Value() == StoreAll(s, ws) && b.curUpdates == pending + Record(s, ws)
  }

  /** `set` of one location through the builder, as one logged write. */
  method SetOne(b: TimelineBuilder, addr: int, val: int)
    requires b.Valid() && InRange(addr)
    modifies b, b.state, b.state.mem
    ensures b.Valid() && b.updates == old(b.updates)
    ensures Performed(b, old(b.state.Value()), old(b.curUpdates), [Write(addr, val)])
  {
    ghost var s := b.state.Value();
    b.Set(addr, val);
    RecordOne(s, Write(addr, val));
  }

  /** Two `set`s in a row: the second sees the first one's write. */
  method SetTwo(b: TimelineBuilder, w0: Write, w1: Write)
    requires b.Valid() && InRange(w0.addr) && InRange(w1.addr)
    modifies b, b.state, b.state.mem
    ensures b.Valid() && b.updates == old(b.updates)
    ensures Performed(b, old(b.state.Value()), old(b.curUpdates), [w0, w1])
  {
    ghost var s := b.state.Value();
    b.Set(w0.addr, w0.value);
    b.Set(w1.addr, w1.value);
    RecordTwo(s, w0, w1);
  }

  /**
   * The common tail of most instructions: `set` one location that is not
   * IAR, then `incIAR`, which reads the IAR the first write left alone.
   */
  method SetAndAdvance(b: TimelineBuilder, addr: int, val: int)
    requires b.Valid() && InRange(addr) && addr != IAR
    modifies b, b.state, b.state.mem
    ensures b.Valid() && b.updates == old(b.updates)
    ensures Performed(b, old(b.state.Value()), old(b.curUpdates),
      [Write(addr, val), Write(IAR, AddressBits(old(b.state.iar) + 1))])
  {
    ghost var s := b.state.Value();
    ghost var t := s.Store(addr, val);
    assert t.iar == s.iar;
    b.Set(addr, val);
    assert b.state.Value() == t;
    b.IncIAR();
    assert b.state.Value() == t.Store(IAR, AddressBits(s.iar + 1));
    RecordTwo(s, Write(addr, val), Write(IAR, AddressBits(s.iar + 1)));
  }

  /** `op`: ACCU := f(ACCU, mem[arg]) masked to 24 bits, then IAR + 1. */
  method Op(b: TimelineBuilder, arg: int, opcode: int)
    requires b.Valid() && 0 <= arg < MEMORY_SIZE && 0x3 <= opcode <= 0x7
    modifies b, b.state, b.state.mem
    ensures b.Valid() && b.updates == old(b.updates)
    ensures Performed(b, old(b.state.Value()), old(b.curUpdates),
      [Write(ACCU, ValueBits(Alu(opcode, old(b.state.accu), old(b.state.Value()).Lookup(arg)))),
       Write(IAR, AddressBits(old(b.state.iar) + 1))])
  {
    var op1 := b.state.Get(ACCU);
    var op2 := b.state.Get(arg);
    var res := ValueBits(Alu(opcode, op1, op2));
    SetAndAdvance(b, ACCU, res);
  }

  /** The fetched word `ir` does not end the run, and the builder made the writes Decode gives. */
  ghost predicate Executed(b: TimelineBuilder, s: Snapshot, pending: Step, ir: int)
    reads b, b.state, b.state.mem
  {
    Decode(s, ir).Proceed? && Performed(b, s, pending, Decode(s, ir).writes)
  }

  /**
   * The switch of makeTimeline for the fetched word `ir`: performs the
   * instruction's writes through the builder, or reports that the run
   * ends (HALT, an unknown F extension, an unknown opcode).
   */
  method Dispatch(b: TimelineBuilder, ir: int) returns (stop: bool)
    requires b.Valid()
    modifies b, b.state, b.state.mem
    ensures b.Valid() && b.updates == old(b.updates)
    ensures stop <==> Decode(old(b.state.Value()), ir).Stop?
    ensures stop ==> b.state.Value() == old(b.state.Value()) && b.curUpdates == old(b.curUpdates)
    ensures !stop ==> Executed(b, old(b.state.Value()), old(b.curUpdates), ir)
  {
    var arg := AddressBits(ir);
    var opcode := OpcodeBits(ir);
    stop := false;
    if opcode == 0x0 {
      Ldc(b, ir, arg);
    } else if opcode == 0x1 {
      Ldv(b, ir, arg);
    } else if opcode == 0x2 {
      Stv(b, ir, arg);
    } else if 0x3 <= opcode <= 0x7 {
      Arith(b, ir, arg, opcode);
    } else if opcode == 0x8 {
      Jmp(b, ir, arg);
    } else if opcode == 0x9 {
      Jmn(b, ir, arg);
    } else if opcode == 0xa {
      Ldiv(b, ir, arg);
    } else if opcode == 0xb {
      Stiv(b, ir, arg);
    } else if opcode == 0xc {
      Jms(b, ir, arg);
    } else if opcode == 0xd {
      Jind(b, ir, arg);
    } else if opcode == 0xf {
      stop := Extended(b, ir, arg);
    } else {
      stop := true;
    }
  }

  /** Case 0x0, LDC: ACCU := the whole word, then IAR + 1. */
  method Ldc(b: TimelineBuilder, ir: int, arg: int)
    requires b.Valid() && arg == AddressBits(ir) && OpcodeBits(ir) == 0x0
    modifies b, b.state, b.state.mem
    ensures b.Valid() && b.updates == old(b.updates)
    ensures Executed(b, old(b.state.Value()), old(b.curUpdates), ir)
  {
    SetAndAdvance(b, ACCU, ir);
  }

  /** Case 0x1, LDV: ACCU := mem[arg], then IAR + 1. */
  method Ldv(b: TimelineBuilder, ir: int, arg: int)
    requires b.Valid() && arg == AddressBits(ir) && OpcodeBits(ir) == 0x1
    modifies b, b.state, b.state.mem
    ensures b.Valid() && b.updates == old(b.updates)
    ensures Executed(b, old(b.state.Value()), old(b.curUpdates), ir)
  {
    var v := b.state.Get(arg);
    SetAndAdvance(b, ACCU, v);
  }

  /** Case 0x2, STV: mem[arg] := ACCU, then IAR + 1. */
  method Stv(b: TimelineBuilder, ir: int, arg: int)
    requires b.Valid() && arg == AddressBits(ir) && OpcodeBits(ir) == 0x2
    modifies b, b.state, b.state.mem
    ensures b.Valid() && b.updates == old(b.updates)
    ensures Executed(b, old(b.state.Value()), old(b.curUpdates), ir)
  {
    var v := b.state.Get(ACCU);
    SetAndAdvance(b, arg, v);
  }

  /** Cases 0x3 to 0x7, ADD, AND, OR, XOR and EQL: `op` with the opcode's function. */
  method Arith(b: TimelineBuilder, ir: int, arg: int, opcode: int)
    requires b.Valid() && arg == AddressBits(ir) && opcode == OpcodeBits(ir) && 0x3 <= opcode <= 0x7
    modifies b, b.state, b.state.mem
    ensures b.Valid() && b.updates == old(b.updates)
    ensures Executed(b, old(b.state.Value()), old(b.curUpdates), ir)
  {
    Op(b, arg, opcode);
  }

  /** Case 0x8, JMP: IAR := arg. */
  method Jmp(b: TimelineBuilder, ir: int, arg: int)
    requires b.Valid() && arg == AddressBits(ir) && OpcodeBits(ir) == 0x8
    modifies b, b.state, b.state.mem
    ensures b.Valid() && b.updates == old(b.updates)
    ensures Executed(b, old(b.state.Value()), old(b.curUpdates), ir)
  {
    SetOne(b, IAR, arg);
  }

  /** Case 0x9, JMN: IAR := arg when the sign bit of ACCU is set, else IAR + 1. */
  method Jmn(b: TimelineBuilder, ir: int, arg: int)
    requires b.Valid() && arg == AddressBits(ir) && OpcodeBits(ir) == 0x9
    modifies b, b.state, b.state.mem
    ensures b.Valid() && b.updates == old(b.updates)
    ensures Executed(b, old(b.state.Value()), old(b.curUpdates), ir)
  {
    if And(b.state.Get(ACCU), SIGNBIT) != 0 {
      SetOne(b, IAR, arg);
    } else {
      b.IncIAR();
      RecordOne(old(b.state.Value()), Write(IAR, AddressBits(old(b.state.iar) + 1)));
    }
  }

  /** Case 0xa, LDIV: ACCU := mem[mem[arg] masked to 20 bits], then IAR + 1. */
  method Ldiv(b: TimelineBuilder, ir: int, arg: int)
    requires b.Valid() && arg == AddressBits(ir) && OpcodeBits(ir) == 0xa
    modifies b, b.state, b.state.mem
    ensures b.Valid() && b.updates == old(b.updates)
    ensures Executed(b, old(b.state.Value()), old(b.curUpdates), ir)
  {
    var tmp := b.state.Get(arg);
    tmp := b.state.Get(AddressBits(tmp));
    SetAndAdvance(b, ACCU, tmp);
  }

  /** Case 0xb, STIV: mem[mem[arg] masked to 20 bits] := ACCU, then IAR + 1. */
  method Stiv(b: TimelineBuilder, ir: int, arg: int)
    requires b.Valid() && arg == AddressBits(ir) && OpcodeBits(ir) == 0xb
    modifies b, b.state, b.state.mem
    ensures b.Valid() && b.updates == old(b.updates)
    ensures Executed(b, old(b.state.Value()), old(b.curUpdates), ir)
  {
    var tmp := b.state.Get(arg);
    var v := b.state.Get(ACCU);
    SetAndAdvance(b, AddressBits(tmp), v);
  }

  /** Case 0xc, JMS: mem[arg] := IAR + 1 (unmasked), then IAR := arg + 1 masked. */
  method Jms(b: TimelineBuilder, ir: int, arg: int)
    requires b.Valid() && arg == AddressBits(ir) && OpcodeBits(ir) == 0xc
    modifies b, b.state, b.state.mem
    ensures b.Valid() && b.updates == old(b.updates)
    ensures Executed(b, old(b.state.Value()), old(b.curUpdates), ir)
  {
    var ret := b.state.Get(IAR) + 1;
    SetTwo(b, Write(arg, ret), Write(IAR, AddressBits(arg + 1)));
  }

  /** Case 0xd, JIND: IAR := mem[arg], not masked. */
  method Jind(b: TimelineBuilder, ir: int, arg: int)
    requires b.Valid() && arg == AddressBits(ir) && OpcodeBits(ir) == 0xd
    modifies b, b.state, b.state.mem
    ensures b.Valid() && b.updates == old(b.updates)
    ensures Executed(b, old(b.state.Value()), old(b.curUpdates), ir)
  {
    var target := b.state.Get(arg);
    SetOne(b, IAR, target);
  }

  /**
   * Case 0xf, told apart by the argument bits: NOT and RAR change ACCU and
   * advance IAR; HALT and every other argument end the run.
   */
  method Extended(b: TimelineBuilder, ir: int, arg: int) returns (stop: bool)
    requires b.Valid() && arg == AddressBits(ir) && OpcodeBits(ir) == 0xf
    modifies b, b.state, b.state.mem
    ensures b.Valid() && b.updates == old(b.updates)
    ensures stop <==> arg != 0x1_0000 && arg != 0x2_0000
    ensures stop <==> Decode(old(b.state.Value()), ir).Stop?
    ensures stop ==> b.state.Value() == old(b.state.Value()) && b.curUpdates == old(b.curUpdates)
    ensures !stop ==> Executed(b, old(b.state.Value()), old(b.curUpdates), ir)
  {
    stop := false;
    if arg == 0x1_0000 {
      var v := ValueBits(Not(b.state.Get(ACCU)));
      SetAndAdvance(b, ACCU, v);
    } else if arg == 0x2_0000 {
      var tmp := b.state.Get(ACCU);
      tmp := Rar(tmp);
      SetAndAdvance(b, ACCU, tmp);
    } else {
      stop := true;
    }
  }

  /** One more `set`, of write i after the writes before it: the log and the state grow by that write. */
  method SetNext(b: TimelineBuilder, ghost s: Snapshot, ghost pending: Step, ws: seq<Write>, i: nat)
    requires b.Valid() && i < |ws| && InRange(ws[i].addr) && Performed(b, s, pending, ws[..i])
    modifies b, b.state, b.state.mem
    ensures b.Valid() && b.updates == old(b.updates)
    ensures Performed(b, s, pending, ws[..i + 1])
  {
    ghost var done := ws[..i];
    ghost var u := Update(ws[i].addr, StoreAll(s, done).Lookup(ws[i].addr), ws[i].value);
    RecordSnoc(s, done, ws[i]);
    assert ws[..i + 1] == done + [ws[i]];
    b.Set(ws[i].addr, ws[i].value);
    assert b.curUpdates == (pending + Record(s, done)) + [u];
  }

  /**
   * The preset loop of makeTimeline: each (address, value) entry goes
   * through `set`, so it is logged in the pending step; an address `get`
   * and `set` reject throws.
   */
  method WritePresets(b: TimelineBuilder, presets: seq<Write>) returns (r: Outcome<Fault>)
    requires b.Valid()
    modifies b, b.state, b.state.mem
    ensures b.Valid() && b.updates == old(b.updates)
    ensures r.Fail? <==> FirstOutside(WriteAddresses(presets), true).Some?
    ensures r.Fail? ==> r.error == IndexOutOfBounds(FirstOutside(WriteAddresses(presets), true).value)
    ensures r.Pass? ==> Performed(b, old(b.state.Value()), old(b.curUpdates), presets)
  {
    ghost var s0, pending := b.state.Value(), b.curUpdates;
    ghost var addrs := WriteAddresses(presets);
    var i := 0;
    while i < |presets|
      invariant 0 <= i <= |presets|
      invariant b.Valid() && b.updates == old(b.updates)
      invariant forall j :: 0 <= j < i ==> Accepted(addrs[j], true)
      invariant Performed(b, s0, pending, presets[..i])
    {
      if !InRange(presets[i].addr) {
        FirstOutsideAt(addrs, true, i);
        return Fail(IndexOutOfBounds(presets[i].addr));
      }
      SetNext(b, s0, pending, presets, i);
      i := i + 1;
    }
    assert presets[..i] == presets;
    return Pass;
  }

  /**
   * The fetch/decode/execute loop of makeTimeline: runs while fewer than
   * `maxSteps` steps are committed, commits one step per instruction and
   * stops after committing at HALT or an unknown instruction.  It commits
   * exactly the steps Loop gives, or throws where Loop faults.
   */
  method Interpret(b: TimelineBuilder, maxSteps: int) returns (r: Outcome<Fault>)
    requires b.Valid()
    modifies b, b.state, b.state.mem
    ensures b.Valid()
    ensures var run := Loop(old(b.state.Value()), old(b.curUpdates), old(b.updates), maxSteps);
      && (r.Fail? <==> run.Err?)
      && (r.Fail? ==> r.error == run.error)
      && (r.Pass? ==> run.value == b.updates)
  {
    ghost var run := Loop(b.state.Value(), b.curUpdates, b.updates, maxSteps);
    while b.Size() < maxSteps
      invariant b.Valid()
      invariant run == Loop(b.state.Value(), b.curUpdates, b.updates, maxSteps)
      decreases maxSteps - b.Size()
    {
      ghost var s, pending, steps := b.state.Value(), b.curUpdates, b.updates;
      var iar := b.state.Get(IAR);
      if !InRange(iar) {
        return Fail(IndexOutOfBounds(iar));
      }
      var ir := b.state.Get(iar);
      assert Execute(s) == Ok(Decode(s, ir));
      var stop := Dispatch(b, ir);
      b.Commit();
      if stop {
        assert run == Ok(steps + [pending]);
        return Pass;
      }
      LoopProceeds(s, pending, steps, maxSteps, Decode(s, ir).writes);
    }
    return Pass;
  }

  /**
   * makeTimeline: load the program (a line outside the memory is an index
   * error), write the presets as logged updates, then fetch, decode and
   * execute until HALT, an unknown instruction or `maxSteps` committed
   * steps.  The steps of the built timeline are exactly those of Run.
   */
  method MakeTimeline(fileContent: string, commands: seq<Command>, labelMap: map<string, int>,
                      presets: seq<Write>, maxSteps: int) returns (r: Result<Timeline, Fault>)
    requires HasInstructions(commands)
    ensures Run(commands, labelMap, presets, maxSteps).Err? ==>
      r == Err(Run(commands, labelMap, presets, maxSteps).error)
    ensures Run(commands, labelMap, presets, maxSteps).Ok? ==>
      && r.Ok? && fresh(r.value) && fresh(r.value.state)
      && r.value.Valid() && r.value.Synced()
      && r.value.updates == Run(commands, labelMap, presets, maxSteps).value
      && r.value.currentPosition == 0 && r.value.curUpdates == []
      && r.value.origin == Initial(commands, labelMap)
      && r.value.commands == commands && r.value.fileContent == fileContent
  {
    var bad := FirstOutside(LineAddresses(commands), false);
    if bad.Some? {
      return Err(IndexOutOfBounds(bad.value));
    }
    assert Loadable(commands);
    var builder := new TimelineBuilder(fileContent, labelMap, commands);
    ghost var s0 := builder.state.Value();
    var written := WritePresets(builder, presets);
    if written.Fail? {
      return Err(written.error);
    }
    assert builder.curUpdates == Record(s0, presets);
    ghost var run := Loop(StoreAll(s0, presets), Record(s0, presets), [], maxSteps);
    assert Run(commands, labelMap, presets, maxSteps) == run;
    var outcome := Interpret(builder, maxSteps);
    if outcome.Fail? {
      return Err(outcome.error);
    }
    var t := builder.Build();
    return Ok(t);
  }
}
