/**
 * The machine state (State.java): 2^20 memory cells holding arbitrary Java
 * ints, and the two registers IAR and ACCU, which are addressed by the
 * sentinel addresses -1 and -2.  Also the opcode table with its encoding
 * of a program line into a word and the decoding of a word into text.
 */
module Machine {
  import opened Bits
  import opened Constants
  import opened Commands
  import opened Text
  import opened Wrappers

  const IAR: int := -1
  const ACCU: int := -2

  const MEMORY_SIZE: nat := 0x10_0000

  /** The addresses `get` and `set` accept without an index error. */
  predicate InRange(addr: int)
  {
    addr == IAR || addr == ACCU || 0 <= addr < MEMORY_SIZE
  }

  /** A whole machine state as a value. */
  datatype Snapshot = Snapshot(mem: seq<int>, iar: int, accu: int)
  {
    predicate Valid() { |mem| == MEMORY_SIZE }

    /** The value at an address; 0 for addresses the state does not have. */
    function Lookup(addr: int): int
    {
      if addr == IAR then iar
      else if addr == ACCU then accu
      else if 0 <= addr < |mem| then mem[addr]
      else 0
    }

    /** The state after a write; a write to a missing address is dropped. */
    function Store(addr: int, value: int): (s: Snapshot)
      ensures |s.mem| == |mem|
    {
      if addr == IAR then this.(iar := value)
      else if addr == ACCU then this.(accu := value)
      else if 0 <= addr < |mem| then this.(mem := mem[addr := value])
      else this
    }
  }

  /** A zeroed memory with both registers 0, as a fresh State has. */
  function Zeroed(): (s: Snapshot)
    ensures s.Valid()
    ensures forall i :: 0 <= i < |s.mem| ==> s.mem[i] == 0
    ensures s.iar == 0 && s.accu == 0
  {
    Snapshot(seq(MEMORY_SIZE, _ => 0), 0, 0)
  }

  /** Reading back a write gives the value written; nothing else changes. */
  lemma LookupStore(s: Snapshot, a: int, v: int, b: int)
    requires s.Valid() && InRange(a)
    ensures s.Store(a, v).Lookup(a) == v
    ensures b != a ==> s.Store(a, v).Lookup(b) == s.Lookup(b)
  {
  }

  /** A register write leaves every memory cell unchanged. */
  lemma RegisterWriteKeepsMemory(s: Snapshot, v: int)
    ensures s.Store(IAR, v).mem == s.mem && s.Store(IAR, v).accu == s.accu
    ensures s.Store(ACCU, v).mem == s.mem && s.Store(ACCU, v).iar == s.iar
  {
  }

  /** Two valid states that agree on every address are equal. */
  lemma SnapshotsEqual(s: Snapshot, t: Snapshot)
    requires s.Valid() && t.Valid()
    requires forall a :: InRange(a) ==> s.Lookup(a) == t.Lookup(a)
    ensures s == t
  {
    assert s.iar == t.iar by { assert InRange(IAR); }
    assert s.accu == t.accu by { assert InRange(ACCU); }
    forall i | 0 <= i < |s.mem|
      ensures s.mem[i] == t.mem[i]
    {
      assert InRange(i) && s.Lookup(i) == s.mem[i] && t.Lookup(i) == t.mem[i];
    }
  }

  // ------------------------------------------------------------ opcode table

  /** Mnemonic to opcode; DS and LDC share opcode 0. */
  const OPCODES: map<string, int> := map[
    "LDC" := 0x00_0000, "DS" := 0x0, "LDV" := 0x10_0000, "STV" := 0x20_0000,
    "ADD" := 0x30_0000, "AND" := 0x40_0000, "OR" := 0x50_0000,
    "XOR" := 0x60_0000, "EQL" := 0x70_0000, "JMP" := 0x80_0000,
    "JMN" := 0x90_0000, "LDIV" := 0xa0_0000, "STIV" := 0xb0_0000,
    "JMS" := 0xc0_0000, "JIND" := 0xd0_0000, "HALT" := 0xf0_0000,
    "NOT" := 0xf1_0000, "RAR" := 0xf2_0000]

  /** Opcode to mnemonic, without DS. */
  const INV_OPCODES: map<int, string> := map[
    0x00_0000 := "LDC", 0x10_0000 := "LDV", 0x20_0000 := "STV",
    0x30_0000 := "ADD", 0x40_0000 := "AND", 0x50_0000 := "OR",
    0x60_0000 := "XOR", 0x70_0000 := "EQL", 0x80_0000 := "JMP",
    0x90_0000 := "JMN", 0xa0_0000 := "LDIV", 0xb0_0000 := "STIV",
    0xc0_0000 := "JMS", 0xd0_0000 := "JIND", 0xf0_0000 := "HALT",
    0xf1_0000 := "NOT", 0xf2_0000 := "RAR"]

  /** The instructions of the F group, whose opcode fills 24 bits. */
  const EXTENDED: set<string> := {"HALT", "NOT", "RAR"}

  const OPCODE_GROUP_MASK: int := 0xF0_0000

  /** The opcode of a mnemonic; -1 for one not in the table. */
  function OpcodeOf(mnemonic: string): int
  {
    if mnemonic in OPCODES then OPCODES[mnemonic] else -1
  }

  /** `w & OPCODE_GROUP_MASK` on a Java int (GroupBits proves it): bits 20 to 23 of w, in place. */
  function GroupOf(w: int): int
  {
    (OpcodeBits(w) % 16) * ADDRESS_RANGE
  }

  /** The word a program line is loaded as. */
  function Encode(opcode: int, arg: int): (w: int)
  {
    if GroupOf(opcode) != OPCODE_GROUP_MASK then Or(opcode, arg) else opcode
  }

  function MnemonicOr(opcode: int): string
  {
    if opcode in INV_OPCODES then INV_OPCODES[opcode] else UNKNOWN_OPCODE
  }

  /** The text shown for a word (State.toInstruction). */
  function ToInstruction(w: int): (text: string)
  {
    if OpcodeBits(w) == 0xf then
      MnemonicOr(w)
    else
      MnemonicOr(GroupOf(w)) + " " + NatToString(AddressBits(w))
  }

  // ------------------------------------------------------- encoding lemmas

  /** The group bits of a word: bits 20 to 23, in place. */
  lemma GroupBits(w: int)
    ensures And(w, OPCODE_GROUP_MASK) == GroupOf(w)
  {
    Pow2Values();
    AndShiftedMask(w, 15, 20);
    AndLowMask(w / Pow2(20), 4);
  }

  /** Java's `w >> 20` is the floor of w / 2^20. */
  lemma ShiftRight20(w: int)
    ensures ShiftRight(w, 20) == OpcodeBits(w) == w / ADDRESS_RANGE
  {
    Pow2Values();
  }

  /** The opcodes outside the F group are i * 2^20 for i < 15. */
  lemma OrdinaryOpcode(m: string)
    requires m in OPCODES && m !in EXTENDED
    ensures OPCODES[m] % ADDRESS_RANGE == 0 && 0 <= OPCODES[m] / ADDRESS_RANGE < 15
  {
  }

  /** The F-group opcodes are 0xF00000 plus a small extension number. */
  lemma ExtendedOpcode(m: string)
    requires m in EXTENDED
    ensures OPCODES[m] / ADDRESS_RANGE == 15
    ensures INV_OPCODES[OPCODES[m]] == m
  {
  }

  /** A known non-F mnemonic is loaded as opcode plus argument. */
  lemma EncodeOrdinary(m: string, arg: int)
    requires m in OPCODES && m !in EXTENDED && 0 <= arg < ADDRESS_RANGE
    ensures Encode(OPCODES[m], arg) == OPCODES[m] + arg
  {
    var op := OPCODES[m];
    OrdinaryOpcode(m);
    ShiftedOr(op, arg);
  }

  lemma ShiftedOr(op: int, arg: int)
    requires op % ADDRESS_RANGE == 0 && 0 <= op / ADDRESS_RANGE < 15
    requires 0 <= arg < ADDRESS_RANGE
    ensures Encode(op, arg) == op + arg
  {
    var g := op / ADDRESS_RANGE;
    assert op == g * ADDRESS_RANGE;
    assert GroupOf(op) == op by {
      assert OpcodeBits(op) == g && g % 16 == g;
    }
    assert op < OPCODE_GROUP_MASK by {
      assert g * ADDRESS_RANGE <= 14 * ADDRESS_RANGE;
    }
    Pow2Values();
    OrDisjoint(g, arg, 20);
  }

  /** The F-group mnemonics ignore the argument. */
  lemma EncodeExtended(m: string, arg: int)
    requires m in EXTENDED
    ensures Encode(OPCODES[m], arg) == OPCODES[m]
  {
    ExtendedOpcode(m);
  }

  /** An unknown mnemonic is loaded as -1, whatever the argument. */
  lemma EncodeUnknown(m: string, arg: int)
    requires m !in OPCODES
    ensures Encode(OpcodeOf(m), arg) == -1
  {
  }

  /**
   * Decoding an ordinary instruction gives back mnemonic and argument: a
   * line with mnemonic m, whose opcode is op, is loaded as op plus the
   * argument, and that word is shown as m and the argument.
   */
  lemma DecodeOrdinary(m: string, op: int, arg: int)
    requires m in OPCODES && m !in EXTENDED && m != "DS" && OPCODES[m] == op && 0 <= arg < ADDRESS_RANGE
    ensures Encode(op, arg) == op + arg
    ensures ToInstruction(op + arg) == m + " " + NatToString(arg)
  {
    EncodeOrdinary(m, arg);
    OrdinaryOpcode(m);
    InverseTable(m);
    DecodeWord(op, arg, m);
  }

  /** The two tables are inverse to each other, except for DS. */
  lemma InverseTable(m: string)
    requires m in OPCODES && m != "DS"
    ensures OPCODES[m] in INV_OPCODES && INV_OPCODES[OPCODES[m]] == m
  {
  }

  /** A word outside the F group is shown as its group's mnemonic and its 20 low bits. */
  lemma DecodeWord(op: int, arg: int, m: string)
    requires op % ADDRESS_RANGE == 0 && 0 <= op / ADDRESS_RANGE < 15
    requires 0 <= arg < ADDRESS_RANGE && MnemonicOr(op) == m
    ensures ToInstruction(op + arg) == m + " " + NatToString(arg)
  {
    var w := op + arg;
    SplitWord(op, arg);
    assert OpcodeBits(w) != 0xf;
    assert ToInstruction(w) == MnemonicOr(GroupOf(w)) + " " + NatToString(AddressBits(w));
  }

  /** A group below F plus a 20-bit argument splits back into the two. */
  lemma SplitWord(op: int, arg: int)
    requires op % ADDRESS_RANGE == 0 && 0 <= op / ADDRESS_RANGE < 15 && 0 <= arg < ADDRESS_RANGE
    ensures OpcodeBits(op + arg) == op / ADDRESS_RANGE
    ensures GroupOf(op + arg) == op && AddressBits(op + arg) == arg
  {
    var g := op / ADDRESS_RANGE;
    assert op == ADDRESS_RANGE * g;
    DivModUnique(op + arg, ADDRESS_RANGE, g, arg);
    assert g % 16 == g;
  }

  /** DS shares opcode 0 with LDC: a DS line loads and shows exactly like an LDC line. */
  lemma DecodeDataIsLoadConstant(arg: int)
    ensures OPCODES["DS"] == OPCODES["LDC"] == 0
    ensures Encode(OPCODES["DS"], arg) == Encode(OPCODES["LDC"], arg)
    ensures ToInstruction(Encode(OPCODES["DS"], arg)) == ToInstruction(Encode(OPCODES["LDC"], arg))
  {
    assert OPCODES["DS"] == OPCODES["LDC"];
  }

  /** An F-group instruction is shown by its mnemonic alone. */
  lemma DecodeExtended(m: string, arg: int)
    requires m in EXTENDED
    ensures ToInstruction(Encode(OPCODES[m], arg)) == m
  {
    EncodeExtended(m, arg);
    ExtendedOpcode(m);
    ShiftRight20(OPCODES[m]);
  }

  /** The word -1 of an unknown mnemonic is shown as a HALT with argument 2^20 - 1. */
  lemma DecodeUnknown(m: string, arg: int)
    requires m !in OPCODES
    ensures ToInstruction(Encode(OpcodeOf(m), arg)) == "HALT " + NatToString(ADDRESS_MASK)
  {
    EncodeUnknown(m, arg);
    MinusOneShown(Encode(OpcodeOf(m), arg));
  }

  lemma MinusOneShown(w: int)
    requires w == -1
    ensures ToInstruction(w) == "HALT " + NatToString(ADDRESS_MASK)
  {
    assert GroupOf(w) == OPCODE_GROUP_MASK && AddressBits(w) == ADDRESS_MASK;
    assert MnemonicOr(OPCODE_GROUP_MASK) == "HALT";
  }

  /** Words whose top bits are F but that are not in the table have no name. */
  lemma DecodeUnknownExtension(w: int)
    requires OpcodeBits(w) == 0xf && w !in INV_OPCODES
    ensures ToInstruction(w) == UNKNOWN_OPCODE
  {
  }

  // ------------------------------------------------------ loading a program

  /** The word a program line is loaded as (populateMemoryFromProgram). */
  function LineWord(c: Command): (w: int)
    requires c.instruction.Some?
  {
    Encode(OpcodeOf(c.instruction.value), c.valueArg)
  }

  /**
   * What loading needs: every line has an instruction (label-only lines
   * have been removed by then) and an address inside the memory.
   */
  predicate Loadable(commands: seq<Command>)
  {
    forall i :: 0 <= i < |commands| ==>
      commands[i].instruction.Some? && 0 <= commands[i].address < MEMORY_SIZE
  }

  /** The memory after loading the lines, in order, over a given memory. */
  function Load(base: seq<int>, commands: seq<Command>): (mem: seq<int>)
    requires Loadable(commands)
    ensures |mem| == |base|
  {
    if |commands| == 0 || |base| != MEMORY_SIZE then base
    else
      var last := commands[|commands| - 1];
      Load(base, commands[..|commands| - 1])[last.address := LineWord(last)]
  }

  /** A cell no line is placed at keeps its old content. */
  lemma {:induction false} LoadUntouched(base: seq<int>, commands: seq<Command>, a: int)
    requires Loadable(commands) && |base| == MEMORY_SIZE && 0 <= a < MEMORY_SIZE
    requires forall i :: 0 <= i < |commands| ==> commands[i].address != a
    ensures Load(base, commands)[a] == base[a]
    decreases |commands|
  {
    if |commands| > 0 {
      LoadUntouched(base, commands[..|commands| - 1], a);
    }
  }

  /** The last line placed at an address decides the cell's content. */
  lemma {:induction false} LoadLastWins(base: seq<int>, commands: seq<Command>, i: nat)
    requires Loadable(commands) && |base| == MEMORY_SIZE && i < |commands|
    requires forall j :: i < j < |commands| ==> commands[j].address != commands[i].address
    ensures Load(base, commands)[commands[i].address] == LineWord(commands[i])
    decreases |commands|
  {
    if i < |commands| - 1 {
      LoadLastWins(base, commands[..|commands| - 1], i);
    }
  }

  /** The memory a freshly loaded State holds. */
  function Image(commands: seq<Command>): (mem: seq<int>)
    requires Loadable(commands)
    ensures |mem| == MEMORY_SIZE
  {
    Load(Zeroed().mem, commands)
  }

  /** In a freshly loaded State, a cell no line is placed at holds 0. */
  lemma ImageUnplaced(commands: seq<Command>, a: int)
    requires Loadable(commands) && 0 <= a < MEMORY_SIZE
    requires forall i :: 0 <= i < |commands| ==> commands[i].address != a
    ensures Image(commands)[a] == 0
  {
    LoadUntouched(Zeroed().mem, commands, a);
  }

  // ------------------------------------------------------------ the object

  /** The mutable machine state of one run. */
  class State {
    const mem: array<int>
    var iar: int
    var accu: int

    ghost predicate Valid()
      reads this
    {
      mem.Length == MEMORY_SIZE
    }

    /** The whole state as a value. */
    function Value(): (s: Snapshot)
      reads this, mem
      ensures s.iar == iar && s.accu == accu && s.mem == mem[..]
    {
      Snapshot(mem[..], iar, accu)
    }

    /** A zeroed state with the program's lines loaded into memory. */
    constructor (commands: seq<Command>)
      requires Loadable(commands)
      ensures Valid() && fresh(mem)
      ensures Value() == Snapshot(Image(commands), 0, 0)
    {
      mem := new int[MEMORY_SIZE](_ => 0);
      iar, accu := 0, 0;
      new;
      assert mem[..] == Zeroed().mem;
      PopulateMemoryFromProgram(commands);
    }

    /** Writes each line's word at its address, in program order. */
    method PopulateMemoryFromProgram(commands: seq<Command>)
      requires Valid() && Loadable(commands)
      modifies mem
      ensures mem[..] == Load(old(mem[..]), commands)
    {
      ghost var base := mem[..];
      for k := 0 to |commands|
        invariant mem[..] == Load(base, commands[..k])
      {
        var command := commands[k];
        assert commands[..k + 1][..k] == commands[..k];
        var adr := command.address;
        var opcode := OpcodeOf(command.instruction.value);
        var arg := command.valueArg;
        mem[adr] := opcode;
        if GroupOf(opcode) != OPCODE_GROUP_MASK {
          mem[adr] := Or(mem[adr], arg);
        }
      }
      assert commands[..|commands|] == commands;
    }

    /** Writes a register or a memory cell. */
    method Set(addr: int, value: int)
      requires Valid() && InRange(addr)
      modifies this, mem
      ensures Valid()
      ensures Value() == old(Value()).Store(addr, value)
    {
      if addr == IAR {
        iar := value;
      } else if addr == ACCU {
        accu := value;
      } else {
        mem[addr] := value;
      }
    }

    /** Reads a register or a memory cell. */
    function Get(addr: int): (v: int)
      reads this, mem
      requires Valid() && InRange(addr)
      ensures v == Value().Lookup(addr)
    {
      if addr == IAR then iar
      else if addr == ACCU then accu
      else mem[addr]
    }
  }
}
