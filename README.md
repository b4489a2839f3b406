# MimaFlux in Dafny

MimaFlux is a time-travel debugger for the Minimal Machine (Mima). The Mima is a
teaching machine with 24-bit words, 20-bit addresses, an accumulator (ACCU) and
an instruction address register (IAR). MimaFlux does four jobs:

- it assembles a Mima program into memory;
- it resolves the labels the program uses;
- it runs the program and records every write as an undoable update, so the
  user can step forwards and backwards through the run;
- it compiles a small while-language to Mima assembly.

The GUI adds breakpoints, bracket highlighting in the editor, and a
hexadecimal byte formatter.

This project models the core of all of that in Dafny and proves properties of
the model:

- **Machine words and encoding.** `Constants`, `Bits`, `Machine` and `Commands`
  cover the constants, Java's bit operations on `int`, the memory and
  registers of a `State`, the opcode tables, loading a program into memory,
  and showing a word as an instruction.
- **Recording and navigation.** `Journal`, `Navigation` and `Recording` cover
  the logged updates, the `Timeline` with its position and its listeners, and
  the `TimelineBuilder`.
- **Running a program.** `Semantics` says what `makeTimeline` computes, as
  functions. `Interpreter` is the imperative loop over the builder, and it is
  proved to commit exactly those steps.
- **Assembling.** `Assembly` and `LabelResolution` cover the assembler's
  address layout (`ProgramVisitor`) and the two passes of `LabelResolver`.
- **Compiling.** `BoundedStacks`, `Compiler`, `CompilerProperties`,
  `CompilerLabels` and `CompilerStack` cover the while-language compiler's
  code emission. The model works over an abstract syntax tree of its own,
  not the parser's.
- **GUI helpers.** `Breakpoints`, `Brackets` and `Hex` cover the breakpoint
  manager, the bracket matching of the editor, and the hex formatter.

Where the Java code updates state in place, the model is a class with methods,
each proved against a specification function. Where the Java code only
computes a value, the model is functions and lemmas.

Java `int` arithmetic is modelled explicitly where it matters:

- `&`, `|`, `^`, `~`, `>>` and `<<` are functions on unbounded integers that
  behave like the two's-complement operators;
- `+` wraps at 32 bits;
- masks are proved equal to Euclidean remainders.

Where the documentation and the code disagree, the model follows the code:

- The class comment of BracketMatchingTextArea.java (lines 55-57) lists `<`
  and `>` as brackets. The constants at lines 85 and 90 do not, and the
  model follows the constants.
- The comment at BreakpointManager.java:70-71 says observers are told of a
  new breakpoint. The code tells them only about one that was already set.
  The model follows the code; see Findings.
- The undo of a step writes the old values in recorded order, not in
  reverse. So a step that writes one location twice is not undone (see
  `Journal.UndoNeedsDistinct`).

## Model

| member | source | states |
|---|---|---|
| Constants.WidthsDetermineMasks | src/main/java/edu/kit/kastel/formal/mimaflux/Constants.java:22-31 | VALUE_RANGE, VALUE_MASK, SIGNBIT, ADDRESS_RANGE and ADDRESS_MASK are the powers of two (minus one) that the widths 24 and 20 define |
| Constants.ValueBits | src/main/java/edu/kit/kastel/formal/mimaflux/Constants.java:24 | masking with VALUE_MASK yields a value in 0..VALUE_MASK |
| Constants.AddressBits | src/main/java/edu/kit/kastel/formal/mimaflux/Constants.java:31 | masking with ADDRESS_MASK yields a memory index in 0..ADDRESS_RANGE-1 |
| Constants.MaskValue | src/main/java/edu/kit/kastel/formal/mimaflux/Constants.java:24 | `w & VALUE_MASK` on a Java int is `w mod 2^24`, also for negative w |
| Constants.MaskAddress | src/main/java/edu/kit/kastel/formal/mimaflux/Constants.java:31 | `w & ADDRESS_MASK` is `w mod 2^20`, always a valid memory index |
| Constants.SignBitIsTopValueBit | src/main/java/edu/kit/kastel/formal/mimaflux/Constants.java:25 | SIGNBIT lies inside VALUE_MASK and is its top bit |
| Constants.AddressFitsValue | src/main/java/edu/kit/kastel/formal/mimaflux/Constants.java:29-31 | every masked address is also a 24-bit value |
| Commands.Command.UpdateArg | src/main/java/edu/kit/kastel/formal/mimaflux/Command.java:8-10 | the copy has the new argument and every other field unchanged |
| Commands.UpdateArgTwice | src/main/java/edu/kit/kastel/formal/mimaflux/Command.java:8-10 | of two updates the second wins |
| Commands.UpdateArgSame | src/main/java/edu/kit/kastel/formal/mimaflux/Command.java:8-10 | updating with the argument already there is the identity |
| Commands.UpdateArgForgetsOldValue | src/main/java/edu/kit/kastel/formal/mimaflux/Command.java:8-10 | the update does not depend on the old argument |
| Machine.Zeroed | src/main/java/edu/kit/kastel/formal/mimaflux/State.java:69-72 | a fresh state has a memory of 2^20 cells, every one 0, and both registers 0 |
| Machine.LookupStore | src/main/java/edu/kit/kastel/formal/mimaflux/State.java:90-104 | `get` after `set` returns the value written, and every other location is unchanged |
| Machine.RegisterWriteKeepsMemory | src/main/java/edu/kit/kastel/formal/mimaflux/State.java:90-96 | writing IAR or ACCU changes no memory cell and not the other register |
| Machine.SnapshotsEqual | src/main/java/edu/kit/kastel/formal/mimaflux/State.java:69-72 | two states that agree on every location `get` accepts are equal |
| Machine.GroupBits | src/main/java/edu/kit/kastel/formal/mimaflux/State.java:126 | `w & 0xf00000` keeps bits 20 to 23 of w in place |
| Machine.ShiftRight20 | src/main/java/edu/kit/kastel/formal/mimaflux/State.java:123 | `w >> 20` is the floor of w / 2^20 |
| Machine.OrdinaryOpcode | src/main/java/edu/kit/kastel/formal/mimaflux/State.java:28-47 | every opcode outside the F group is i * 2^20 with i < 15 |
| Machine.ExtendedOpcode | src/main/java/edu/kit/kastel/formal/mimaflux/State.java:28-67 | HALT, NOT and RAR have top nibble F and the inverse table maps them back |
| Machine.Encode | src/main/java/edu/kit/kastel/formal/mimaflux/State.java:80-86 | no contract of its own; the word `populateMemoryFromProgram` stores for an opcode and argument; EncodeOrdinary, ShiftedOr, EncodeExtended and EncodeUnknown state what it is in each case |
| Machine.EncodeOrdinary | src/main/java/edu/kit/kastel/formal/mimaflux/State.java:78-88 | an ordinary line with an argument inside the address range loads as opcode + argument |
| Machine.ShiftedOr | src/main/java/edu/kit/kastel/formal/mimaflux/State.java:84-86 | or-ing an argument into an ordinary opcode is addition |
| Machine.EncodeExtended | src/main/java/edu/kit/kastel/formal/mimaflux/State.java:84-86 | an F-group line loads as its opcode alone; the argument is dropped |
| Machine.EncodeUnknown | src/main/java/edu/kit/kastel/formal/mimaflux/State.java:81-86 | an unknown mnemonic loads as -1, whatever its argument |
| Machine.DecodeOrdinary | src/main/java/edu/kit/kastel/formal/mimaflux/State.java:122-129 | an ordinary line with opcode op is loaded as op plus its argument, and that word is shown as its mnemonic and argument |
| Machine.InverseTable | src/main/java/edu/kit/kastel/formal/mimaflux/State.java:28-67 | OPCODES and INV_OPCODES are inverse to each other, except for DS |
| Machine.ToInstruction | src/main/java/edu/kit/kastel/formal/mimaflux/State.java:122-129 | no contract of its own; the text shown for a word; DecodeWord, DecodeOrdinary, DecodeDataIsLoadConstant, DecodeExtended, DecodeUnknown and DecodeUnknownExtension state what it shows for each kind of word |
| Machine.DecodeWord | src/main/java/edu/kit/kastel/formal/mimaflux/State.java:125-128 | a word outside the F group is shown as its group's mnemonic and its 20 low bits |
| Machine.DecodeDataIsLoadConstant | src/main/java/edu/kit/kastel/formal/mimaflux/State.java:29-30 | DS shares opcode 0 with LDC, so it loads and shows exactly like LDC |
| Machine.DecodeExtended | src/main/java/edu/kit/kastel/formal/mimaflux/State.java:123-124 | an F-group instruction is shown by its mnemonic alone |
| Machine.DecodeUnknown | src/main/java/edu/kit/kastel/formal/mimaflux/State.java:81-86 | the -1 of an unknown mnemonic is shown as "HALT 1048575" |
| Machine.MinusOneShown | src/main/java/edu/kit/kastel/formal/mimaflux/State.java:122-124 | the word -1 is shown as "HALT 1048575" |
| Machine.DecodeUnknownExtension | src/main/java/edu/kit/kastel/formal/mimaflux/State.java:123-124 | an F-group word not in the table is shown as "???" |
| Machine.LineWord | src/main/java/edu/kit/kastel/formal/mimaflux/State.java:79-86 | no contract of its own; the word one program line is loaded as, its mnemonic looked up with -1 as the default; LoadLastWins says the cell at the line's address ends up holding it |
| Machine.Load | src/main/java/edu/kit/kastel/formal/mimaflux/State.java:78-88 | loading keeps the memory size |
| Machine.LoadUntouched | src/main/java/edu/kit/kastel/formal/mimaflux/State.java:78-88 | a cell that no line is placed at keeps its old content |
| Machine.LoadLastWins | src/main/java/edu/kit/kastel/formal/mimaflux/State.java:78-88 | the last line placed at an address decides that cell's content |
| Machine.Image | src/main/java/edu/kit/kastel/formal/mimaflux/State.java:74-76 | the loaded memory has 2^20 cells |
| Machine.ImageUnplaced | src/main/java/edu/kit/kastel/formal/mimaflux/State.java:69-86 | in a freshly loaded state, a cell no program line is placed at holds 0 |
| Machine.State.constructor | src/main/java/edu/kit/kastel/formal/mimaflux/State.java:74-76 | a new state is the zeroed memory with the program loaded, and both registers are 0 |
| Machine.State.PopulateMemoryFromProgram | src/main/java/edu/kit/kastel/formal/mimaflux/State.java:78-88 | the loop leaves memory equal to `Load` of the old memory and the lines |
| Machine.State.Set | src/main/java/edu/kit/kastel/formal/mimaflux/State.java:90-96 | the new state is the old one with exactly that location written |
| Machine.State.Get | src/main/java/edu/kit/kastel/formal/mimaflux/State.java:98-104 | the value is the register or the memory cell of the state |
| Text.NatToString | src/main/java/edu/kit/kastel/formal/mimaflux/State.java:127 | the decimal rendering is a non-empty string of digits |
| Text.DecimalRoundTrip | src/main/java/edu/kit/kastel/formal/mimaflux/State.java:127 | reading back the decimal rendering gives the number |
| Text.NatToStringInjective | src/main/java/edu/kit/kastel/formal/mimaflux/pl/CompilerVisitor.java:221-222 | different numbers are rendered differently, so label names "L" + n differ |
| Journal.Replay | src/main/java/edu/kit/kastel/formal/mimaflux/Timeline.java:76-81 | replaying whole steps keeps the memory size; SeekReaches and SeekThereAndBack state that seeking reaches the replayed state of the target, and RecordedSnoc how a committed step extends the replay |
| Journal.StoreAllAppend | src/main/java/edu/kit/kastel/formal/mimaflux/Timeline.java:26-34 | performing two lists of writes in a row is performing their concatenation |
| Journal.StoreAllUntouched | src/main/java/edu/kit/kastel/formal/mimaflux/Timeline.java:26-34 | a location none of the writes names keeps its value |
| Journal.StoreAllWritten | src/main/java/edu/kit/kastel/formal/mimaflux/Timeline.java:26-34 | a location written for the last time by write i holds write i's value |
| Journal.RecordReplays | src/main/java/edu/kit/kastel/formal/mimaflux/TimelineBuilder.java:41-45 | the new values of the logged updates are exactly the writes performed |
| Journal.RecordIsConsistent | src/main/java/edu/kit/kastel/formal/mimaflux/TimelineBuilder.java:41-45 | every logged old value is what the location held just before its write |
| Journal.RecordOldValue | src/main/java/edu/kit/kastel/formal/mimaflux/TimelineBuilder.java:42-43 | the old value of update i is the value after the first i writes |
| Journal.ConsistentOldValue | src/main/java/edu/kit/kastel/formal/mimaflux/Timeline.java:69-74 | in a step that writes distinct locations every old value is the value before the step |
| Journal.UndoRestores | src/main/java/edu/kit/kastel/formal/mimaflux/Timeline.java:69-81 | replaying a step that writes distinct locations and then writing its old values back restores the state |
| Journal.UndoNeedsDistinct | src/main/java/edu/kit/kastel/formal/mimaflux/Timeline.java:69-74 | when a step writes cell 0 first with 1 and then with 2, going back leaves 1 in it, not 0 |
| Journal.SeekWrites | src/main/java/edu/kit/kastel/formal/mimaflux/Timeline.java:54-81 | no contract of its own; the writes `setPosition` performs: the new values of each step passed going forwards, the old values going backwards; SeekReaches, SeekThereAndBack, SeekWritesLocations, SeekKeepsOtherLocations and SeekInPlace state its properties, and Navigation.Timeline.SetPosition is proved to perform exactly these writes |
| Journal.StepBack | src/main/java/edu/kit/kastel/formal/mimaflux/Timeline.java:69-74 | for a recorded, undoable log, writing back the old values of step k leads from the state after k + 1 steps to the state after k steps |
| Journal.SeekReaches | src/main/java/edu/kit/kastel/formal/mimaflux/Timeline.java:54-81 | seeking from the state of one position reaches the state of the target position, forwards and backwards |
| Journal.SeekForwardReaches | src/main/java/edu/kit/kastel/formal/mimaflux/Timeline.java:76-81 | seeking forwards, writing the new values of the steps in between, leads from the state at one position to the state at a later one |
| Journal.SeekBackwardReaches | src/main/java/edu/kit/kastel/formal/mimaflux/Timeline.java:63-74 | seeking backwards, writing back the old values of the steps in between, leads to the state at an earlier position, whenever each of those steps is undone by its old values |
| Journal.SeekThereAndBack | src/main/java/edu/kit/kastel/formal/mimaflux/Timeline.java:54-81 | going from k to j and back to k restores the state at k |
| Journal.SeekWritesLocations | src/main/java/edu/kit/kastel/formal/mimaflux/Timeline.java:54-81 | every write of a seek names a location of a step between the two positions |
| Journal.SeekKeepsOtherLocations | src/main/java/edu/kit/kastel/formal/mimaflux/Timeline.java:54-81 | a location that no traversed step names keeps its value during a seek |
| Journal.SeekInPlace | src/main/java/edu/kit/kastel/formal/mimaflux/Timeline.java:56-66 | seeking to the current position writes nothing |
| Journal.RecordedSnoc | src/main/java/edu/kit/kastel/formal/mimaflux/TimelineBuilder.java:47-50 | committing a consistent pending step keeps the whole log replayable from the start |
| Navigation.Broadcast | src/main/java/edu/kit/kastel/formal/mimaflux/Timeline.java:31-33 | one write calls every listener once, in registration order, with the address and the value |
| Navigation.NotificationsAppend | src/main/java/edu/kit/kastel/formal/mimaflux/Timeline.java:26-34 | the listener calls of two lists of writes are the calls of each, in order |
| Navigation.NotificationsName | src/main/java/edu/kit/kastel/formal/mimaflux/Timeline.java:31-33 | every listener call names a registered listener and a write that was made |
| Navigation.Timeline.constructor | src/main/java/edu/kit/kastel/formal/mimaflux/Timeline.java:20-24 | a timeline over the given steps starts at position 0, with no pending updates and no listeners, and shows the given state |
| Navigation.Timeline.Set | src/main/java/edu/kit/kastel/formal/mimaflux/Timeline.java:26-34 | the location is written, (addr, old value, new value) is logged as pending, and every listener is called once |
| Navigation.Timeline.IncIAR | src/main/java/edu/kit/kastel/formal/mimaflux/Timeline.java:36-38 | IAR becomes (IAR + 1) mod 2^20, logged and broadcast like any write |
| Navigation.Timeline.Commit | src/main/java/edu/kit/kastel/formal/mimaflux/Timeline.java:40-44 | the pending updates become the last step, the pending list empties and the position moves on by one |
| Navigation.Timeline.AddListener | src/main/java/edu/kit/kastel/formal/mimaflux/Timeline.java:50-52 | the listener is appended; nothing else changes |
| Navigation.Timeline.WriteAll | src/main/java/edu/kit/kastel/formal/mimaflux/Timeline.java:71-78 | writing a list through `set` gives the state, pending log and listener calls of the whole list |
| Navigation.Timeline.IncrementPosition | src/main/java/edu/kit/kastel/formal/mimaflux/Timeline.java:76-81 | the step at the position is replayed with its new values, and the position goes up by one |
| Navigation.Timeline.DecrementPosition | src/main/java/edu/kit/kastel/formal/mimaflux/Timeline.java:69-74 | the position goes down by one, and the old values of that step are written in recorded order |
| Navigation.Timeline.SetPosition | src/main/java/edu/kit/kastel/formal/mimaflux/Timeline.java:54-67 | the position becomes min(size, position), the writes are those of the seek between the two positions, and a timeline in sync with its log stays in sync |
| Navigation.Timeline.MoveForwardTo | src/main/java/edu/kit/kastel/formal/mimaflux/Timeline.java:58-61 | the forward loop reaches the target having made the seek's writes |
| Navigation.Timeline.MoveBackTo | src/main/java/edu/kit/kastel/formal/mimaflux/Timeline.java:62-66 | the backward loop reaches the target having made the seek's writes |
| Navigation.Timeline.GetPosition | src/main/java/edu/kit/kastel/formal/mimaflux/Timeline.java:83-85 | the current position |
| Navigation.Timeline.Size | src/main/java/edu/kit/kastel/formal/mimaflux/Timeline.java:87-89 | the number of committed steps |
| Recording.Initial | src/main/java/edu/kit/kastel/formal/mimaflux/TimelineBuilder.java:36-38 | the start state is the loaded program with ACCU 0 and IAR at the address of START, or 0 without START |
| Recording.NewInitialState | src/main/java/edu/kit/kastel/formal/mimaflux/TimelineBuilder.java:36-38 | a fresh State holding exactly that start state |
| Recording.TimelineBuilder.constructor | src/main/java/edu/kit/kastel/formal/mimaflux/TimelineBuilder.java:32-39 | the builder holds the loaded program with IAR at START, and nothing is logged |
| Recording.TimelineBuilder.Set | src/main/java/edu/kit/kastel/formal/mimaflux/TimelineBuilder.java:41-45 | the location is written and (addr, old value, new value) is logged as pending |
| Recording.TimelineBuilder.Commit | src/main/java/edu/kit/kastel/formal/mimaflux/TimelineBuilder.java:47-50 | the pending updates become the last step, and the pending list empties |
| Recording.TimelineBuilder.IncIAR | src/main/java/edu/kit/kastel/formal/mimaflux/TimelineBuilder.java:52-54 | IAR becomes (IAR + 1) mod 2^20, as one logged write |
| Recording.TimelineBuilder.Size | src/main/java/edu/kit/kastel/formal/mimaflux/TimelineBuilder.java:56-58 | the number of committed steps |
| Recording.TimelineBuilder.Build | src/main/java/edu/kit/kastel/formal/mimaflux/TimelineBuilder.java:64-67 | the timeline has the committed steps in commit order and is at position 0 over a fresh start state, and its log replays from that start |
| Semantics.Execute | src/main/java/edu/kit/kastel/formal/mimaflux/Interpreter.java:88 | the fetch fails exactly when IAR is outside the memory, with that index |
| Semantics.Loop | src/main/java/edu/kit/kastel/formal/mimaflux/Interpreter.java:87-151 | the loop only appends steps, and never commits more than maxSteps |
| Semantics.FirstOutside | src/main/java/edu/kit/kastel/formal/mimaflux/Interpreter.java:76-79 | the first address that `set` rejects, or none when it accepts them all |
| Semantics.Run | src/main/java/edu/kit/kastel/formal/mimaflux/Interpreter.java:71-155 | a run records at most max(maxSteps, 0) steps |
| Semantics.RunLoops | src/main/java/edu/kit/kastel/formal/mimaflux/Interpreter.java:73-87 | a run that does not fault is the loop started from the preset state, with the presets logged as pending |
| Semantics.Decode | src/main/java/edu/kit/kastel/formal/mimaflux/Interpreter.java:90-145 | no contract of its own; the writes one instruction performs, or that the run stops; DecodeWrites, DecodeFields, EqlResult, AluStoresValue, JmnTestsSignBit, NotFlipsValue and RarRotates state its properties, and Interpreter.Dispatch is proved to perform exactly these writes |
| Semantics.DecodeWrites | src/main/java/edu/kit/kastel/formal/mimaflux/Interpreter.java:92-145 | an instruction writes one or two different locations, all of which `get` and `set` accept |
| Semantics.DecodeFields | src/main/java/edu/kit/kastel/formal/mimaflux/Interpreter.java:88-90 | the argument is the 20 low bits of the fetched word, and the opcode is the word divided by 2^20 |
| Semantics.AddKeepsLowBits | src/main/java/edu/kit/kastel/formal/mimaflux/Interpreter.java:96 | ADD stores the true sum modulo 2^24; the 32-bit wrap of Java's `+` does not show |
| Semantics.EqlResult | src/main/java/edu/kit/kastel/formal/mimaflux/Interpreter.java:100 | EQL stores 24 one-bits for equal operands, and 0 otherwise |
| Semantics.AluStoresValue | src/main/java/edu/kit/kastel/formal/mimaflux/Interpreter.java:157-164 | the arithmetic opcodes write a 24-bit value to ACCU and then advance IAR |
| Semantics.SignBitTest | src/main/java/edu/kit/kastel/formal/mimaflux/Interpreter.java:103 | `a & SIGNBIT` is bit 23 of a, in place |
| Semantics.JmnTestsSignBit | src/main/java/edu/kit/kastel/formal/mimaflux/Interpreter.java:102-108 | JMN jumps exactly when bit 23 of ACCU is set, and otherwise advances IAR |
| Semantics.NotFlipsValue | src/main/java/edu/kit/kastel/formal/mimaflux/Interpreter.java:131-134 | NOT on a 24-bit value flips its 24 bits |
| Semantics.NotTwice | src/main/java/edu/kit/kastel/formal/mimaflux/Interpreter.java:131-134 | two NOTs give a 24-bit value back |
| Semantics.RarRotates | src/main/java/edu/kit/kastel/formal/mimaflux/Interpreter.java:135-140 | RAR on a 24-bit value rotates it right by one bit within the 24 bits |
| Semantics.LoopFirstStep | src/main/java/edu/kit/kastel/formal/mimaflux/Interpreter.java:146 | the pending updates are the head of the first committed step |
| Semantics.PresetsInFirstStep | src/main/java/edu/kit/kastel/formal/mimaflux/Interpreter.java:76-79 | the presets are logged first, as the head of step 0, with their old values |
| Semantics.LoopRecorded | src/main/java/edu/kit/kastel/formal/mimaflux/Interpreter.java:87-151 | every step the loop commits replays from the state its predecessors reach |
| Semantics.RunRecorded | src/main/java/edu/kit/kastel/formal/mimaflux/Interpreter.java:71-155 | a run's steps replay from the initial state |
| Semantics.LoopInRange | src/main/java/edu/kit/kastel/formal/mimaflux/Interpreter.java:87-151 | every committed step names only locations the state has |
| Semantics.RunInRange | src/main/java/edu/kit/kastel/formal/mimaflux/Interpreter.java:71-155 | every step of a run names only locations the state has, so the timeline can move to any position |
| Semantics.LoopDistinct | src/main/java/edu/kit/kastel/formal/mimaflux/Interpreter.java:87-151 | without pending updates every committed step writes distinct locations |
| Semantics.RunUndoable | src/main/java/edu/kit/kastel/formal/mimaflux/Interpreter.java:71-155 | a run without presets can be walked both ways: every step can be undone |
| Semantics.LoopProceeds | src/main/java/edu/kit/kastel/formal/mimaflux/Interpreter.java:87-151 | below the bound, an instruction that proceeds commits one step, and the loop goes on from the new state |
| Semantics.LoopCommitsFirst | src/main/java/edu/kit/kastel/formal/mimaflux/Interpreter.java:87-146 | with maxSteps >= 1, step 0 is the pending updates followed by the first instruction's writes |
| Semantics.PresetClash | src/main/java/edu/kit/kastel/formal/mimaflux/Interpreter.java:76-79 | a preset to a location that the first instruction also writes puts that location twice into step 0, so step 0 cannot be undone |
| Interpreter.SetOne | src/main/java/edu/kit/kastel/formal/mimaflux/Interpreter.java:101 | one `set` through the builder is one logged write |
| Interpreter.SetTwo | src/main/java/edu/kit/kastel/formal/mimaflux/Interpreter.java:122-123 | two `set`s in a row: the second sees the first one's write |
| Interpreter.SetAndAdvance | src/main/java/edu/kit/kastel/formal/mimaflux/Interpreter.java:93-95 | a `set` followed by `incIAR`: the two logged writes |
| Interpreter.Op | src/main/java/edu/kit/kastel/formal/mimaflux/Interpreter.java:157-164 | ACCU becomes f(ACCU, mem[arg]) masked to 24 bits, then IAR advances |
| Interpreter.Dispatch | src/main/java/edu/kit/kastel/formal/mimaflux/Interpreter.java:92-145 | the switch stops exactly where the instruction's semantics stops, and otherwise makes exactly its writes |
| Interpreter.Ldc | src/main/java/edu/kit/kastel/formal/mimaflux/Interpreter.java:93 | LDC makes the writes its semantics gives |
| Interpreter.Ldv | src/main/java/edu/kit/kastel/formal/mimaflux/Interpreter.java:94 | LDV makes the writes its semantics gives |
| Interpreter.Stv | src/main/java/edu/kit/kastel/formal/mimaflux/Interpreter.java:95 | STV makes the writes its semantics gives |
| Interpreter.Arith | src/main/java/edu/kit/kastel/formal/mimaflux/Interpreter.java:96-100 | ADD, AND, OR, XOR and EQL make the writes their semantics gives |
| Interpreter.Jmp | src/main/java/edu/kit/kastel/formal/mimaflux/Interpreter.java:101 | JMP makes the write its semantics gives |
| Interpreter.Jmn | src/main/java/edu/kit/kastel/formal/mimaflux/Interpreter.java:102-108 | JMN makes the write its semantics gives |
| Interpreter.Ldiv | src/main/java/edu/kit/kastel/formal/mimaflux/Interpreter.java:109-115 | LDIV makes the writes its semantics gives |
| Interpreter.Stiv | src/main/java/edu/kit/kastel/formal/mimaflux/Interpreter.java:116-120 | STIV makes the writes its semantics gives |
| Interpreter.Jms | src/main/java/edu/kit/kastel/formal/mimaflux/Interpreter.java:121-124 | JMS makes the writes its semantics gives |
| Interpreter.Jind | src/main/java/edu/kit/kastel/formal/mimaflux/Interpreter.java:125-127 | JIND makes the write its semantics gives |
| Interpreter.Extended | src/main/java/edu/kit/kastel/formal/mimaflux/Interpreter.java:129-143 | the F group stops unless the argument is 0x10000 (NOT) or 0x20000 (RAR), which make their writes |
| Interpreter.SetNext | src/main/java/edu/kit/kastel/formal/mimaflux/Interpreter.java:76-79 | writing entry i after entries 0 to i - 1 extends the performed writes, in the state and in the pending log, to entries 0 to i |
| Interpreter.WritePresets | src/main/java/edu/kit/kastel/formal/mimaflux/Interpreter.java:76-79 | the presets are written in order as pending updates, or the first address `set` rejects is the fault |
| Interpreter.Interpret | src/main/java/edu/kit/kastel/formal/mimaflux/Interpreter.java:87-151 | the loop commits exactly the steps of `Loop`, or faults where `Loop` faults |
| Interpreter.MakeTimeline | src/main/java/edu/kit/kastel/formal/mimaflux/Interpreter.java:71-155 | the built timeline's steps are exactly those of `Run`, at position 0 over the start state; a fault of `Run` is returned as the error |
| LabelResolution.Collect | src/main/java/edu/kit/kastel/formal/mimaflux/LabelResolver.java:29-43 | pass 1 builds the label map, or fails at the first redefinition |
| LabelResolution.Substitute | src/main/java/edu/kit/kastel/formal/mimaflux/LabelResolver.java:45-56 | pass 2 resolves every line in order, or fails at the first unknown label |
| LabelResolution.LabelResolver.constructor | src/main/java/edu/kit/kastel/formal/mimaflux/LabelResolver.java:24-25 | no labels are known before the first `resolve` |
| LabelResolution.LabelResolver.Resolve | src/main/java/edu/kit/kastel/formal/mimaflux/LabelResolver.java:27-57 | the result is `Resolution` of the lines, and on success the label map is pass 1's map |
| LabelResolution.LabelResolver.RecordLabels | src/main/java/edu/kit/kastel/formal/mimaflux/LabelResolver.java:29-43 | pass 1 keeps the lines with an instruction and records every label, or throws at the first redefinition |
| LabelResolution.LabelResolver.SubstituteLabels | src/main/java/edu/kit/kastel/formal/mimaflux/LabelResolver.java:45-56 | pass 2 computes exactly `Substitute` |
| LabelResolution.CollectErrPersists | src/main/java/edu/kit/kastel/formal/mimaflux/LabelResolver.java:33-36 | once pass 1 fails on a prefix, it fails with that error on the whole list |
| LabelResolution.SubstituteErrPersists | src/main/java/edu/kit/kastel/formal/mimaflux/LabelResolver.java:50-52 | once pass 2 fails on a prefix, it fails with that error on the whole list |
| LabelResolution.CollectMap | src/main/java/edu/kit/kastel/formal/mimaflux/LabelResolver.java:37 | a successful pass 1 maps exactly the defined labels, each to the address of its defining line |
| LabelResolution.CollectFails | src/main/java/edu/kit/kastel/formal/mimaflux/LabelResolver.java:32-37 | pass 1 fails exactly when two lines define the same label, and then names such a label |
| LabelResolution.KeptAppend | src/main/java/edu/kit/kastel/formal/mimaflux/LabelResolver.java:39-42 | the lines kept from a concatenation are the concatenation of the lines kept |
| LabelResolution.KeptMembers | src/main/java/edu/kit/kastel/formal/mimaflux/LabelResolver.java:39-42 | pass 1 keeps exactly the lines that carry an instruction, and never more lines than it got |
| LabelResolution.KeptAll | src/main/java/edu/kit/kastel/formal/mimaflux/LabelResolver.java:39-42 | a list without label-only lines passes pass 1 unchanged |
| LabelResolution.SubstituteCorrect | src/main/java/edu/kit/kastel/formal/mimaflux/LabelResolver.java:45-56 | pass 2 fails exactly when a line names a label the map lacks, and then names that label; otherwise each line is replaced by its resolved form in place |
| LabelResolution.Resolution | src/main/java/edu/kit/kastel/formal/mimaflux/LabelResolver.java:27-57 | no contract of its own; both passes of `resolve`, the first error ending them; ResolutionLines and ResolutionSucceeds state what it yields and when it fails, and LabelResolver.Resolve is proved to compute it |
| LabelResolution.ResolutionLines | src/main/java/edu/kit/kastel/formal/mimaflux/LabelResolver.java:27-57 | `resolve` leaves the lines with an instruction, in order; a label argument becomes that label's address, and nothing else about a line changes |
| LabelResolution.ResolutionSucceeds | src/main/java/edu/kit/kastel/formal/mimaflux/LabelResolver.java:27-57 | `resolve` succeeds exactly when no label is defined twice and every label used is defined somewhere, before or after its use |
| LabelResolution.ForwardReference | src/main/java/edu/kit/kastel/formal/mimaflux/LabelResolver.java:27-57 | a label defined only further down resolves to the later line's address |
| Assembly.Visit | src/main/java/edu/kit/kastel/formal/mimaflux/ProgramVisitor.java:16-50 | no contract of its own; one visit: an address specification moves the current address or fails, a line is appended at it; WalkFails, WalkLines and Consecutive state its effect over a whole walk |
| Assembly.Walk | src/main/java/edu/kit/kastel/formal/mimaflux/ProgramVisitor.java:16-50 | no contract of its own; all visits in order, stopping at the first failure; WalkErrPersists, WalkAppend, WalkFails, WalkLines, Consecutive and PastLastCell state its properties, and ProgramVisitor.VisitAll is proved to compute it |
| Assembly.Lines | src/main/java/edu/kit/kastel/formal/mimaflux/ProgramVisitor.java:25-50 | the program lines among the events, in order |
| Assembly.ProgramVisitor.constructor | src/main/java/edu/kit/kastel/formal/mimaflux/ProgramVisitor.java:11-13 | nothing is emitted, and the current address is 0 |
| Assembly.ProgramVisitor.VisitAdrSpec | src/main/java/edu/kit/kastel/formal/mimaflux/ProgramVisitor.java:16-22 | the number becomes the current address before it is checked; the error is "Address out of range" when it is at least ADDRESS_MASK |
| Assembly.ProgramVisitor.VisitCommand | src/main/java/edu/kit/kastel/formal/mimaflux/ProgramVisitor.java:25-50 | the line is appended at the current address, and the address goes up by one, unchecked |
| Assembly.ProgramVisitor.VisitAll | src/main/java/edu/kit/kastel/formal/mimaflux/ProgramVisitor.java:16-50 | walking the file gives the layout of `Walk`, or its error |
| Assembly.WalkErrPersists | src/main/java/edu/kit/kastel/formal/mimaflux/ProgramVisitor.java:18-20 | once the walk fails on a prefix, it fails with that error on the whole file |
| Assembly.WalkAppend | src/main/java/edu/kit/kastel/formal/mimaflux/ProgramVisitor.java:16-50 | walking two parts is walking the second from where the first left off |
| Assembly.WalkFails | src/main/java/edu/kit/kastel/formal/mimaflux/ProgramVisitor.java:16-22 | the walk fails exactly when an address specification is at least ADDRESS_MASK |
| Assembly.WalkLines | src/main/java/edu/kit/kastel/formal/mimaflux/ProgramVisitor.java:25-50 | one command per program line, in order, with that line's label, mnemonic and label argument, and 0 for a missing number |
| Assembly.Consecutive | src/main/java/edu/kit/kastel/formal/mimaflux/ProgramVisitor.java:47-48 | lines between address specifications get consecutive addresses |
| Assembly.PastLastCell | src/main/java/edu/kit/kastel/formal/mimaflux/ProgramVisitor.java:17-49 | after the highest accepted address specification, the third line lands at 2^20, one past the last memory cell |
| BoundedStacks.BoundedStack.constructor | src/main/java/edu/kit/kastel/formal/mimaflux/pl/BoundedStack.java:7-10 | a new stack has the given bound and pointer 0 |
| BoundedStacks.BoundedStack.Current | src/main/java/edu/kit/kastel/formal/mimaflux/pl/BoundedStack.java:26-31 | the cell `offset` above the pointer is "X" + (pointer + offset) when that is below the bound, and otherwise the overflow error |
| BoundedStacks.BoundedStack.Inc | src/main/java/edu/kit/kastel/formal/mimaflux/pl/BoundedStack.java:16-19 | the pointer goes up by one, and the result names the new top |
| BoundedStacks.BoundedStack.Dec | src/main/java/edu/kit/kastel/formal/mimaflux/pl/BoundedStack.java:21-24 | the pointer goes down by one, and it must not go below 0 |
| BoundedStacks.SlotNamesDiffer | src/main/java/edu/kit/kastel/formal/mimaflux/pl/BoundedStack.java:30 | different depths name different cells |
| BoundedStacks.IncDec | src/main/java/edu/kit/kastel/formal/mimaflux/pl/BoundedStack.java:16-24 | a push followed by a pop restores the pointer, and while pushed the top is the cell above the old one |
| Compiler.IndexOf | src/main/java/edu/kit/kastel/formal/mimaflux/pl/CompilerVisitor.java:263 | `List.indexOf`: -1 exactly when absent, and otherwise the first position of the name |
| Compiler.CompilerVisitor.constructor | src/main/java/edu/kit/kastel/formal/mimaflux/pl/CompilerVisitor.java:29-37 | no lines, no locals, no globals, label counter 0, and a stack bounded by 10 at pointer 0 |
| Compiler.CompilerVisitor.Emit | src/main/java/edu/kit/kastel/formal/mimaflux/pl/CompilerVisitor.java:305-307 | one line is appended |
| Compiler.CompilerVisitor.EmitComment | src/main/java/edu/kit/kastel/formal/mimaflux/pl/CompilerVisitor.java:309-316 | the lines of `CommentLines` are appended |
| Compiler.CompilerVisitor.EmitCommentStm | src/main/java/edu/kit/kastel/formal/mimaflux/pl/CompilerVisitor.java:318-320 | the statement comment is appended |
| Compiler.CompilerVisitor.LoadVar | src/main/java/edu/kit/kastel/formal/mimaflux/pl/CompilerVisitor.java:281-295 | the lines are those of `LoadVarCode`: a local is read through SP + index + 1, and any other name directly, reported when unknown |
| Compiler.CompilerVisitor.StoreVar | src/main/java/edu/kit/kastel/formal/mimaflux/pl/CompilerVisitor.java:262-279 | the lines are those of `StoreVarCode` |
| Compiler.CompilerVisitor.VisitExpr | src/main/java/edu/kit/kastel/formal/mimaflux/pl/CompilerVisitor.java:121-180 | an expression's visit emits exactly `ExprCode` and leaves the stack pointer where it was |
| Compiler.CompilerVisitor.VisitUnExp | src/main/java/edu/kit/kastel/formal/mimaflux/pl/CompilerVisitor.java:133-148 | the visit emits `UnCode`: "~" is NOT, "*" is RAR, and "-" leaves the operand's code followed by NOT, STV of the cell at the pointer, LDC 1 and ADD of that cell, and then fails with "Unknown" |
| Compiler.CompilerVisitor.VisitBinExp | src/main/java/edu/kit/kastel/formal/mimaflux/pl/CompilerVisitor.java:150-166 | the visit emits `BinCode` and restores the pointer |
| Compiler.CompilerVisitor.VisitArrayExp | src/main/java/edu/kit/kastel/formal/mimaflux/pl/CompilerVisitor.java:168-180 | the visit emits `ArrayCode` and restores the pointer |
| Compiler.CompilerVisitor.VisitStmt | src/main/java/edu/kit/kastel/formal/mimaflux/pl/CompilerVisitor.java:98-258 | a statement's visit emits exactly `StmtCode` |
| Compiler.CompilerVisitor.VisitHaltStm | src/main/java/edu/kit/kastel/formal/mimaflux/pl/CompilerVisitor.java:98-103 | the statement comment, then HALT |
| Compiler.CompilerVisitor.VisitReturnStm | src/main/java/edu/kit/kastel/formal/mimaflux/pl/CompilerVisitor.java:105-119 | the visit emits `ReturnCode` |
| Compiler.CompilerVisitor.VisitAssignStm | src/main/java/edu/kit/kastel/formal/mimaflux/pl/CompilerVisitor.java:182-188 | the expression's code, then the store to the target |
| Compiler.CompilerVisitor.VisitIf0Stm | src/main/java/edu/kit/kastel/formal/mimaflux/pl/CompilerVisitor.java:190-196 | the condition's code, then the two branches |
| Compiler.CompilerVisitor.VisitIfCmpStm | src/main/java/edu/kit/kastel/formal/mimaflux/pl/CompilerVisitor.java:198-218 | the visit emits `IfCmpCode` |
| Compiler.CompilerVisitor.VisitCondition | src/main/java/edu/kit/kastel/formal/mimaflux/pl/CompilerVisitor.java:199-215 | the visit emits `CondCode`: the first operand is parked one above the pointer, then the comparison |
| Compiler.CompilerVisitor.VisitIfJmn | src/main/java/edu/kit/kastel/formal/mimaflux/pl/CompilerVisitor.java:220-229 | two fresh labels, the else block, then the then block, as `IfJmnCode` |
| Compiler.CompilerVisitor.VisitWhileStm | src/main/java/edu/kit/kastel/formal/mimaflux/pl/CompilerVisitor.java:231-258 | the visit emits `WhileCode`: the loop label, the condition against X0, the exit test, the body and the jump back |
| Compiler.CompilerVisitor.VisitBlock | src/main/java/edu/kit/kastel/formal/mimaflux/pl/CompilerVisitor.java:224-227 | the statements in order; the first failure ends the block |
| Compiler.CompilerVisitor.VisitFunction | src/main/java/edu/kit/kastel/formal/mimaflux/pl/CompilerVisitor.java:76-96 | the locals become the arguments followed by the declared locals, and the visit emits `FunctionCode` |
| Compiler.CompilerVisitor.EmitPrologue | src/main/java/edu/kit/kastel/formal/mimaflux/pl/CompilerVisitor.java:41-45 | the SP cell, then the cells X0 to X10 |
| Compiler.CompilerVisitor.VisitGlobals | src/main/java/edu/kit/kastel/formal/mimaflux/pl/CompilerVisitor.java:47-63 | the globals' declarations and the count of global cells, as `GlobalsCode` |
| Compiler.CompilerVisitor.VisitFunctions | src/main/java/edu/kit/kastel/formal/mimaflux/pl/CompilerVisitor.java:69-71 | the functions in order; the first failure ends the file |
| Compiler.CompilerVisitor.VisitFile | src/main/java/edu/kit/kastel/formal/mimaflux/pl/CompilerVisitor.java:39-74 | the whole file's lines are `FileCode`: prologue, globals, the start code, then the functions |
| Compiler.LoadVarCode | src/main/java/edu/kit/kastel/formal/mimaflux/pl/CompilerVisitor.java:281-295 | no contract of its own; the lines `loadVar` emits; CompilerStack.UnknownReported and CompilerStack.NoGlobalsKnown state what it reports, and CompilerVisitor.LoadVar is proved to emit it |
| Compiler.StoreVarCode | src/main/java/edu/kit/kastel/formal/mimaflux/pl/CompilerVisitor.java:262-279 | no contract of its own; the lines `storeVar` emits; CompilerStack.UnknownReported and CompilerStack.NoGlobalsKnown state what it reports, and CompilerVisitor.StoreVar is proved to emit it |
| Compiler.ExprCode | src/main/java/edu/kit/kastel/formal/mimaflux/pl/CompilerVisitor.java:121-180 | no contract of its own; the code of an expression; CompilerLabels.ExprCodeOnly states that it adds only lines, and CompilerVisitor.VisitExpr is proved to emit it |
| Compiler.UnCode | src/main/java/edu/kit/kastel/formal/mimaflux/pl/CompilerVisitor.java:133-148 | no contract of its own; the code of a unary expression; CompilerStack.UnaryOutcome states when it compiles and that "-" fails |
| Compiler.BinCode | src/main/java/edu/kit/kastel/formal/mimaflux/pl/CompilerVisitor.java:150-166 | no contract of its own; the code of a binary expression; CompilerStack.BinSameSlot states which cell it parks in and operates on |
| Compiler.ArrayCode | src/main/java/edu/kit/kastel/formal/mimaflux/pl/CompilerVisitor.java:168-180 | no contract of its own; the code of an array read; CompilerLabels.ExprCodeOnly states that it adds only lines |
| Compiler.StmtCode | src/main/java/edu/kit/kastel/formal/mimaflux/pl/CompilerVisitor.java:98-258 | no contract of its own; the code of a statement; CompilerLabels.StmtPlaces states how it moves the label counter and places labels |
| Compiler.ReturnCode | src/main/java/edu/kit/kastel/formal/mimaflux/pl/CompilerVisitor.java:105-119 | no contract of its own; the code of a return statement; CompilerLabels.StmtPlaces states that it places no label |
| Compiler.IfCmpCode | src/main/java/edu/kit/kastel/formal/mimaflux/pl/CompilerVisitor.java:198-218 | no contract of its own; the code of an `if` with an operator; CompilerStack.IfCmpSameCell and CompilerLabels.StmtPlaces state its properties |
| Compiler.CondCode | src/main/java/edu/kit/kastel/formal/mimaflux/pl/CompilerVisitor.java:199-215 | no contract of its own; the code of a condition; CompilerStack.CondCells and CompilerLabels.CondCodeOnly state its properties |
| Compiler.IfJmnCode | src/main/java/edu/kit/kastel/formal/mimaflux/pl/CompilerVisitor.java:220-229 | no contract of its own; the two branches of an `if`; CompilerLabels.IfJmnPlaces states the labels it places |
| Compiler.WhileCode | src/main/java/edu/kit/kastel/formal/mimaflux/pl/CompilerVisitor.java:231-258 | no contract of its own; the code of a `while` as written; CompilerLabels.WhilePlaces and CompilerStack.WhileComparesX0 state its properties |
| Compiler.BlockCode | src/main/java/edu/kit/kastel/formal/mimaflux/pl/CompilerVisitor.java:224-227 | no contract of its own; the statements of a block in order; BlockErrPersists, CompilerLabels.BlockPlaces and CompilerLabels.BlockLabelsOnce state its properties |
| Compiler.FunctionCode | src/main/java/edu/kit/kastel/formal/mimaflux/pl/CompilerVisitor.java:76-96 | no contract of its own; the code of a function; CompilerVisitor.VisitFunction is proved to emit it |
| Compiler.FunctionsCode | src/main/java/edu/kit/kastel/formal/mimaflux/pl/CompilerVisitor.java:69-71 | no contract of its own; the functions in order; FunctionsErrPersists states that the first failure ends them |
| Compiler.GlobalsCode | src/main/java/edu/kit/kastel/formal/mimaflux/pl/CompilerVisitor.java:47-63 | no contract of its own; the globals' declarations with the running cell count; CompilerProperties.GlobalsCount and CompilerProperties.TotalCellsAppend state its properties |
| Compiler.Prologue | src/main/java/edu/kit/kastel/formal/mimaflux/pl/CompilerVisitor.java:41-45 | no contract of its own; the stack pointer cell and the scratch cells; CompilerProperties.PrologueCells, StackCellsNamed and SlotsDeclared state its lines |
| Compiler.FileCode | src/main/java/edu/kit/kastel/formal/mimaflux/pl/CompilerVisitor.java:39-74 | no contract of its own; the lines of the whole file; CompilerVisitor.VisitFile is proved to emit it |
| Compiler.FunctionsErrPersists | src/main/java/edu/kit/kastel/formal/mimaflux/pl/CompilerVisitor.java:69-71 | once the functions fail on a prefix, the file fails with that error |
| Compiler.BlockErrPersists | src/main/java/edu/kit/kastel/formal/mimaflux/pl/CompilerVisitor.java:224-227 | once a block fails on a prefix, it fails with that error as a whole |
| CompilerProperties.CommentHeading | src/main/java/edu/kit/kastel/formal/mimaflux/pl/CompilerVisitor.java:310-313 | a message starting with "# " becomes an empty line, a rule and the heading |
| CompilerProperties.CommentNote | src/main/java/edu/kit/kastel/formal/mimaflux/pl/CompilerVisitor.java:314-315 | any other message is one indented comment line |
| CompilerProperties.CommentStmNote | src/main/java/edu/kit/kastel/formal/mimaflux/pl/CompilerVisitor.java:318-320 | a statement comment is one line naming the source line and the statement kind |
| CompilerProperties.StackCellsNamed | src/main/java/edu/kit/kastel/formal/mimaflux/pl/CompilerVisitor.java:43-45 | the k cell declarations name X0 up to X(k-1), in order |
| CompilerProperties.PrologueCells | src/main/java/edu/kit/kastel/formal/mimaflux/pl/CompilerVisitor.java:41-45 | the prologue appends "SP: DS 0x80000" and then the 11 cells X0 to X10 |
| CompilerProperties.SlotsDeclared | src/main/java/edu/kit/kastel/formal/mimaflux/pl/CompilerVisitor.java:43-45 | every cell the bounded stack can name is declared by the prologue |
| CompilerProperties.TotalCellsAppend | src/main/java/edu/kit/kastel/formal/mimaflux/pl/CompilerVisitor.java:56-62 | the cell count of the globals adds up global by global |
| CompilerProperties.GlobalsCount | src/main/java/edu/kit/kastel/formal/mimaflux/pl/CompilerVisitor.java:47-63 | at least one declaration per global; a global with a count is followed by "* = " and the running total; the final count is the sum of the cells |
| CompilerLabels.ExprCodeOnly | src/main/java/edu/kit/kastel/formal/mimaflux/pl/CompilerVisitor.java:121-180 | an expression adds only code lines and leaves the label counter alone |
| CompilerLabels.CondCodeOnly | src/main/java/edu/kit/kastel/formal/mimaflux/pl/CompilerVisitor.java:199-215 | the condition of an `if` or a `while` adds only code lines |
| CompilerLabels.StmtPlaces | src/main/java/edu/kit/kastel/formal/mimaflux/pl/CompilerVisitor.java:182-258 | a statement moves the label counter on by two per `if` and `while` in it, and places each label of that stretch once and no other label |
| CompilerLabels.IfJmnPlaces | src/main/java/edu/kit/kastel/formal/mimaflux/pl/CompilerVisitor.java:220-229 | an `if` places its two labels and those of both blocks once each |
| CompilerLabels.WhilePlaces | src/main/java/edu/kit/kastel/formal/mimaflux/pl/CompilerVisitor.java:231-258 | a `while` places its two labels and those of its body once each |
| CompilerLabels.BlockPlaces | src/main/java/edu/kit/kastel/formal/mimaflux/pl/CompilerVisitor.java:224-227 | a block places the labels of its statements, one after the other |
| CompilerLabels.BlockLabelsOnce | src/main/java/edu/kit/kastel/formal/mimaflux/pl/CompilerVisitor.java:220-258 | a compiled block defines each label from the counter at its start up to the counter at its end exactly once, and no other label |
| CompilerStack.BinSameSlot | src/main/java/edu/kit/kastel/formal/mimaflux/pl/CompilerVisitor.java:150-166 | a binary expression parks its first operand in X(p + 1) and applies the operator to that same cell |
| CompilerStack.UnaryOutcome | src/main/java/edu/kit/kastel/formal/mimaflux/pl/CompilerVisitor.java:133-148 | a unary expression compiles exactly for "~" and "*"; "-" and other operators end in "Unknown" |
| CompilerStack.CondCells | src/main/java/edu/kit/kastel/formal/mimaflux/pl/CompilerVisitor.java:199-214 | a condition parks its first operand in X(p + 1) and ends with the comparison against the given cell |
| CompilerStack.IfCmpSameCell | src/main/java/edu/kit/kastel/formal/mimaflux/pl/CompilerVisitor.java:202-209 | the `if` compares against the cell its first operand was parked in |
| CompilerStack.WhileComparesX0 | src/main/java/edu/kit/kastel/formal/mimaflux/pl/CompilerVisitor.java:238-244 | as written, the `while` parks its first operand in X(p + 1) but compares against X0, a different cell |
| CompilerStack.IntendedWhileCode | src/main/java/edu/kit/kastel/formal/mimaflux/pl/CompilerVisitor.java:231-258 | no contract of its own; the `while` with its comparison against the parked cell; IntendedWhileComparesParked and IntendedWhilePlaces state its properties |
| CompilerStack.IntendedWhileComparesParked | src/main/java/edu/kit/kastel/formal/mimaflux/pl/CompilerVisitor.java:238-248 | the corrected `while` compares against the cell its first operand was parked in |
| CompilerStack.IntendedWhilePlaces | src/main/java/edu/kit/kastel/formal/mimaflux/pl/CompilerVisitor.java:231-258 | the corrected `while` places its two labels and those of its body once each, as the original does |
| CompilerStack.UnknownReported | src/main/java/edu/kit/kastel/formal/mimaflux/pl/CompilerVisitor.java:262-295 | a name that is neither local nor global is reported once on the error stream; other accesses report nothing |
| CompilerStack.NoGlobalsKnown | src/main/java/edu/kit/kastel/formal/mimaflux/pl/CompilerVisitor.java:264-268 | the set of globals is never filled, so every non-local access is reported as unknown |
| Breakpoints.Insert | src/main/java/edu/kit/kastel/formal/mimaflux/gui/BreakpointManager.java:87 | a tree set's `add`: the result is ascending and holds the old lines plus the new one |
| Breakpoints.Delete | src/main/java/edu/kit/kastel/formal/mimaflux/gui/BreakpointManager.java:108 | a tree set's `remove`: the result is ascending and holds the old lines minus the given one |
| Breakpoints.AscendingUnique | src/main/java/edu/kit/kastel/formal/mimaflux/gui/BreakpointManager.java:81 | an ascending sequence is determined by its elements, as a tree set is |
| Breakpoints.BreakpointManager.constructor | src/main/java/edu/kit/kastel/formal/mimaflux/gui/BreakpointManager.java:66-67 | no breakpoints and no notifications |
| Breakpoints.BreakpointManager.AddBreakpoint | src/main/java/edu/kit/kastel/formal/mimaflux/gui/BreakpointManager.java:78-93 | the line is added to the resource's set, and observers are notified when the line was already set |
| Breakpoints.BreakpointManager.RemoveBreakpoint | src/main/java/edu/kit/kastel/formal/mimaflux/gui/BreakpointManager.java:105-115 | the line is removed, and observers are notified when it had been set |
| Breakpoints.BreakpointManager.GetBreakpoints | src/main/java/edu/kit/kastel/formal/mimaflux/gui/BreakpointManager.java:124-131 | the resource's lines, ascending and each once; empty for an unknown resource |
| Breakpoints.BreakpointManager.HasBreakpoint | src/main/java/edu/kit/kastel/formal/mimaflux/gui/BreakpointManager.java:143-145 | true exactly when the line is among the resource's breakpoints |
| Breakpoints.AddThenHas | src/main/java/edu/kit/kastel/formal/mimaflux/gui/BreakpointManager.java:78-93 | after adding, the line is set and the lines are the old ones plus it; adding twice is adding once; adding a set line changes nothing |
| Breakpoints.RemoveThenNotHas | src/main/java/edu/kit/kastel/formal/mimaflux/gui/BreakpointManager.java:105-115 | after removing, the line is not set and the lines are the old ones minus it; removing an unset line changes nothing |
| Breakpoints.OthersUnchanged | src/main/java/edu/kit/kastel/formal/mimaflux/gui/BreakpointManager.java:78-115 | adding and removing touch only the one line of the one resource |
| Breakpoints.AddRemove | src/main/java/edu/kit/kastel/formal/mimaflux/gui/BreakpointManager.java:78-115 | removing a line just added restores the resource's lines |
| Breakpoints.AddNoticeOnlyWhenPresent | src/main/java/edu/kit/kastel/formal/mimaflux/gui/BreakpointManager.java:86-92 | as written, adding notifies exactly when the collection does not change |
| Breakpoints.IntendedAddNoticeWhenChanged | src/main/java/edu/kit/kastel/formal/mimaflux/gui/BreakpointManager.java:69-71 | as the comment says, adding notifies exactly when the collection changes, which is exactly when the code as written stays silent |
| Breakpoints.RemoveNoticeWhenChanged | src/main/java/edu/kit/kastel/formal/mimaflux/gui/BreakpointManager.java:107-112 | removing notifies exactly when the collection changes |
| Brackets.Weight | src/main/java/edu/kit/kastel/formal/mimaflux/gui/BracketMatchingTextArea.java:259-262 | an opener counts +1, a closer -1, and anything else 0 |
| Brackets.BalanceAppend | src/main/java/edu/kit/kastel/formal/mimaflux/gui/BracketMatchingTextArea.java:258-268 | the count over a concatenation is the sum of the counts |
| Brackets.FindMatchingClose | src/main/java/edu/kit/kastel/formal/mimaflux/gui/BracketMatchingTextArea.java:254-270 | the scan returns exactly `MatchClose`: the first position from dot at which the count is 0, or -1 |
| Brackets.FindMatchingOpen | src/main/java/edu/kit/kastel/formal/mimaflux/gui/BracketMatchingTextArea.java:283-299 | the scan returns exactly `MatchOpen`: the last position up to dot from which the count is 0, or -1 |
| Brackets.MatchCloseLeast | src/main/java/edu/kit/kastel/formal/mimaflux/gui/BracketMatchingTextArea.java:243-253 | the closing partner is the first position from dot whose stretch is balanced, or -1 when there is none |
| Brackets.MatchOpenGreatest | src/main/java/edu/kit/kastel/formal/mimaflux/gui/BracketMatchingTextArea.java:272-282 | the opening partner is the last position up to dot whose stretch is balanced, or -1 when there is none |
| Brackets.OpenStaysPositive | src/main/java/edu/kit/kastel/formal/mimaflux/gui/BracketMatchingTextArea.java:258-268 | from an opener the count stays positive until it first reaches 0 |
| Brackets.MatchCloseIsCloser | src/main/java/edu/kit/kastel/formal/mimaflux/gui/BracketMatchingTextArea.java:254-270 | the closing partner of an opener lies after it and is a closer |
| Brackets.CloseStaysNegative | src/main/java/edu/kit/kastel/formal/mimaflux/gui/BracketMatchingTextArea.java:287-297 | for a closer, the count of each stretch ending at it stays negative until, going left, it first reaches 0 |
| Brackets.MatchOpenIsOpener | src/main/java/edu/kit/kastel/formal/mimaflux/gui/BracketMatchingTextArea.java:283-299 | the opening partner of a closer lies before it and is an opener |
| Brackets.Highlight | src/main/java/edu/kit/kastel/formal/mimaflux/gui/BracketMatchingTextArea.java:226-231 | the stretch is highlighted when both ends exist, and otherwise the empty highlight at 0 is set |
| Brackets.CaretRange | src/main/java/edu/kit/kastel/formal/mimaflux/gui/BracketMatchingTextArea.java:213-225 | no contract of its own; the pair of ends `caretUpdate` computes before its test; CaretUpdate, HighlightIsPair, OpenerFirst, NoBracketsNoHighlight and UnmatchedOpenerKept state what it gives |
| Brackets.CaretUpdate | src/main/java/edu/kit/kastel/formal/mimaflux/gui/BracketMatchingTextArea.java:209-241 | the highlight is that of `CaretRange`: an opener under the caret is matched forwards, otherwise a closer before it is matched backwards |
| Brackets.HighlightIsPair | src/main/java/edu/kit/kastel/formal/mimaflux/gui/BracketMatchingTextArea.java:218-228 | a highlighted stretch that is not empty runs from an opener to a closer and is balanced |
| Brackets.OpenerFirst | src/main/java/edu/kit/kastel/formal/mimaflux/gui/BracketMatchingTextArea.java:218-224 | an opener under the caret wins over a closer just before it |
| Brackets.KindsIgnored | src/main/java/edu/kit/kastel/formal/mimaflux/gui/BracketMatchingTextArea.java:60-61 | the kinds are not compared: in "{x)" the "{" and the ")" are partners |
| Brackets.NoBracketsNoHighlight | src/main/java/edu/kit/kastel/formal/mimaflux/gui/BracketMatchingTextArea.java:218-231 | in a text without brackets nothing is matched and the empty highlight is set, wherever the caret is |
| Brackets.AnglesIgnored | src/main/java/edu/kit/kastel/formal/mimaflux/gui/BracketMatchingTextArea.java:85-90 | angle brackets are plain characters, so nothing is highlighted around "<x>" |
| Brackets.UnmatchedOpenerKept | src/main/java/edu/kit/kastel/formal/mimaflux/gui/BracketMatchingTextArea.java:218-228 | as written, an opener without a partner gives end 0, and the pair (dot, 0) is highlighted |
| Brackets.IntendedKeepsOrder | src/main/java/edu/kit/kastel/formal/mimaflux/gui/BracketMatchingTextArea.java:226-227 | with the corrected end, every highlight keeps begin < end, and an unmatched opener clears the highlight |
| Hex.HexRoundTrip | src/main/java/edu/kit/kastel/formal/mimaflux/gui/HexFormatter.java:44 | reading back the hex digits of n gives n |
| Hex.ParseHexInt | src/main/java/edu/kit/kastel/formal/mimaflux/gui/HexFormatter.java:35 | `Integer.valueOf(s, 16)`: an optional sign and at least one hex digit, with a value inside the int range |
| Hex.LowByte | src/main/java/edu/kit/kastel/formal/mimaflux/gui/HexFormatter.java:36 | `& 0xff` is the remainder modulo 256, also for negative ints |
| Hex.StringToValue | src/main/java/edu/kit/kastel/formal/mimaflux/gui/HexFormatter.java:32-40 | the text parses exactly when the result is Ok; the value is the parsed int masked with 0xff, a byte; an error carries the text |
| Hex.ValueToString | src/main/java/edu/kit/kastel/formal/mimaflux/gui/HexFormatter.java:43-45 | no contract of its own; `%02X` of an int; ByteAsTwoDigits and ByteRoundTrip state that a byte prints as two upper-case digits that read back as the byte |
| Hex.ByteAsTwoDigits | src/main/java/edu/kit/kastel/formal/mimaflux/gui/HexFormatter.java:42-45 | a byte prints as exactly two upper-case hex digits, whose value is the byte |
| Hex.ByteRoundTrip | src/main/java/edu/kit/kastel/formal/mimaflux/gui/HexFormatter.java:32-45 | what the formatter prints for a byte, it reads back as the same byte |
| Hex.Wraps | src/main/java/edu/kit/kastel/formal/mimaflux/gui/HexFormatter.java:36 | "100" reads as 0 and "1FF" as 255 |
| Hex.WrapsNegative | src/main/java/edu/kit/kastel/formal/mimaflux/gui/HexFormatter.java:36 | "-1" reads as 255 |
| Hex.Refused | src/main/java/edu/kit/kastel/formal/mimaflux/gui/HexFormatter.java:37-39 | "", "-" and "0x1F" are refused, with the text as the error |
| Hex.Overflow | src/main/java/edu/kit/kastel/formal/mimaflux/gui/HexFormatter.java:35-39 | "FFFFFFFF" exceeds a Java int, so it is refused rather than wrapped |

## Left out

- Parsing: the ANTLR grammars of the assembler and the while-language are not modelled. The assembler's visitor gets its address specifications and program lines as `Event`s. The compiler works on its own `Expr`, `Stmt`, `Function` and `File` datatypes. `Integer.decode` of number tokens is taken as already done.
- `TokenedException` positions, `MimaFlux.log`, the verbose printing of `makeTimeline`, `State.printToConsole` and the compiler's comments about source positions beyond the line number are left out. They are output only.
- maxSteps comes from the command-line arguments in Java. Here it is a parameter of `Run` and `MakeTimeline`.
- The preset values live in a `HashMap`, whose iteration order Java does not fix. The model takes them as a sequence, in whatever order the map yields them.
- Listeners are Java objects. A listener here is a number, and its calls are recorded as a log of notifications. The same holds for the observers of the breakpoint manager and for `System.err` in the compiler.
- The Swing parts of the GUI are left out: painting, caret events, `changeHighlight`'s `BadLocationException` path, the formatter's registration with a text field, and the `Observable` machinery.
- Recording.TimelineBuilder.Build: `build` in the Java source calls a `Timeline` constructor with four arguments that the `Timeline` class does not declare. The model builds the timeline from the committed steps over a fresh copy of the start state, at position 0. The pending updates that were never committed are dropped.
- Navigation.Timeline.SetPosition requires position >= 0. For a negative position Java's loop reads `updates.get(-1)` and throws; that crash is not modelled.
- Hex.ParseHexInt accepts ASCII hex digits only. `Character.digit`, on which `Integer.valueOf` relies, also accepts other Unicode digits.
- Hex.ValueToString requires an int-range value. `String.format("%02X", value)` on an `Object` that is not an integer throws `IllegalFormatConversionException`; the formatter only gets the bytes it produced.
- LabelResolution.LabelResolver.Resolve does not state the label map after a failure. Java leaves the partly built map of the failing pass there. Before the first `resolve` the Java map is `null`; the model starts with the empty map.
- CompilerLabels: the order in which the compiler places its labels is not modelled, only that each label is defined exactly once.
- Two further evident slips of the compiler are modelled as written but not claimed as findings. `loadVar` inside a binary expression uses the cell the first operand is parked in. `storeVar` overwrites the value it is to store with the address.

## Findings

| source | as written | input that shows it | evidently intended | confidence | as-written member | corrected member |
|---|---|---|---|---|---|---|
| src/main/java/edu/kit/kastel/formal/mimaflux/pl/CompilerVisitor.java:244-248 | the `while` condition compares against the literal cell X0 | `while (a = b)` at stack pointer p >= 0: the first operand is parked in X(p + 1), never X0 | compare against the parked cell, as `visitIfCmpStm` does at lines 208 and 212 | high, not executed | CompilerStack.WhileComparesX0 | CompilerStack.IntendedWhileComparesParked |
| src/main/java/edu/kit/kastel/formal/mimaflux/gui/BracketMatchingTextArea.java:219-227 | an opener without a partner sets end to -1 + 1 = 0, which passes the "both found" test | text "a(" with the caret at 1 gives the highlight (1, 0), breaking the assertion `begin < end` | no end when there is no partner, so the highlight is cleared | high, not executed | Brackets.UnmatchedOpenerKept | Brackets.IntendedKeepsOrder |
| src/main/java/edu/kit/kastel/formal/mimaflux/gui/BreakpointManager.java:86-89 | `isNew` is set to `list.contains(line)`, so observers hear of a breakpoint only when it was already set | adding line 3 to an empty resource notifies nobody; adding it a second time notifies | notify when the breakpoint has not been set before, as the comment at lines 70-71 says | high, not executed | Breakpoints.AddNoticeOnlyWhenPresent | Breakpoints.IntendedAddNoticeWhenChanged |
