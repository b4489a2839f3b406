/**
 * Recording a run (TimelineBuilder.java): every write of the interpreter
 * goes through `Set`, which logs the location's old and new value; `Commit`
 * closes the pending updates as one step.  The builder keeps the replay
 * invariant: its live state is the initial state with all committed steps,
 * then the pending updates, applied; each logged old value is what the
 * location held just before that write.
 */
module Recording {
  import opened Bits
  import opened Constants
  import opened Commands
  import opened Machine
  import opened Journal
  import opened Navigation

  /** The IAR a run starts at: the address of START, or 0 without one. */
  function StartAddress(labelMap: map<string, int>): int
  {
    if START_LABEL in labelMap then labelMap[START_LABEL] else 0
  }

  /** The state a run starts from: the loaded program, IAR at the start address. */
  function Initial(commands: seq<Command>, labelMap: map<string, int>): (s: Snapshot)
    requires Loadable(commands)
    ensures s.Valid() && s.mem == Image(commands) && s.accu == 0
    ensures START_LABEL in labelMap ==> s.iar == labelMap[START_LABEL]
    ensures START_LABEL !in labelMap ==> s.iar == 0
  {
    Snapshot(Image(commands), StartAddress(labelMap), 0)
  }

  /** A fresh state with the program loaded and IAR set, without logging that write. */
  method NewInitialState(commands: seq<Command>, labelMap: map<string, int>) returns (s: State)
    requires Loadable(commands)
    ensures fresh(s) && fresh(s.mem) && s.Valid()
    ensures s.Value() == Initial(commands, labelMap)
  {
    s := new State(commands);
    s.Set(IAR, StartAddress(labelMap));
  }

  class TimelineBuilder {
    var updates: seq<Step>
    var curUpdates: Step
    const fileContent: string
    const labelMap: map<string, int>
    const commands: seq<Command>
    const state: State
    /** The state before the first recorded write. */
    ghost const origin: Snapshot

    /** What the constructor fixes for good: the program loads, and the origin is its initial state. */
    ghost predicate Loaded()
    {
      Loadable(commands) && origin == Initial(commands, labelMap)
    }

    /** The replay invariant. */
    ghost predicate Valid()
      reads this, state, state.mem
    {
      && state.Valid()
      && Recorded(origin, updates)
      && Consistent(Replay(origin, updates), curUpdates)
      && state.Value() == StoreAll(Replay(origin, updates), NewWrites(curUpdates))
    }

    /** A builder over the loaded program, IAR at START's address, nothing logged. */
    constructor (fileContent: string, labelMap: map<string, int>, commands: seq<Command>)
      requires Loadable(commands)
      ensures Valid() && Loaded() && fresh(state) && fresh(state.mem)
      ensures updates == [] && curUpdates == []
      ensures this.fileContent == fileContent && this.labelMap == labelMap && this.commands == commands
      ensures state.Value() == Initial(commands, labelMap)
    {
      this.fileContent := fileContent;
      this.labelMap := labelMap;
      this.commands := commands;
      updates := [];
      curUpdates := [];
      origin := Initial(commands, labelMap);
      var s := NewInitialState(commands, labelMap);
      state := s;
    }

    /** Writes a location and logs (addr, value before, value written). */
    method Set(addr: int, val: int)
      requires Valid() && InRange(addr)
      modifies this, state, state.mem
      ensures Valid()
      ensures state.Value() == old(state.Value()).Store(addr, val)
      ensures curUpdates == old(curUpdates) + [Update(addr, old(state.Value()).Lookup(addr), val)]
      ensures updates == old(updates)
    {
      ConsistentSnoc(Replay(origin, updates), curUpdates, addr, val);
      var curVal := state.Get(addr);
      curUpdates := curUpdates + [Update(addr, curVal, val)];
      state.Set(addr, val);
    }

    /** Closes the pending updates as one step. */
    method Commit()
      requires Valid()
      modifies this
      ensures Valid()
      ensures updates == old(updates) + [old(curUpdates)] && curUpdates == []
      ensures |updates| == |old(updates)| + 1
    {
      RecordedSnoc(origin, updates, curUpdates);
      updates := updates + [curUpdates];
      curUpdates := [];
    }

    /** Advances IAR by one, modulo 2^20, as one logged write. */
    method IncIAR()
      requires Valid()
      modifies this, state, state.mem
      ensures Valid()
      ensures var next := AddressBits(old(state.iar) + 1);
        state.Value() == old(state.Value()).Store(IAR, next) &&
        curUpdates == old(curUpdates) + [Update(IAR, old(state.iar), next)]
      ensures state.iar == (old(state.iar) + 1) % ADDRESS_RANGE
      ensures updates == old(updates)
    {
      Set(IAR, AddressBits(state.Get(IAR) + 1));
    }

    function Size(): (n: int)
      reads this
      ensures n == |updates|
    {
      |updates|
    }

    /**
     * The timeline of the committed steps, in commit order; pending updates
     * are left out.  It shows a fresh initial state at position 0.
     */
    method Build() returns (t: Timeline)
      requires Valid() && Loaded()
      ensures fresh(t) && fresh(t.state) && fresh(t.state.mem)
      ensures t.Valid() && t.Synced()
      ensures t.updates == updates && t.currentPosition == 0 && t.curUpdates == []
      ensures t.origin == origin && Recorded(t.origin, t.updates)
      ensures t.listeners == [] && t.notifications == []
      ensures t.fileContent == fileContent && t.commands == commands
    {
      var s := NewInitialState(commands, labelMap);
      t := new Timeline(updates, fileContent, commands, s);
    }
  }
}
