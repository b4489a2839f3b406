/**
 * ProgramVisitor.java: the walk over the parsed assembler file that turns
 * each program line into a Command placed at the current address.  An
 * address specification `* = n` moves the current address; every line
 * takes the current address and moves it on by one.  The parse tree is
 * replaced by the sequence of events the visitor sees, in visit order.
 */
module Assembly {
  import opened Wrappers
  import opened Constants
  import opened Commands

  /** What the visitor meets: an address specification, or a program line. */
  datatype Event =
    | AdrSpec(number: int)
    | Line(labelName: Option<string>, mnemonic: string, labelArg: Option<string>, numberArg: Option<int>)

  /** The visitor's state: the current address and the lines emitted so far. */
  datatype Layout = Layout(address: int, commands: seq<Command>)

  const OUT_OF_RANGE := "Address out of range"

  /** The command a line becomes at a given address; a missing number is 0. */
  function LineCommand(e: Event, address: int): Command
    requires e.Line?
  {
    Command(address, e.labelName, Some(e.mnemonic), e.labelArg,
      if e.numberArg.Some? then e.numberArg.value else 0)
  }

  /** One visit. */
  function Visit(st: Layout, e: Event): (r: Result<Layout, string>)
  {
    match e
    case AdrSpec(n) => if n >= ADDRESS_MASK then Err(OUT_OF_RANGE) else Ok(Layout(n, st.commands))
    case Line(_, _, _, _) => Ok(Layout(st.address + 1, st.commands + [LineCommand(e, st.address)]))
  }

  /** All visits in order, stopping at the first address specification out of range. */
  function Walk(events: seq<Event>, st: Layout): (r: Result<Layout, string>)
  {
    if |events| == 0 then Ok(st)
    else
      match Walk(events[..|events| - 1], st)
      case Err(msg) => Err(msg)
      case Ok(s) => Visit(s, events[|events| - 1])
  }

  /** The program lines among the events, in order. */
  function Lines(events: seq<Event>): (ls: seq<Event>)
    ensures |ls| <= |events|
    ensures forall i :: 0 <= i < |ls| ==> ls[i].Line?
  {
    if |events| == 0 then []
    else Lines(events[..|events| - 1]) + (if events[|events| - 1].Line? then [events[|events| - 1]] else [])
  }

  class ProgramVisitor {
    var commands: seq<Command>
    var curAddress: int

    /** Nothing emitted; without an address specification the first line goes to address 0. */
    constructor ()
      ensures commands == [] && curAddress == 0
    {
      commands := [];
      curAddress := 0;
    }

    function GetCommands(): (cs: seq<Command>)
      reads this
    {
      commands
    }

    /** The number becomes the current address before it is checked, and no line is emitted. */
    method VisitAdrSpec(number: int) returns (r: Outcome<string>)
      modifies this
      ensures curAddress == number && commands == old(commands)
      ensures r == if number >= ADDRESS_MASK then Fail(OUT_OF_RANGE) else Pass
    {
      curAddress := number;
      if curAddress >= ADDRESS_MASK {
        return Fail(OUT_OF_RANGE);
      }
      return Pass;
    }

    /** The line is appended at the current address, which then goes up by one, unchecked. */
    method VisitCommand(e: Event)
      requires e.Line?
      modifies this
      ensures commands == old(commands) + [LineCommand(e, old(curAddress))]
      ensures curAddress == old(curAddress) + 1
    {
      var valueArg := 0;
      if e.numberArg.Some? {
        valueArg := e.numberArg.value;
      }
      commands := commands + [Command(curAddress, e.labelName, Some(e.mnemonic), e.labelArg, valueArg)];
      curAddress := curAddress + 1;
    }

    /** The walk over the whole file: the visits in order, as Walk describes them. */
    method VisitAll(events: seq<Event>) returns (r: Outcome<string>)
      modifies this
      ensures var run := Walk(events, Layout(old(curAddress), old(commands)));
        if r.Pass? then run == Ok(Layout(curAddress, commands)) else run == Err(r.error)
    {
      for i := 0 to |events|
        invariant Walk(events[..i], Layout(old(curAddress), old(commands))) == Ok(Layout(curAddress, commands))
      {
        assert events[..i + 1][..i] == events[..i];
        var e := events[i];
        if e.AdrSpec? {
          var o := VisitAdrSpec(e.number);
          if o.Fail? {
            WalkErrPersists(events, Layout(old(curAddress), old(commands)), i + 1);
            return o;
          }
        } else {
          VisitCommand(e);
        }
      }
      assert events[..|events|] == events;
      return Pass;
    }
  }

  // ------------------------------------------------------------ lemmas

  /** Once the walk fails on a prefix, it fails with that error on the whole file. */
  lemma {:induction false} WalkErrPersists(events: seq<Event>, st: Layout, k: nat)
    requires k <= |events| && Walk(events[..k], st).Err?
    ensures Walk(events, st) == Walk(events[..k], st)
    decreases |events| - k
  {
    if k < |events| {
      var p := events[..|events| - 1];
      assert p[..k] == events[..k];
      WalkErrPersists(p, st, k);
    } else {
      assert events[..k] == events;
    }
  }

  /** The walk over two parts is the walk over the second from where the first left off. */
  lemma {:induction false} WalkAppend(a: seq<Event>, b: seq<Event>, st: Layout)
    ensures Walk(a + b, st) == match Walk(a, st) case Err(e) => Err(e) case Ok(s) => Walk(b, s)
    decreases |b|
  {
    if |b| == 0 {
      assert a + b == a;
    } else {
      var b' := b[..|b| - 1];
      assert (a + b)[..|a + b| - 1] == a + b';
      WalkAppend(a, b', st);
    }
  }

  /**
   * The walk fails exactly when some address specification is at least
   * ADDRESS_MASK, and then with "Address out of range".
   */
  lemma {:induction false} WalkFails(events: seq<Event>, st: Layout)
    ensures Walk(events, st).Err? <==>
      exists i :: 0 <= i < |events| && events[i].AdrSpec? && events[i].number >= ADDRESS_MASK
    ensures Walk(events, st).Err? ==> Walk(events, st).error == OUT_OF_RANGE
    decreases |events|
  {
    if |events| == 0 {
      return;
    }
    var n := |events| - 1;
    var p := events[..n];
    WalkFails(p, st);
    assert forall i :: 0 <= i < n ==> p[i] == events[i];
    if Walk(p, st).Err? {
      var i :| 0 <= i < |p| && p[i].AdrSpec? && p[i].number >= ADDRESS_MASK;
      assert events[i] == p[i];
    } else if !(events[n].AdrSpec? && events[n].number >= ADDRESS_MASK) {
      forall i | 0 <= i < |events| && events[i].AdrSpec?
        ensures events[i].number < ADDRESS_MASK
      {
        if i < n {
          assert p[i] == events[i];
        }
      }
    }
  }

  /**
   * An address specification emits nothing: the walk appends one command
   * per program line, in visit order, each carrying that line's label,
   * mnemonic and label argument, with 0 for a missing number; the lines
   * emitted before stay as they were.
   */
  lemma {:induction false} WalkLines(events: seq<Event>, st: Layout)
    requires Walk(events, st).Ok?
    ensures var out, ls, k := Walk(events, st).value.commands, Lines(events), |st.commands|;
      |out| == k + |ls| && out[..k] == st.commands &&
      forall i :: 0 <= i < |ls| ==> out[k + i] == LineCommand(ls[i], out[k + i].address)
    decreases |events|
  {
    if |events| == 0 {
      assert Walk(events, st).value.commands[..|st.commands|] == st.commands;
      return;
    }
    var n := |events| - 1;
    var p := events[..n];
    WalkLines(p, st);
    var s := Walk(p, st).value;
    var out := Walk(events, st).value.commands;
    var k := |st.commands|;
    var ls := Lines(p);
    assert out[..|s.commands|] == s.commands;
    assert out[..k] == s.commands[..k];
    forall i | 0 <= i < |Lines(events)|
      ensures out[k + i] == LineCommand(Lines(events)[i], out[k + i].address)
    {
      if i < |ls| {
        assert out[k + i] == s.commands[k + i];
      } else {
        assert out[k + i] == LineCommand(events[n], s.address);
      }
    }
  }

  /**
   * Between address specifications the addresses run on consecutively:
   * a stretch of program lines starting at address a is placed at a, a + 1,
   * and so on, and leaves the current address just past the last of them.
   */
  lemma {:induction false} Consecutive(events: seq<Event>, st: Layout)
    requires forall i :: 0 <= i < |events| ==> events[i].Line?
    ensures Walk(events, st).Ok?
    ensures var out := Walk(events, st).value;
      out.address == st.address + |events| && |out.commands| == |st.commands| + |events| &&
      forall i :: 0 <= i < |events| ==> out.commands[|st.commands| + i] == LineCommand(events[i], st.address + i)
    decreases |events|
  {
    if |events| == 0 {
      return;
    }
    var n := |events| - 1;
    var p := events[..n];
    Consecutive(p, st);
    var s := Walk(p, st).value;
    var out := Walk(events, st).value;
    forall i | 0 <= i < |events|
      ensures out.commands[|st.commands| + i] == LineCommand(events[i], st.address + i)
    {
      if i < n {
        assert p[i] == events[i];
        assert out.commands[|st.commands| + i] == s.commands[|st.commands| + i];
      }
    }
  }

  /**
   * The step after each line is never checked: from the highest address a
   * specification accepts, the third following line lands at ADDRESS_RANGE,
   * one past the last memory cell.
   */
  lemma PastLastCell(l: Event)
    requires l.Line?
    ensures var r := Walk([AdrSpec(ADDRESS_MASK - 1), l, l, l], Layout(0, []));
      r.Ok? && |r.value.commands| == 3 && r.value.commands[2].address == ADDRESS_RANGE
  {
    var events := [AdrSpec(ADDRESS_MASK - 1), l, l, l];
    WalkAppend([events[0]], events[1..], Layout(0, []));
    assert [events[0]] + events[1..] == events;
    assert Walk([events[0]], Layout(0, [])) == Ok(Layout(ADDRESS_MASK - 1, [])) by {
      assert [events[0]][..0] == [];
    }
    Consecutive(events[1..], Layout(ADDRESS_MASK - 1, []));
  }
}
