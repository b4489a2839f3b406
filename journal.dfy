/**
 * The write log of a run (the Update records of TimelineBuilder and
 * Timeline): replaying recorded new values forward, writing old values
 * back, and the conditions under which going back restores a state.
 */
module Journal {
  import opened Machine

  /** One logged write: the address, the value before, the value written. */
  datatype Update = Update(addr: int, oldValue: int, newValue: int)

  /** A write to perform. */
  datatype Write = Write(addr: int, value: int)

  /** One committed step: the updates of one instruction, in order. */
  type Step = seq<Update>

  /** The state after performing the writes in order. */
  function StoreAll(s: Snapshot, ws: seq<Write>): (t: Snapshot)
    ensures |t.mem| == |s.mem|
  {
    if |ws| == 0 then s
    else StoreAll(s, ws[..|ws| - 1]).Store(ws[|ws| - 1].addr, ws[|ws| - 1].value)
  }

  /** Replaying a step: its new values, in recorded order. */
  function NewWrites(step: Step): (ws: seq<Write>)
    ensures |ws| == |step|
    ensures forall i :: 0 <= i < |step| ==> ws[i] == Write(step[i].addr, step[i].newValue)
  {
    seq(|step|, i requires 0 <= i < |step| => Write(step[i].addr, step[i].newValue))
  }

  /** Taking a step back: its old values, also in recorded order. */
  function OldWrites(step: Step): (ws: seq<Write>)
    ensures |ws| == |step|
    ensures forall i :: 0 <= i < |step| ==> ws[i] == Write(step[i].addr, step[i].oldValue)
  {
    seq(|step|, i requires 0 <= i < |step| => Write(step[i].addr, step[i].oldValue))
  }

  /** The updates logged while performing the writes from state s. */
  function Record(s: Snapshot, ws: seq<Write>): (step: Step)
    ensures |step| == |ws|
  {
    if |ws| == 0 then []
    else
      var prefix := ws[..|ws| - 1];
      var w := ws[|ws| - 1];
      Record(s, prefix) + [Update(w.addr, StoreAll(s, prefix).Lookup(w.addr), w.value)]
  }

  /** A step whose old values are what its locations held when written. */
  predicate Consistent(s: Snapshot, step: Step)
  {
    step == Record(s, NewWrites(step))
  }

  /** Every update of the step names an address get and set accept. */
  predicate InRangeStep(step: Step)
  {
    forall i :: 0 <= i < |step| ==> InRange(step[i].addr)
  }

  /** No two updates of the step write the same location. */
  predicate Distinct(step: Step)
  {
    forall i, j :: 0 <= i < j < |step| ==> step[i].addr != step[j].addr
  }

  /** The state after replaying whole steps from s0. */
  function Replay(s0: Snapshot, steps: seq<Step>): (s: Snapshot)
    ensures |s.mem| == |s0.mem|
  {
    if |steps| == 0 then s0
    else StoreAll(Replay(s0, steps[..|steps| - 1]), NewWrites(steps[|steps| - 1]))
  }

  /** Every step was recorded from the state its predecessors reach. */
  predicate Recorded(s0: Snapshot, steps: seq<Step>)
  {
    forall k :: 0 <= k < |steps| ==> Consistent(Replay(s0, steps[..k]), steps[k])
  }

  /** Steps that can be undone: distinct, in-range locations. */
  predicate Undoable(steps: seq<Step>)
  {
    forall k :: 0 <= k < |steps| ==> Distinct(steps[k]) && InRangeStep(steps[k])
  }

  // ----------------------------------------------------------- StoreAll

  lemma {:induction false} StoreAllAppend(s: Snapshot, a: seq<Write>, b: seq<Write>)
    ensures StoreAll(s, a + b) == StoreAll(StoreAll(s, a), b)
    decreases |b|
  {
    if |b| > 0 {
      assert (a + b)[..|a + b| - 1] == a + b[..|b| - 1];
      StoreAllAppend(s, a, b[..|b| - 1]);
    } else {
      assert a + b == a;
    }
  }

  /** A location none of the writes names keeps its value. */
  lemma {:induction false} StoreAllUntouched(s: Snapshot, ws: seq<Write>, a: int)
    requires forall i :: 0 <= i < |ws| ==> ws[i].addr != a
    ensures StoreAll(s, ws).Lookup(a) == s.Lookup(a)
    decreases |ws|
  {
    if |ws| > 0 {
      StoreAllUntouched(s, ws[..|ws| - 1], a);
    }
  }

  /** A location written once, and in range, holds the value written. */
  lemma {:induction false} StoreAllWritten(s: Snapshot, ws: seq<Write>, i: nat)
    requires s.Valid() && i < |ws| && InRange(ws[i].addr)
    requires forall j :: i < j < |ws| ==> ws[j].addr != ws[i].addr
    ensures StoreAll(s, ws).Lookup(ws[i].addr) == ws[i].value
    decreases |ws|
  {
    if i < |ws| - 1 {
      StoreAllWritten(s, ws[..|ws| - 1], i);
    }
  }

  lemma StoreAllValid(s: Snapshot, ws: seq<Write>)
    requires s.Valid()
    ensures StoreAll(s, ws).Valid()
  {
  }

  // ------------------------------------------------------------- Record

  /** Recording and replaying are inverse: the log's new values are the writes. */
  lemma {:induction false} RecordReplays(s: Snapshot, ws: seq<Write>)
    ensures NewWrites(Record(s, ws)) == ws
    decreases |ws|
  {
    if |ws| > 0 {
      RecordReplays(s, ws[..|ws| - 1]);
    }
  }

  /** A recorded log is consistent with the state it was recorded from. */
  lemma RecordIsConsistent(s: Snapshot, ws: seq<Write>)
    ensures Consistent(s, Record(s, ws))
  {
    RecordReplays(s, ws);
  }

  lemma {:induction false} RecordAppend(s: Snapshot, a: seq<Write>, b: seq<Write>)
    ensures Record(s, a + b) == Record(s, a) + Record(StoreAll(s, a), b)
    decreases |b|
  {
    if |b| > 0 {
      var ab := a + b;
      assert ab[..|ab| - 1] == a + b[..|b| - 1];
      RecordAppend(s, a, b[..|b| - 1]);
      StoreAllAppend(s, a, b[..|b| - 1]);
    } else {
      assert a + b == a;
    }
  }

  /** The old value logged for update i is the state before write i. */
  lemma {:induction false} RecordOldValue(s: Snapshot, ws: seq<Write>, i: nat)
    requires i < |ws|
    ensures Record(s, ws)[i] == Update(ws[i].addr, StoreAll(s, ws[..i]).Lookup(ws[i].addr), ws[i].value)
    decreases |ws|
  {
    if i < |ws| - 1 {
      RecordOldValue(s, ws[..|ws| - 1], i);
      assert ws[..|ws| - 1][..i] == ws[..i];
    }
  }

  /** With distinct locations, every old value is the value in the first state. */
  lemma ConsistentOldValue(s: Snapshot, step: Step, i: nat)
    requires Consistent(s, step) && Distinct(step) && i < |step|
    ensures step[i].oldValue == s.Lookup(step[i].addr)
  {
    var ws := NewWrites(step);
    RecordOldValue(s, ws, i);
    StoreAllUntouched(s, ws[..i], step[i].addr);
  }

  // ---------------------------------------------------------------- undo

  /** Writing old values back in recorded order undoes a distinct step. */
  lemma UndoRestores(s: Snapshot, step: Step)
    requires s.Valid() && Consistent(s, step) && Distinct(step) && InRangeStep(step)
    ensures StoreAll(StoreAll(s, NewWrites(step)), OldWrites(step)) == s
  {
    var t := StoreAll(s, NewWrites(step));
    var u := StoreAll(t, OldWrites(step));
    StoreAllValid(s, NewWrites(step));
    StoreAllValid(t, OldWrites(step));
    forall a | InRange(a)
      ensures u.Lookup(a) == s.Lookup(a)
    {
      if i :| 0 <= i < |step| && step[i].addr == a {
        StoreAllWritten(t, OldWrites(step), i);
        ConsistentOldValue(s, step, i);
      } else {
        StoreAllUntouched(s, NewWrites(step), a);
        StoreAllUntouched(t, OldWrites(step), a);
      }
    }
    SnapshotsEqual(u, s);
  }

  /** The step that writes cell 0 twice, from the zeroed state. */
  function TwiceWrittenStep(): Step
  {
    [Update(0, 0, 1), Update(0, 1, 2)]
  }

  /**
   * Without distinct locations going back does not restore: the step that
   * writes 1 and then 2 into a zero cell is undone to 1, not to 0.
   */
  lemma UndoNeedsDistinct()
    ensures Consistent(Zeroed(), TwiceWrittenStep()) && InRangeStep(TwiceWrittenStep())
    ensures StoreAll(StoreAll(Zeroed(), NewWrites(TwiceWrittenStep())), OldWrites(TwiceWrittenStep())).Lookup(0) == 1
  {
    var s := Zeroed();
    var step := TwiceWrittenStep();
    var ws := NewWrites(step);
    assert ws == [Write(0, 1), Write(0, 2)];
    assert ws[..1] == [Write(0, 1)];
    assert ws[..1][..0] == [];
    assert StoreAll(s, ws[..1]).Lookup(0) == 1;
    assert Record(s, ws) == step;
    var t := StoreAll(s, ws);
    var olds := OldWrites(step);
    assert olds == [Write(0, 0), Write(0, 1)];
    assert olds[..1] == [Write(0, 0)];
    assert olds[..1][..0] == [];
  }

  // ---------------------------------------------------------------- seek

  /** The writes setPosition performs going from position `from` to `to`. */
  function SeekWrites(steps: seq<Step>, from: nat, to: nat): (ws: seq<Write>)
    requires from <= |steps| && to <= |steps|
    decreases if from <= to then to - from else from - to
  {
    if from < to then NewWrites(steps[from]) + SeekWrites(steps, from + 1, to)
    else if from > to then OldWrites(steps[from - 1]) + SeekWrites(steps, from - 1, to)
    else []
  }

  lemma ReplayPrefix(s0: Snapshot, steps: seq<Step>, k: nat)
    requires k < |steps|
    ensures Replay(s0, steps[..k + 1]) == StoreAll(Replay(s0, steps[..k]), NewWrites(steps[k]))
  {
    assert steps[..k + 1][..k] == steps[..k];
  }

  lemma ReplayValid(s0: Snapshot, steps: seq<Step>)
    requires s0.Valid()
    ensures Replay(s0, steps).Valid()
  {
  }

  /** Writing back the old values of step k leads from the state after it to the state before it. */
  lemma StepBack(s0: Snapshot, steps: seq<Step>, k: nat)
    requires s0.Valid() && Recorded(s0, steps) && Undoable(steps) && k < |steps|
    ensures StoreAll(Replay(s0, steps[..k + 1]), OldWrites(steps[k])) == Replay(s0, steps[..k])
  {
    var before := Replay(s0, steps[..k]);
    ReplayPrefix(s0, steps, k);
    ReplayValid(s0, steps[..k]);
    assert Consistent(before, steps[k]) && Distinct(steps[k]) && InRangeStep(steps[k]);
    UndoRestores(before, steps[k]);
  }

  /** Seeking forward replays the new values of the steps in between. */
  lemma {:induction false} SeekForwardReaches(s0: Snapshot, steps: seq<Step>, from: nat, to: nat)
    requires s0.Valid()
    requires from <= to && to <= |steps|
    ensures StoreAll(Replay(s0, steps[..from]), SeekWrites(steps, from, to)) == Replay(s0, steps[..to])
    decreases |steps| - from
  {
    if from < to {
      var rest := SeekWrites(steps, from + 1, to);
      assert SeekWrites(steps, from, to) == NewWrites(steps[from]) + rest;
      ReplayPrefix(s0, steps, from);
      SeekForwardReaches(s0, steps, from + 1, to);
      StoreAllAppend(Replay(s0, steps[..from]), NewWrites(steps[from]), rest);
    } else {
      assert SeekWrites(steps, from, to) == [];
    }
  }

  /** Writing back the old values of each step in [lo, hi) leads to the state before that step. */
  predicate UndoesBetween(s0: Snapshot, steps: seq<Step>, lo: nat, hi: nat)
    requires hi <= |steps|
  {
    forall k {:trigger OldWrites(steps[k])} :: lo <= k < hi ==>
      StoreAll(Replay(s0, steps[..k + 1]), OldWrites(steps[k])) == Replay(s0, steps[..k])
  }

  /** Seeking backward writes back the old values of the steps in between. */
  lemma {:induction false} SeekBackwardReaches(s0: Snapshot, steps: seq<Step>, from: nat, to: nat)
    requires to <= from && from <= |steps| && UndoesBetween(s0, steps, to, from)
    ensures StoreAll(Replay(s0, steps[..from]), SeekWrites(steps, from, to)) == Replay(s0, steps[..to])
    decreases from
  {
    if from > to {
      var rest := SeekWrites(steps, from - 1, to);
      assert SeekWrites(steps, from, to) == OldWrites(steps[from - 1]) + rest;
      SeekBackwardReaches(s0, steps, from - 1, to);
      StoreAllAppend(Replay(s0, steps[..from]), OldWrites(steps[from - 1]), rest);
    } else {
      assert SeekWrites(steps, from, to) == [];
    }
  }

  /** Seeking from the state of one position reaches the state of the other. */
  lemma SeekReaches(s0: Snapshot, steps: seq<Step>, from: nat, to: nat)
    requires s0.Valid() && Recorded(s0, steps) && Undoable(steps)
    requires from <= |steps| && to <= |steps|
    ensures StoreAll(Replay(s0, steps[..from]), SeekWrites(steps, from, to)) == Replay(s0, steps[..to])
  {
    if from <= to {
      SeekForwardReaches(s0, steps, from, to);
    } else {
      forall k | to <= k < from
        ensures StoreAll(Replay(s0, steps[..k + 1]), OldWrites(steps[k])) == Replay(s0, steps[..k])
      {
        StepBack(s0, steps, k);
      }
      SeekBackwardReaches(s0, steps, from, to);
    }
  }

  /** k, then j, then k again: the state at k is restored. */
  lemma SeekThereAndBack(s0: Snapshot, steps: seq<Step>, k: nat, j: nat)
    requires s0.Valid() && Recorded(s0, steps) && Undoable(steps)
    requires k <= |steps| && j <= |steps|
    ensures StoreAll(StoreAll(Replay(s0, steps[..k]), SeekWrites(steps, k, j)), SeekWrites(steps, j, k))
         == Replay(s0, steps[..k])
  {
    SeekReaches(s0, steps, k, j);
    SeekReaches(s0, steps, j, k);
  }

  /** Every seek write names a location of a step between the two positions. */
  lemma {:induction false} SeekWritesLocations(steps: seq<Step>, from: nat, to: nat, i: nat)
    requires from <= |steps| && to <= |steps| && i < |SeekWrites(steps, from, to)|
    ensures exists k, n :: (from <= k < to || to <= k < from) && 0 <= n < |steps[k]|
                        && steps[k][n].addr == SeekWrites(steps, from, to)[i].addr
    decreases if from <= to then to - from else from - to
  {
    if from < to {
      var here := NewWrites(steps[from]);
      if i < |here| {
        assert SeekWrites(steps, from, to)[i] == here[i];
        assert steps[from][i].addr == here[i].addr;
      } else {
        SeekWritesLocations(steps, from + 1, to, i - |here|);
        assert SeekWrites(steps, from, to)[i] == SeekWrites(steps, from + 1, to)[i - |here|];
      }
    } else if from > to {
      var here := OldWrites(steps[from - 1]);
      if i < |here| {
        assert SeekWrites(steps, from, to)[i] == here[i];
        assert steps[from - 1][i].addr == here[i].addr;
      } else {
        SeekWritesLocations(steps, from - 1, to, i - |here|);
        assert SeekWrites(steps, from, to)[i] == SeekWrites(steps, from - 1, to)[i - |here|];
      }
    }
  }

  /** A location no traversed step names keeps its value during a seek. */
  lemma SeekKeepsOtherLocations(s: Snapshot, steps: seq<Step>, from: nat, to: nat, a: int)
    requires from <= |steps| && to <= |steps|
    requires forall k, n :: (from <= k < to || to <= k < from) && 0 <= n < |steps[k]| ==> steps[k][n].addr != a
    ensures StoreAll(s, SeekWrites(steps, from, to)).Lookup(a) == s.Lookup(a)
  {
    var ws := SeekWrites(steps, from, to);
    forall i | 0 <= i < |ws|
      ensures ws[i].addr != a
    {
      SeekWritesLocations(steps, from, to, i);
    }
    StoreAllUntouched(s, ws, a);
  }

  /** Seeking to the current position writes nothing. */
  lemma SeekInPlace(steps: seq<Step>, p: nat)
    requires p <= |steps|
    ensures SeekWrites(steps, p, p) == []
  {
  }

  /** Going forward one more step appends that step's new values. */
  lemma {:induction false} SeekForwardExtends(steps: seq<Step>, from: nat, c: nat)
    requires from <= c < |steps|
    ensures SeekWrites(steps, from, c + 1) == SeekWrites(steps, from, c) + NewWrites(steps[c])
    decreases c - from
  {
    if from < c {
      SeekForwardExtends(steps, from + 1, c);
    }
  }

  /** Going back one more step appends that step's old values. */
  lemma {:induction false} SeekBackwardExtends(steps: seq<Step>, from: nat, c: nat)
    requires 0 < c <= from <= |steps|
    ensures SeekWrites(steps, from, c - 1) == SeekWrites(steps, from, c) + OldWrites(steps[c - 1])
    decreases from - c
  {
    if c < from {
      SeekBackwardExtends(steps, from - 1, c);
    }
  }

  /** One more write: the log and the state after it. */
  lemma RecordSnoc(s: Snapshot, ws: seq<Write>, w: Write)
    ensures Record(s, ws + [w]) == Record(s, ws) + [Update(w.addr, StoreAll(s, ws).Lookup(w.addr), w.value)]
    ensures StoreAll(s, ws + [w]) == StoreAll(s, ws).Store(w.addr, w.value)
  {
    assert (ws + [w])[..|ws|] == ws;
  }

  /** The log and the state after a single write. */
  lemma RecordOne(s: Snapshot, w: Write)
    ensures Record(s, [w]) == [Update(w.addr, s.Lookup(w.addr), w.value)]
    ensures StoreAll(s, [w]) == s.Store(w.addr, w.value)
  {
    assert [w][..0] == [];
  }

  /** The log and the state after two writes in a row. */
  lemma RecordTwo(s: Snapshot, w0: Write, w1: Write)
    ensures var t := s.Store(w0.addr, w0.value);
      && Record(s, [w0, w1]) == [Update(w0.addr, s.Lookup(w0.addr), w0.value), Update(w1.addr, t.Lookup(w1.addr), w1.value)]
      && StoreAll(s, [w0, w1]) == t.Store(w1.addr, w1.value)
  {
    RecordOne(s, w0);
    RecordSnoc(s, [w0], w1);
    assert [w0] + [w1] == [w0, w1];
  }

  /** Extending a consistent step by a logged write keeps it consistent. */
  lemma ConsistentSnoc(s: Snapshot, step: Step, addr: int, value: int)
    requires Consistent(s, step)
    ensures var u := Update(addr, StoreAll(s, NewWrites(step)).Lookup(addr), value);
      Consistent(s, step + [u]) &&
      StoreAll(s, NewWrites(step + [u])) == StoreAll(s, NewWrites(step)).Store(addr, value)
  {
    var u := Update(addr, StoreAll(s, NewWrites(step)).Lookup(addr), value);
    assert NewWrites(step + [u]) == NewWrites(step) + [Write(addr, value)];
    RecordSnoc(s, NewWrites(step), Write(addr, value));
  }

  /** Committing a consistent pending step keeps the whole log recorded. */
  lemma RecordedSnoc(s0: Snapshot, steps: seq<Step>, step: Step)
    requires Recorded(s0, steps) && Consistent(Replay(s0, steps), step)
    ensures Recorded(s0, steps + [step])
    ensures Replay(s0, steps + [step]) == StoreAll(Replay(s0, steps), NewWrites(step))
  {
    var all := steps + [step];
    assert all[..|steps|] == steps;
    forall k | 0 <= k < |all|
      ensures Consistent(Replay(s0, all[..k]), all[k])
    {
      if k < |steps| {
        assert all[..k] == steps[..k];
      }
    }
  }
}
