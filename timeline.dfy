/**
 * Time-travel navigation over a recorded run (Timeline.java).  The
 * timeline owns the state it shows; moving to another position replays
 * new values forward or writes old values back, every write going through
 * `Set`, which logs it and tells every listener.
 */
module Navigation {
  import opened Bits
  import opened Constants
  import opened Commands
  import opened Machine
  import opened Journal

  /** One call `memoryChanged(addr, value)` on the listener with that identity. */
  datatype Notification = Notification(listener: nat, addr: int, value: int)

  /** The calls made for the writes: per write, every listener in registration order. */
  function Notifications(listeners: seq<nat>, ws: seq<Write>): seq<Notification>
  {
    if |ws| == 0 then []
    else
      var w := ws[|ws| - 1];
      Notifications(listeners, ws[..|ws| - 1]) + Broadcast(listeners, w)
  }

  /** The calls for one write. */
  function Broadcast(listeners: seq<nat>, w: Write): (calls: seq<Notification>)
    ensures |calls| == |listeners|
    ensures forall j :: 0 <= j < |listeners| ==> calls[j] == Notification(listeners[j], w.addr, w.value)
  {
    seq(|listeners|, j requires 0 <= j < |listeners| => Notification(listeners[j], w.addr, w.value))
  }

  lemma {:induction false} NotificationsAppend(listeners: seq<nat>, a: seq<Write>, b: seq<Write>)
    ensures Notifications(listeners, a + b) == Notifications(listeners, a) + Notifications(listeners, b)
    decreases |b|
  {
    if |b| == 0 {
      assert a + b == a;
    } else {
      var front, w := b[..|b| - 1], b[|b| - 1];
      assert (a + b)[..|a + b| - 1] == a + front && (a + b)[|a + b| - 1] == w;
      NotificationsAppend(listeners, a, front);
      var na, nf, bw := Notifications(listeners, a), Notifications(listeners, front), Broadcast(listeners, w);
      assert Notifications(listeners, a + b) == (na + nf) + bw;
      assert Notifications(listeners, b) == nf + bw;
      assert (na + nf) + bw == na + (nf + bw);
    }
  }

  lemma NotificationsSnoc(listeners: seq<nat>, ws: seq<Write>, w: Write)
    ensures Notifications(listeners, ws + [w]) == Notifications(listeners, ws) + Broadcast(listeners, w)
  {
    assert (ws + [w])[..|ws|] == ws;
  }

  /** Every call names a write and a registered listener. */
  lemma {:induction false} NotificationsName(listeners: seq<nat>, ws: seq<Write>, i: nat)
    requires i < |Notifications(listeners, ws)|
    ensures exists n, j ::
      && 0 <= n < |ws| && 0 <= j < |listeners|
      && Notifications(listeners, ws)[i] == Notification(listeners[j], ws[n].addr, ws[n].value)
    decreases |ws|
  {
    var front := Notifications(listeners, ws[..|ws| - 1]);
    if i < |front| {
      NotificationsName(listeners, ws[..|ws| - 1], i);
      var n, j :| 0 <= n < |ws| - 1 && 0 <= j < |listeners| &&
        front[i] == Notification(listeners[j], ws[..|ws| - 1][n].addr, ws[..|ws| - 1][n].value);
      assert Notifications(listeners, ws)[i] == Notification(listeners[j], ws[n].addr, ws[n].value);
    } else {
      var j := i - |front|;
      assert Notifications(listeners, ws)[i] == Notification(listeners[j], ws[|ws| - 1].addr, ws[|ws| - 1].value);
    }
  }

  /** Performing more writes: state, log and calls all extend. */
  lemma ExtendWrites(s: Snapshot, listeners: seq<nat>, before: seq<Write>, here: seq<Write>)
    ensures StoreAll(s, before + here) == StoreAll(StoreAll(s, before), here)
    ensures Record(s, before + here) == Record(s, before) + Record(StoreAll(s, before), here)
    ensures Notifications(listeners, before + here)
         == Notifications(listeners, before) + Notifications(listeners, here)
  {
    StoreAllAppend(s, before, here);
    RecordAppend(s, before, here);
    NotificationsAppend(listeners, before, here);
  }

  /** Performing `here` after `before`: state, log and calls are those of both. */
  lemma MoreWrites(s: Snapshot, log: Step, calls: seq<Notification>, listeners: seq<nat>,
                   before: seq<Write>, here: seq<Write>, after: seq<Write>,
                   st: Snapshot, cu: Step, nt: seq<Notification>,
                   st': Snapshot, cu': Step, nt': seq<Notification>)
    requires after == before + here
    requires st == StoreAll(s, before)
    requires cu == log + Record(s, before)
    requires nt == calls + Notifications(listeners, before)
    requires st' == StoreAll(st, here)
    requires cu' == cu + Record(st, here)
    requires nt' == nt + Notifications(listeners, here)
    ensures st' == StoreAll(s, after)
    ensures cu' == log + Record(s, after)
    ensures nt' == calls + Notifications(listeners, after)
  {
    ExtendWrites(s, listeners, before, here);
    Associative(log, Record(s, before), Record(st, here));
    Associative(calls, Notifications(listeners, before), Notifications(listeners, here));
  }

  lemma Associative<T>(a: seq<T>, b: seq<T>, c: seq<T>)
    ensures a + b + c == a + (b + c)
  {
  }

  /**
   * From state `s`, log `log` and calls `calls`, performing the writes `ws`
   * through Set gives state `st`, log `cu` and calls `nt`.
   */
  ghost predicate Reached(s: Snapshot, log: Step, calls: seq<Notification>, listeners: seq<nat>,
                          ws: seq<Write>, st: Snapshot, cu: Step, nt: seq<Notification>)
  {
    && st == StoreAll(s, ws)
    && cu == log + Record(s, ws)
    && nt == calls + Notifications(listeners, ws)
  }

  /** One more step forward reaches the next seek position. */
  lemma ForwardStep(s: Snapshot, log: Step, calls: seq<Notification>, listeners: seq<nat>,
                    steps: seq<Step>, p0: nat, c: nat,
                    st: Snapshot, cu: Step, nt: seq<Notification>,
                    st': Snapshot, cu': Step, nt': seq<Notification>)
    requires p0 <= c < |steps|
    requires Reached(s, log, calls, listeners, SeekWrites(steps, p0, c), st, cu, nt)
    requires Reached(st, cu, nt, listeners, NewWrites(steps[c]), st', cu', nt')
    ensures Reached(s, log, calls, listeners, SeekWrites(steps, p0, c + 1), st', cu', nt')
  {
    SeekForwardExtends(steps, p0, c);
    MoreWrites(s, log, calls, listeners, SeekWrites(steps, p0, c), NewWrites(steps[c]),
               SeekWrites(steps, p0, c + 1), st, cu, nt, st', cu', nt');
  }

  /** One more step back, likewise. */
  lemma BackwardStep(s: Snapshot, log: Step, calls: seq<Notification>, listeners: seq<nat>,
                     steps: seq<Step>, p0: nat, c: nat,
                     st: Snapshot, cu: Step, nt: seq<Notification>,
                     st': Snapshot, cu': Step, nt': seq<Notification>)
    requires 0 < c <= p0 <= |steps|
    requires Reached(s, log, calls, listeners, SeekWrites(steps, p0, c), st, cu, nt)
    requires Reached(st, cu, nt, listeners, OldWrites(steps[c - 1]), st', cu', nt')
    ensures Reached(s, log, calls, listeners, SeekWrites(steps, p0, c - 1), st', cu', nt')
  {
    SeekBackwardExtends(steps, p0, c);
    MoreWrites(s, log, calls, listeners, SeekWrites(steps, p0, c), OldWrites(steps[c - 1]),
               SeekWrites(steps, p0, c - 1), st, cu, nt, st', cu', nt');
  }

  function Min(a: int, b: int): int { if a <= b then a else b }

  /** The steps of a timeline name only addresses the state has. */
  predicate AllInRange(steps: seq<Step>)
  {
    forall k :: 0 <= k < |steps| ==> InRangeStep(steps[k])
  }

  class Timeline {
    var updates: seq<Step>
    var curUpdates: Step
    const fileContent: string
    const commands: seq<Command>
    const state: State
    var currentPosition: int
    var listeners: seq<nat>
    /** The listener calls made so far, oldest first. */
    var notifications: seq<Notification>
    /** The state at position 0. */
    ghost const origin: Snapshot

    ghost predicate Valid()
      reads this, state
    {
      state.Valid() && origin.Valid() && 0 <= currentPosition <= |updates|
    }

    /** The live state is the start with steps [0, position) applied. */
    ghost predicate Synced()
      reads this, state, state.mem
      requires Valid()
    {
      state.Value() == Replay(origin, updates[..currentPosition])
    }

    /** The log can be walked both ways: recorded from the start, each step undoable. */
    ghost predicate Navigable()
      reads this
    {
      Recorded(origin, updates) && Undoable(updates)
    }

    /** A timeline over prebuilt steps, at position 0, showing the given state. */
    constructor (steps: seq<Step>, fileContent: string, commands: seq<Command>, state: State)
      requires state.Valid()
      ensures Valid() && Synced()
      ensures updates == steps && curUpdates == [] && currentPosition == 0
      ensures listeners == [] && notifications == []
      ensures this.fileContent == fileContent && this.commands == commands && this.state == state
      ensures origin == state.Value()
    {
      updates := steps;
      curUpdates := [];
      this.fileContent := fileContent;
      this.commands := commands;
      this.state := state;
      currentPosition := 0;
      listeners := [];
      notifications := [];
      origin := state.Value();
    }

    /** Writes a location, logs the update and notifies every listener. */
    method Set(addr: int, val: int)
      requires Valid() && InRange(addr)
      modifies this, state, state.mem
      ensures Valid()
      ensures state.Value() == old(state.Value()).Store(addr, val)
      ensures curUpdates == old(curUpdates) + [Update(addr, old(state.Value()).Lookup(addr), val)]
      ensures notifications == old(notifications) + Broadcast(listeners, Write(addr, val))
      ensures updates == old(updates) && currentPosition == old(currentPosition)
      ensures listeners == old(listeners)
    {
      var curVal := state.Get(addr);
      curUpdates := curUpdates + [Update(addr, curVal, val)];
      state.Set(addr, val);
      ghost var before := notifications;
      for i := 0 to |listeners|
        invariant listeners == old(listeners) && updates == old(updates)
        invariant currentPosition == old(currentPosition)
        invariant curUpdates == old(curUpdates) + [Update(addr, curVal, val)]
        invariant state.Value() == old(state.Value()).Store(addr, val)
        invariant notifications == before + Broadcast(listeners, Write(addr, val))[..i]
      {
        notifications := notifications + [Notification(listeners[i], addr, val)];
        assert Broadcast(listeners, Write(addr, val))[..i + 1]
            == Broadcast(listeners, Write(addr, val))[..i] + [Notification(listeners[i], addr, val)];
      }
      assert Broadcast(listeners, Write(addr, val))[..|listeners|] == Broadcast(listeners, Write(addr, val));
    }

    /** Advances IAR by one, modulo 2^20. */
    method IncIAR()
      requires Valid()
      modifies this, state, state.mem
      ensures Valid()
      ensures var next := AddressBits(old(state.iar) + 1);
        state.Value() == old(state.Value()).Store(IAR, next) &&
        curUpdates == old(curUpdates) + [Update(IAR, old(state.iar), next)] &&
        notifications == old(notifications) + Broadcast(listeners, Write(IAR, next))
      ensures state.iar == (old(state.iar) + 1) % ADDRESS_RANGE
      ensures updates == old(updates) && currentPosition == old(currentPosition)
      ensures listeners == old(listeners)
    {
      Set(IAR, AddressBits(state.Get(IAR) + 1));
    }

    /** Closes the pending step and moves past it. */
    method Commit()
      requires Valid()
      modifies this
      ensures Valid()
      ensures updates == old(updates) + [old(curUpdates)] && curUpdates == []
      ensures currentPosition == old(currentPosition) + 1
      ensures listeners == old(listeners) && notifications == old(notifications)
    {
      updates := updates + [curUpdates];
      curUpdates := [];
      currentPosition := currentPosition + 1;
    }

    method AddListener(listener: nat)
      modifies this
      ensures listeners == old(listeners) + [listener]
      ensures updates == old(updates) && curUpdates == old(curUpdates)
      ensures currentPosition == old(currentPosition) && notifications == old(notifications)
    {
      listeners := listeners + [listener];
    }

    /** Writes the given writes in order through Set. */
    method WriteAll(ws: seq<Write>)
      requires Valid() && forall i :: 0 <= i < |ws| ==> InRange(ws[i].addr)
      modifies this, state, state.mem
      ensures Valid()
      ensures state.Value() == StoreAll(old(state.Value()), ws)
      ensures curUpdates == old(curUpdates) + Record(old(state.Value()), ws)
      ensures notifications == old(notifications) + Notifications(listeners, ws)
      ensures updates == old(updates) && currentPosition == old(currentPosition)
      ensures listeners == old(listeners)
    {
      ghost var s := state.Value();
      ghost var log := curUpdates;
      ghost var calls := notifications;
      for i := 0 to |ws|
        invariant Valid() && updates == old(updates) && currentPosition == old(currentPosition)
        invariant listeners == old(listeners)
        invariant state.Value() == StoreAll(s, ws[..i])
        invariant curUpdates == log + Record(s, ws[..i])
        invariant notifications == calls + Notifications(listeners, ws[..i])
      {
        assert ws[..i + 1] == ws[..i] + [ws[i]];
        RecordSnoc(s, ws[..i], ws[i]);
        NotificationsSnoc(listeners, ws[..i], ws[i]);
        Set(ws[i].addr, ws[i].value);
      }
      assert ws[..|ws|] == ws;
    }

    /** Replays the step at the current position and moves past it. */
    method IncrementPosition()
      requires Valid() && currentPosition < |updates| && InRangeStep(updates[currentPosition])
      modifies this, state, state.mem
      ensures Valid()
      ensures var ws := NewWrites(old(updates)[old(currentPosition)]);
        state.Value() == StoreAll(old(state.Value()), ws) &&
        curUpdates == old(curUpdates) + Record(old(state.Value()), ws) &&
        notifications == old(notifications) + Notifications(listeners, ws)
      ensures currentPosition == old(currentPosition) + 1
      ensures updates == old(updates) && listeners == old(listeners)
    {
      WriteAll(NewWrites(updates[currentPosition]));
      currentPosition := currentPosition + 1;
    }

    /** Moves before the previous step and writes its old values, in recorded order. */
    method DecrementPosition()
      requires Valid() && 0 < currentPosition && InRangeStep(updates[currentPosition - 1])
      modifies this, state, state.mem
      ensures Valid()
      ensures var ws := OldWrites(old(updates)[old(currentPosition) - 1]);
        state.Value() == StoreAll(old(state.Value()), ws) &&
        curUpdates == old(curUpdates) + Record(old(state.Value()), ws) &&
        notifications == old(notifications) + Notifications(listeners, ws)
      ensures currentPosition == old(currentPosition) - 1
      ensures updates == old(updates) && listeners == old(listeners)
    {
      currentPosition := currentPosition - 1;
      WriteAll(OldWrites(updates[currentPosition]));
    }

    /**
     * Moves to a position, clamped to the number of steps.  The writes are
     * those of SeekWrites; on a navigable log a synced timeline stays synced.
     */
    method SetPosition(position: int)
      requires Valid() && position >= 0 && AllInRange(updates)
      modifies this, state, state.mem
      ensures updates == old(updates) && listeners == old(listeners)
      ensures Valid()
      ensures currentPosition == Min(|updates|, position)
      ensures var ws := SeekWrites(updates, old(currentPosition), currentPosition);
        state.Value() == StoreAll(old(state.Value()), ws) &&
        curUpdates == old(curUpdates) + Record(old(state.Value()), ws) &&
        notifications == old(notifications) + Notifications(listeners, ws)
      ensures old(Synced()) && Navigable() ==> Synced()
    {
      var target := Min(|updates|, position);
      if currentPosition < target {
        MoveForwardTo(target);
      } else {
        MoveBackTo(target);
      }
      if old(Synced()) && Navigable() {
        SeekReaches(origin, updates, old(currentPosition), currentPosition);
      }
    }

    /** The forward loop of setPosition. */
    method MoveForwardTo(target: int)
      requires Valid() && currentPosition <= target <= |updates| && AllInRange(updates)
      modifies this, state, state.mem
      ensures updates == old(updates) && listeners == old(listeners)
      ensures Valid() && currentPosition == target
      ensures var ws := SeekWrites(updates, old(currentPosition), target);
        state.Value() == StoreAll(old(state.Value()), ws) &&
        curUpdates == old(curUpdates) + Record(old(state.Value()), ws) &&
        notifications == old(notifications) + Notifications(listeners, ws)
    {
      ghost var p0 := currentPosition;
      ghost var s := state.Value();
      ghost var log := curUpdates;
      ghost var calls := notifications;
      while currentPosition < target
        invariant Valid() && p0 <= currentPosition <= target
        invariant updates == old(updates) && listeners == old(listeners)
        invariant Reached(s, log, calls, listeners, SeekWrites(updates, p0, currentPosition),
                          state.Value(), curUpdates, notifications)
        decreases target - currentPosition
      {
        StepForward(s, log, calls, p0);
      }
    }

    /** The backward loop of setPosition. */
    method MoveBackTo(target: int)
      requires Valid() && 0 <= target <= currentPosition && AllInRange(updates)
      modifies this, state, state.mem
      ensures updates == old(updates) && listeners == old(listeners)
      ensures Valid() && currentPosition == target
      ensures var ws := SeekWrites(updates, old(currentPosition), target);
        state.Value() == StoreAll(old(state.Value()), ws) &&
        curUpdates == old(curUpdates) + Record(old(state.Value()), ws) &&
        notifications == old(notifications) + Notifications(listeners, ws)
    {
      ghost var p0 := currentPosition;
      ghost var s := state.Value();
      ghost var log := curUpdates;
      ghost var calls := notifications;
      while currentPosition > target
        invariant Valid() && target <= currentPosition <= p0
        invariant updates == old(updates) && listeners == old(listeners)
        invariant Reached(s, log, calls, listeners, SeekWrites(updates, p0, currentPosition),
                          state.Value(), curUpdates, notifications)
        decreases currentPosition - target
      {
        StepBack(s, log, calls, p0);
      }
    }

    /** incrementPosition, tracking how far the seek from `p0` has got. */
    method StepForward(ghost s: Snapshot, ghost log: Step, ghost calls: seq<Notification>, ghost p0: nat)
      requires Valid() && p0 <= currentPosition < |updates| && InRangeStep(updates[currentPosition])
      requires Reached(s, log, calls, listeners, SeekWrites(updates, p0, currentPosition),
                       state.Value(), curUpdates, notifications)
      modifies this, state, state.mem
      ensures Valid() && currentPosition == old(currentPosition) + 1
      ensures updates == old(updates) && listeners == old(listeners)
      ensures Reached(s, log, calls, listeners, SeekWrites(updates, p0, currentPosition),
                      state.Value(), curUpdates, notifications)
    {
      ghost var st, cu, nt := state.Value(), curUpdates, notifications;
      ghost var c := currentPosition;
      IncrementPosition();
      ForwardStep(s, log, calls, listeners, updates, p0, c, st, cu, nt, state.Value(), curUpdates, notifications);
    }

    /** decrementPosition, likewise. */
    method StepBack(ghost s: Snapshot, ghost log: Step, ghost calls: seq<Notification>, ghost p0: nat)
      requires Valid() && 0 < currentPosition <= p0 <= |updates| && InRangeStep(updates[currentPosition - 1])
      requires Reached(s, log, calls, listeners, SeekWrites(updates, p0, currentPosition),
                       state.Value(), curUpdates, notifications)
      modifies this, state, state.mem
      ensures Valid() && currentPosition == old(currentPosition) - 1
      ensures updates == old(updates) && listeners == old(listeners)
      ensures Reached(s, log, calls, listeners, SeekWrites(updates, p0, currentPosition),
                      state.Value(), curUpdates, notifications)
    {
      ghost var st, cu, nt := state.Value(), curUpdates, notifications;
      ghost var c := currentPosition;
      DecrementPosition();
      BackwardStep(s, log, calls, listeners, updates, p0, c, st, cu, nt, state.Value(), curUpdates, notifications);
    }

    function GetPosition(): (p: int)
      reads this
      ensures p == currentPosition
    {
      currentPosition
    }

    function Size(): (n: int)
      reads this
      ensures n == |updates|
    {
      |updates|
    }
  }
}
