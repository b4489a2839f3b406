/**
 * The breakpoint manager of the GUI (BreakpointManager.java): for every
 * resource the set of lines carrying a breakpoint.  The sets are tree sets,
 * so they are kept here as strictly ascending sequences; the observers the
 * manager notifies are a log of the resources it announced.
 */
module Breakpoints {

  // ------------------------------------------------------------ sorted line sets

  /** Strictly ascending: the iteration order of a tree set of ints. */
  predicate Ascending(s: seq<int>)
  {
    forall i, j :: 0 <= i < j < |s| ==> s[i] < s[j]
  }

  /** A tree set's `add`: the line is in the result and nothing else changes. */
  function Insert(s: seq<int>, x: int): (t: seq<int>)
    requires Ascending(s)
    ensures Ascending(t)
    ensures forall y :: y in t <==> y in s || y == x
    decreases |s|
  {
    if |s| == 0 then [x]
    else if x < s[0] then [x] + s
    else if x == s[0] then s
    else
      AscendingHead(s);
      var t := Insert(s[1..], x);
      ConsAscending(s[0], t);
      [s[0]] + t
  }

  /** A tree set's `remove`: the line is gone and nothing else changes. */
  function Delete(s: seq<int>, x: int): (t: seq<int>)
    requires Ascending(s)
    ensures Ascending(t)
    ensures forall y :: y in t <==> y in s && y != x
    decreases |s|
  {
    if |s| == 0 then []
    else if s[0] == x then s[1..]
    else
      AscendingHead(s);
      var t := Delete(s[1..], x);
      ConsAscending(s[0], t);
      [s[0]] + t
  }

  lemma ConsAscending(a: int, t: seq<int>)
    requires Ascending(t) && forall y :: y in t ==> a < y
    ensures Ascending([a] + t)
  {
    forall j | 0 < j < |[a] + t|
      ensures a < ([a] + t)[j]
    {
      assert t[j - 1] in t;
    }
  }

  /** The first element of an ascending sequence is below all the others. */
  lemma AscendingHead(s: seq<int>)
    requires Ascending(s) && |s| > 0
    ensures Ascending(s[1..])
    ensures forall y :: y in s[1..] ==> s[0] < y
  {
    forall y | y in s[1..]
      ensures s[0] < y
    {
      var i :| 0 <= i < |s[1..]| && s[1..][i] == y;
      assert s[i + 1] == y;
    }
  }

  /** An ascending sequence is fixed by its elements. */
  lemma {:induction false} AscendingUnique(s: seq<int>, t: seq<int>)
    requires Ascending(s) && Ascending(t)
    requires forall y :: y in s <==> y in t
    ensures s == t
    decreases |s|
  {
    assert |s| > 0 ==> s[0] in s && s[0] in t;
    assert |t| > 0 ==> t[0] in t && t[0] in s;
    if |s| > 0 && |t| > 0 {
      assert s[0] == t[0];
      AscendingHead(s);
      AscendingHead(t);
      forall y
        ensures y in s[1..] <==> y in t[1..]
      {
        assert y in s <==> y == s[0] || y in s[1..];
        assert y in t <==> y == t[0] || y in t[1..];
      }
      AscendingUnique(s[1..], t[1..]);
      assert s == [s[0]] + s[1..] && t == [t[0]] + t[1..];
    }
  }

  // ------------------------------------------------------------ the collection

  /** Every resource's lines are kept as a tree set. */
  predicate Sorted<R>(c: map<R, seq<int>>)
  {
    forall r :: r in c ==> Ascending(c[r])
  }

  /** The lines of a resource: none when the resource was never used. */
  function Lines<R>(c: map<R, seq<int>>, r: R): seq<int>
  {
    if r in c then c[r] else []
  }

  /** The collection after adding `line` to `r`, creating the set first when `r` has none. */
  function Added<R>(c: map<R, seq<int>>, r: R, line: int): map<R, seq<int>>
    requires Sorted(c)
  {
    c[r := Insert(Lines(c, r), line)]
  }

  /** The collection after removing `line` from `r`; an empty set stays in place. */
  function Removed<R>(c: map<R, seq<int>>, r: R, line: int): map<R, seq<int>>
    requires Sorted(c)
  {
    if r in c then c[r := Delete(c[r], line)] else c
  }

  /**
   * What the observers are told: the resource when the line was set before
   * the operation.  Removing and, as written, adding both announce this.
   */
  function Notice<R>(c: map<R, seq<int>>, r: R, line: int): seq<R>
  {
    if line in Lines(c, r) then [r] else []
  }

  class BreakpointManager<R(==)> {
    var collection: map<R, seq<int>>
    /** The resources passed to the observers, oldest first. */
    var notified: seq<R>

    ghost predicate Valid()
      reads this
    {
      Sorted(collection)
    }

    /** No breakpoints and no notifications. */
    constructor ()
      ensures Valid() && collection == map[] && notified == []
    {
      collection := map[];
      notified := [];
    }

    /** Sets a breakpoint; the observers hear of it only when it was set already. */
    method AddBreakpoint(r: R, line: int)
      requires Valid()
      modifies this
      ensures Valid()
      ensures collection == Added(old(collection), r, line)
      ensures notified == old(notified) + Notice(old(collection), r, line)
    {
      var list: seq<int>;
      if r !in collection {
        list := [];
        collection := collection[r := list];
      } else {
        list := collection[r];
      }
      var isNew := line in list;
      collection := collection[r := Insert(list, line)];
      if isNew {
        notified := notified + [r];
      }
    }

    /** Clears a breakpoint; the observers hear of it when it had been set. */
    method RemoveBreakpoint(r: R, line: int)
      requires Valid()
      modifies this
      ensures Valid()
      ensures collection == Removed(old(collection), r, line)
      ensures notified == old(notified) + Notice(old(collection), r, line)
    {
      if r in collection {
        var list := collection[r];
        var hasBeenPresent := line in list;
        collection := collection[r := Delete(list, line)];
        if hasBeenPresent {
          notified := notified + [r];
        }
      }
    }

    /** The lines of a resource in ascending order, each once; none for an unknown resource. */
    method GetBreakpoints(r: R) returns (lines: seq<int>)
      requires Valid()
      ensures lines == Lines(collection, r) && Ascending(lines)
      ensures r !in collection ==> lines == []
    {
      if r !in collection {
        lines := [];
      } else {
        lines := collection[r];
      }
    }

    /** Whether a breakpoint is set at the line. */
    method HasBreakpoint(r: R, line: int) returns (b: bool)
      requires Valid()
      ensures b <==> line in Lines(collection, r)
    {
      var lines := GetBreakpoints(r);
      b := line in lines;
    }
  }

  // ------------------------------------------------------------ properties

  /**
   * After adding, the line is set; the lines of the resource are the old
   * ones with this line; adding it again changes nothing.
   */
  lemma AddThenHas<R>(c: map<R, seq<int>>, r: R, line: int)
    requires Sorted(c)
    ensures Sorted(Added(c, r, line))
    ensures line in Lines(Added(c, r, line), r)
    ensures forall y :: y in Lines(Added(c, r, line), r) <==> y in Lines(c, r) || y == line
    ensures Added(Added(c, r, line), r, line) == Added(c, r, line)
    ensures line in Lines(c, r) ==> Added(c, r, line) == c
  {
    var c1 := Added(c, r, line);
    AscendingUnique(Insert(Lines(c1, r), line), Lines(c1, r));
    if line in Lines(c, r) {
      AscendingUnique(Insert(Lines(c, r), line), Lines(c, r));
      assert c[r := c[r]] == c;
    }
  }

  /**
   * After removing, the line is not set; removing a line that is not set
   * leaves the collection as it was.
   */
  lemma RemoveThenNotHas<R>(c: map<R, seq<int>>, r: R, line: int)
    requires Sorted(c)
    ensures Sorted(Removed(c, r, line))
    ensures line !in Lines(Removed(c, r, line), r)
    ensures forall y :: y in Lines(Removed(c, r, line), r) <==> y in Lines(c, r) && y != line
    ensures line !in Lines(c, r) ==> Removed(c, r, line) == c
  {
    if r in c && line !in c[r] {
      AscendingUnique(Delete(c[r], line), c[r]);
      assert c[r := c[r]] == c;
    }
  }

  /** Adding and removing touch only the one line of the one resource. */
  lemma OthersUnchanged<R>(c: map<R, seq<int>>, r: R, line: int, r': R, line': int)
    requires Sorted(c) && (r' != r || line' != line)
    ensures line' in Lines(Added(c, r, line), r') <==> line' in Lines(c, r')
    ensures line' in Lines(Removed(c, r, line), r') <==> line' in Lines(c, r')
    ensures r' != r ==> Lines(Added(c, r, line), r') == Lines(c, r') && Lines(Removed(c, r, line), r') == Lines(c, r')
  {
  }

  /** Removing a line just added restores the resource's lines. */
  lemma AddRemove<R>(c: map<R, seq<int>>, r: R, line: int)
    requires Sorted(c) && line !in Lines(c, r)
    ensures Lines(Removed(Added(c, r, line), r, line), r) == Lines(c, r)
  {
    AddThenHas(c, r, line);
    var s := Lines(Removed(Added(c, r, line), r, line), r);
    AscendingUnique(s, Lines(c, r));
  }

  /**
   * As written, adding a line that was not set yet announces nothing, and
   * re-adding one that was set announces the resource.
   */
  lemma AddNoticeOnlyWhenPresent<R>(c: map<R, seq<int>>, r: R, line: int)
    requires Sorted(c)
    ensures Notice(c, r, line) == [] <==> Added(c, r, line) != c
  {
    AddThenHas(c, r, line);
    if line !in Lines(c, r) {
      assert line in Lines(Added(c, r, line), r);
    }
  }

  /** What adding evidently means to announce: the resource, when the line was not set before. */
  function IntendedAddNotice<R>(c: map<R, seq<int>>, r: R, line: int): seq<R>
  {
    if line in Lines(c, r) then [] else [r]
  }

  /** As intended, adding announces the resource exactly when the collection changes, as removing does. */
  lemma IntendedAddNoticeWhenChanged<R>(c: map<R, seq<int>>, r: R, line: int)
    requires Sorted(c)
    ensures IntendedAddNotice(c, r, line) == [r] <==> Added(c, r, line) != c
    ensures IntendedAddNotice(c, r, line) == [r] <==> Notice(c, r, line) == []
  {
    AddNoticeOnlyWhenPresent(c, r, line);
  }

  /** Removing announces the resource exactly when the collection changes. */
  lemma RemoveNoticeWhenChanged<R>(c: map<R, seq<int>>, r: R, line: int)
    requires Sorted(c)
    ensures Notice(c, r, line) == [r] <==> Removed(c, r, line) != c
  {
    RemoveThenNotHas(c, r, line);
    if line in Lines(c, r) {
      assert line !in Lines(Removed(c, r, line), r);
    }
  }
}
