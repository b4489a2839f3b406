/**
 * The two passes of LabelResolver.java over the parsed lines: pass 1
 * records every label definition (a second definition of the same label is
 * an error) and removes the lines that only define a label; pass 2 replaces
 * the argument of every line that names a label by that label's address
 * (a label nobody defines is an error).  Because pass 2 starts after pass 1
 * is complete, a line may use a label defined further down.
 */
module LabelResolution {
  import opened Wrappers
  import opened Commands

  /** The two TokenedExceptions `resolve` throws. */
  datatype ResolveError = AlreadyDefined(name: string) | UnknownLabel(name: string)

  /** The exception's message text. */
  function Message(e: ResolveError): string
  {
    match e
    case AlreadyDefined(l) => "Symbol '" + l + "' already defined"
    case UnknownLabel(l) => "Unknown label " + l
  }

  // ------------------------------------------------------------ pass 1

  /** Pass 1 on one line: record its label, unless the map already has it. */
  function AddLabel(m: map<string, int>, c: Command): Result<map<string, int>, ResolveError>
  {
    if c.labelName.None? then Ok(m)
    else if c.labelName.value in m then Err(AlreadyDefined(c.labelName.value))
    else Ok(m[c.labelName.value := c.address])
  }

  /** The label map pass 1 builds from the lines, in order, or the first redefinition. */
  function Collect(cs: seq<Command>): Result<map<string, int>, ResolveError>
  {
    if |cs| == 0 then Ok(map[])
    else
      match Collect(cs[..|cs| - 1])
      case Err(e) => Err(e)
      case Ok(m) => AddLabel(m, cs[|cs| - 1])
  }

  /** The lines pass 1 keeps: those with an instruction, in their order. */
  function Kept(cs: seq<Command>): seq<Command>
  {
    if |cs| == 0 then []
    else Kept(cs[..|cs| - 1]) + (if cs[|cs| - 1].instruction.Some? then [cs[|cs| - 1]] else [])
  }

  /** Some line defines label l. */
  ghost predicate Defines(cs: seq<Command>, l: string)
  {
    exists i :: 0 <= i < |cs| && cs[i].labelName == Some(l)
  }

  /** Two lines define the same label. */
  ghost predicate HasDuplicate(cs: seq<Command>)
  {
    exists i, j :: 0 <= i < j < |cs| && cs[i].labelName.Some? && cs[i].labelName == cs[j].labelName
  }

  // ------------------------------------------------------------ pass 2

  /** One line after pass 2: a label argument replaced by the label's address. */
  function Resolved(c: Command, m: map<string, int>): Result<Command, ResolveError>
  {
    if c.labelArg.None? then Ok(c)
    else if c.labelArg.value in m then Ok(c.UpdateArg(m[c.labelArg.value]))
    else Err(UnknownLabel(c.labelArg.value))
  }

  /** Pass 2 over the lines, in order, stopping at the first unknown label. */
  function Substitute(cs: seq<Command>, m: map<string, int>): Result<seq<Command>, ResolveError>
  {
    if |cs| == 0 then Ok([])
    else
      match Substitute(cs[..|cs| - 1], m)
      case Err(e) => Err(e)
      case Ok(out) =>
        match Resolved(cs[|cs| - 1], m)
        case Err(e) => Err(e)
        case Ok(c) => Ok(out + [c])
  }

  /** Both passes: the lines `resolve` leaves in the list, or the error it throws. */
  function Resolution(cs: seq<Command>): (r: Result<seq<Command>, ResolveError>)
  {
    match Collect(cs)
    case Err(e) => Err(e)
    case Ok(m) => Substitute(Kept(cs), m)
  }

  // ------------------------------------------------------------ the object

  class LabelResolver {
    /** The label map of the last `resolve`; empty before the first. */
    var labelMap: map<string, int>

    constructor ()
      ensures labelMap == map[]
    {
      labelMap := map[];
    }

    function GetLabelMap(): (m: map<string, int>)
      reads this
    {
      labelMap
    }

    /**
     * Both passes over the line list, which Java edits in place through a
     * ListIterator; here the edited list is returned.  On success the
     * label map is the one pass 1 built.
     */
    method Resolve(commands: seq<Command>) returns (r: Result<seq<Command>, ResolveError>)
      modifies this
      ensures r == Resolution(commands)
      ensures r.Ok? ==> labelMap == Collect(commands).value
    {
      var kept := RecordLabels(commands);
      if kept.Err? {
        return Err(kept.error);
      }
      r := SubstituteLabels(kept.value, labelMap);
    }

    /**
     * Pass 1: fill the label map and drop the label-only lines.  Java removes
     * them from the list through its iterator; here the lines that stay are
     * gathered in order instead.
     */
    method RecordLabels(commands: seq<Command>) returns (r: Result<seq<Command>, ResolveError>)
      modifies this
      ensures Collect(commands).Err? ==> r == Err(Collect(commands).error)
      ensures Collect(commands).Ok? ==> r == Ok(Kept(commands)) && labelMap == Collect(commands).value
    {
      labelMap := map[];
      var kept := [];
      for i := 0 to |commands|
        invariant kept == Kept(commands[..i])
        invariant Collect(commands[..i]) == Ok(labelMap)
      {
        var command := commands[i];
        CollectNext(commands, i);
        if command.labelName.Some? {
          if command.labelName.value in labelMap {
            CollectErrPersists(commands, i + 1);
            return Err(AlreadyDefined(command.labelName.value));
          }
          labelMap := labelMap[command.labelName.value := command.address];
        }
        if command.instruction.Some? {
          kept := kept + [command];
        }
      }
      assert commands[..|commands|] == commands;
      return Ok(kept);
    }
  }

  /** Pass 2: replace every label argument by the label's address, in place. */
  method SubstituteLabels(kept: seq<Command>, labelMap: map<string, int>) returns (r: Result<seq<Command>, ResolveError>)
    ensures r == Substitute(kept, labelMap)
  {
    var list := kept;
    for k := 0 to |kept|
      invariant |list| == |kept| && Substitute(kept[..k], labelMap).Ok?
      invariant list[..k] == Substitute(kept[..k], labelMap).value
      invariant forall t :: k <= t < |kept| ==> list[t] == kept[t]
    {
      var command := list[k];
      SubstituteNext(kept, labelMap, k);
      if command.labelArg.Some? {
        if command.labelArg.value !in labelMap {
          SubstituteErrPersists(kept, labelMap, k + 1);
          return Err(UnknownLabel(command.labelArg.value));
        }
        list := list[k := command.UpdateArg(labelMap[command.labelArg.value])];
      }
      assert list[..k + 1] == list[..k] + [list[k]];
    }
    assert kept[..|kept|] == kept && list[..|kept|] == list;
    return Ok(list);
  }

  // ------------------------------------------------------------ lemmas

  /** Once pass 1 fails on a prefix, it fails with that error on the whole list. */
  lemma {:induction false} CollectErrPersists(cs: seq<Command>, k: nat)
    requires k <= |cs| && Collect(cs[..k]).Err?
    ensures Collect(cs) == Collect(cs[..k])
    decreases |cs| - k
  {
    if k < |cs| {
      var p := cs[..|cs| - 1];
      assert p[..k] == cs[..k];
      CollectErrPersists(p, k);
    } else {
      assert cs[..k] == cs;
    }
  }

  /** Once pass 2 fails on a prefix, it fails with that error on the whole list. */
  lemma {:induction false} SubstituteErrPersists(cs: seq<Command>, m: map<string, int>, k: nat)
    requires k <= |cs| && Substitute(cs[..k], m).Err?
    ensures Substitute(cs, m) == Substitute(cs[..k], m)
    decreases |cs| - k
  {
    if k < |cs| {
      var p := cs[..|cs| - 1];
      assert p[..k] == cs[..k];
      SubstituteErrPersists(p, m, k);
    } else {
      assert cs[..k] == cs;
    }
  }

  /** One more line for pass 1: the map grows by that line's label, or the line's label is the error. */
  lemma CollectNext(cs: seq<Command>, i: nat)
    requires i < |cs|
    ensures Collect(cs[..i]).Ok? ==> Collect(cs[..i + 1]) == AddLabel(Collect(cs[..i]).value, cs[i])
    ensures Kept(cs[..i + 1]) == Kept(cs[..i]) + (if cs[i].instruction.Some? then [cs[i]] else [])
  {
    assert cs[..i + 1][..i] == cs[..i];
  }

  /** One more line for pass 2: the line resolved is appended, or its label is the error. */
  lemma SubstituteNext(cs: seq<Command>, m: map<string, int>, k: nat)
    requires k < |cs| && Substitute(cs[..k], m).Ok?
    ensures Substitute(cs[..k + 1], m) ==
      match Resolved(cs[k], m)
      case Err(e) => Err(e)
      case Ok(c) => Ok(Substitute(cs[..k], m).value + [c])
  {
    assert cs[..k + 1][..k] == cs[..k];
  }

  /**
   * When pass 1 succeeds, its map holds exactly the defined labels, each
   * sent to the address of the line that defines it.
   */
  lemma {:induction false} CollectMap(cs: seq<Command>)
    requires Collect(cs).Ok?
    ensures forall l :: l in Collect(cs).value <==> Defines(cs, l)
    ensures forall i :: 0 <= i < |cs| && cs[i].labelName.Some? ==>
      cs[i].labelName.value in Collect(cs).value && Collect(cs).value[cs[i].labelName.value] == cs[i].address
    decreases |cs|
  {
    if |cs| == 0 {
      return;
    }
    var n := |cs| - 1;
    var p := cs[..n];
    CollectMap(p);
    var m := Collect(p).value;
    var m' := Collect(cs).value;
    assert forall i :: 0 <= i < n ==> p[i] == cs[i];
    forall l | Defines(cs, l)
      ensures l in m'
    {
      var i :| 0 <= i < |cs| && cs[i].labelName == Some(l);
      if i < n {
        assert Defines(p, l);
      }
    }
    forall l | l in m'
      ensures Defines(cs, l)
    {
      if l in m {
        var i :| 0 <= i < |p| && p[i].labelName == Some(l);
        assert cs[i].labelName == Some(l);
      } else {
        assert cs[n].labelName == Some(l);
      }
    }
    forall i | 0 <= i < |cs| && cs[i].labelName.Some?
      ensures cs[i].labelName.value in m' && m'[cs[i].labelName.value] == cs[i].address
    {
      if i < n {
        assert Defines(p, cs[i].labelName.value);
      }
    }
  }

  /** Pass 1 fails exactly when two lines define the same label, and then names such a label. */
  lemma {:induction false} CollectFails(cs: seq<Command>)
    ensures Collect(cs).Err? <==> HasDuplicate(cs)
    ensures Collect(cs).Err? ==>
      Collect(cs).error.AlreadyDefined? &&
      exists i, j :: 0 <= i < j < |cs| && cs[i].labelName == cs[j].labelName == Some(Collect(cs).error.name)
    decreases |cs|
  {
    if |cs| == 0 {
      return;
    }
    var n := |cs| - 1;
    var p := cs[..n];
    var c := cs[n];
    CollectFails(p);
    assert forall i :: 0 <= i < n ==> p[i] == cs[i];
    if Collect(p).Err? {
      var i, j :| 0 <= i < j < |p| && p[i].labelName == p[j].labelName == Some(Collect(p).error.name);
      assert cs[i].labelName == cs[j].labelName;
      return;
    }
    CollectMap(p);
    var m := Collect(p).value;
    if c.labelName.Some? && c.labelName.value in m {
      var l := c.labelName.value;
      var i :| 0 <= i < |p| && p[i].labelName == Some(l);
      assert cs[i].labelName == cs[n].labelName == Some(l);
    } else {
      forall i, j | 0 <= i < j < |cs| && cs[i].labelName.Some?
        ensures cs[i].labelName != cs[j].labelName
      {
        if j == n {
          assert Defines(p, cs[i].labelName.value);
        } else {
          assert p[i] == cs[i] && p[j] == cs[j];
        }
      }
    }
  }

  /** Pass 1 keeps lines in order: what it keeps of a concatenation is the concatenation of what it keeps. */
  lemma {:induction false} KeptAppend(a: seq<Command>, b: seq<Command>)
    ensures Kept(a + b) == Kept(a) + Kept(b)
    decreases |b|
  {
    if |b| == 0 {
      assert a + b == a;
    } else {
      var b' := b[..|b| - 1];
      assert (a + b)[..|a + b| - 1] == a + b';
      KeptAppend(a, b');
    }
  }

  /** Pass 1 keeps exactly the lines that carry an instruction, and never more lines than it got. */
  lemma {:induction false} KeptMembers(cs: seq<Command>)
    ensures |Kept(cs)| <= |cs|
    ensures HasInstructions(Kept(cs))
    ensures forall c :: c in Kept(cs) <==> c in cs && c.instruction.Some?
    decreases |cs|
  {
    if |cs| > 0 {
      var p := cs[..|cs| - 1];
      KeptMembers(p);
      assert cs == p + [cs[|cs| - 1]];
    }
  }

  /** A list without label-only lines passes pass 1 unchanged. */
  lemma {:induction false} KeptAll(cs: seq<Command>)
    requires HasInstructions(cs)
    ensures Kept(cs) == cs
    decreases |cs|
  {
    if |cs| > 0 {
      var p := cs[..|cs| - 1];
      KeptAll(p);
      assert cs == p + [cs[|cs| - 1]];
    }
  }

  /**
   * Pass 2 fails exactly when some line names a label the map lacks, and
   * then names such a label; otherwise every line is replaced by its
   * resolved form, in place.
   */
  lemma {:induction false} SubstituteCorrect(cs: seq<Command>, m: map<string, int>)
    ensures Substitute(cs, m).Ok? <==> forall i :: 0 <= i < |cs| && cs[i].labelArg.Some? ==> cs[i].labelArg.value in m
    ensures Substitute(cs, m).Err? ==>
      var e := Substitute(cs, m).error;
      e.UnknownLabel? && e.name !in m && exists i :: 0 <= i < |cs| && cs[i].labelArg == Some(e.name)
    ensures Substitute(cs, m).Ok? ==>
      var out := Substitute(cs, m).value;
      |out| == |cs| && forall i :: 0 <= i < |cs| ==> Resolved(cs[i], m) == Ok(out[i])
    decreases |cs|
  {
    if |cs| == 0 {
      return;
    }
    var n := |cs| - 1;
    var p := cs[..n];
    SubstituteCorrect(p, m);
    assert forall i :: 0 <= i < n ==> p[i] == cs[i];
    if Substitute(p, m).Err? {
      var i :| 0 <= i < |p| && p[i].labelArg == Some(Substitute(p, m).error.name);
      assert cs[i].labelArg == p[i].labelArg;
      return;
    }
    var out := Substitute(p, m).value;
    match Resolved(cs[n], m)
    case Err(e) =>
    case Ok(c) =>
      var out' := out + [c];
      assert Substitute(cs, m) == Ok(out');
      forall i | 0 <= i < |cs|
        ensures Resolved(cs[i], m) == Ok(out'[i])
      {
        if i < n {
          assert out'[i] == out[i];
        }
      }
  }

  /**
   * `resolve` returns exactly the lines that carry an instruction, in
   * order; a line that names a label gets that label's address as its
   * argument, and nothing else about any line changes.
   */
  lemma ResolutionLines(cs: seq<Command>)
    requires Resolution(cs).Ok?
    ensures var out, kept, m := Resolution(cs).value, Kept(cs), Collect(cs).value;
      |out| == |kept| && HasInstructions(out) &&
      forall i :: 0 <= i < |out| ==>
        && out[i].address == kept[i].address && out[i].labelName == kept[i].labelName
        && out[i].instruction == kept[i].instruction && out[i].labelArg == kept[i].labelArg
        && (kept[i].labelArg.None? ==> out[i].valueArg == kept[i].valueArg)
        && (kept[i].labelArg.Some? ==> kept[i].labelArg.value in m && out[i].valueArg == m[kept[i].labelArg.value])
  {
    var m := Collect(cs).value;
    KeptMembers(cs);
    SubstituteCorrect(Kept(cs), m);
    var out := Resolution(cs).value;
    forall i | 0 <= i < |out|
      ensures out[i].instruction.Some?
    {
      assert Kept(cs)[i] in Kept(cs);
    }
  }

  /**
   * `resolve` succeeds exactly when no label is defined twice and every
   * label used by a line with an instruction is defined by some line,
   * before or after it: forward references resolve.
   */
  lemma ResolutionSucceeds(cs: seq<Command>)
    ensures Resolution(cs).Ok? <==>
      !HasDuplicate(cs) &&
      forall i :: 0 <= i < |cs| && cs[i].instruction.Some? && cs[i].labelArg.Some? ==> Defines(cs, cs[i].labelArg.value)
  {
    CollectFails(cs);
    if Collect(cs).Ok? {
      CollectMap(cs);
      var m := Collect(cs).value;
      var kept := Kept(cs);
      KeptMembers(cs);
      SubstituteCorrect(kept, m);
      if Substitute(kept, m).Ok? {
        forall i | 0 <= i < |cs| && cs[i].instruction.Some? && cs[i].labelArg.Some?
          ensures Defines(cs, cs[i].labelArg.value)
        {
          assert cs[i] in kept;
          var k :| 0 <= k < |kept| && kept[k] == cs[i];
        }
      } else {
        var k :| 0 <= k < |kept| && kept[k].labelArg.Some? && kept[k].labelArg.value !in m;
        assert kept[k] in cs;
        var i :| 0 <= i < |cs| && cs[i] == kept[k];
        assert !Defines(cs, cs[i].labelArg.value);
      }
    }
  }

  /** A use of a label that is only defined further down resolves to that later line's address. */
  lemma ForwardReference(use: Command, def: Command)
    requires use.instruction.Some? && use.labelArg.Some? && use.labelName.None?
    requires def.labelName == use.labelArg && def.labelArg.None?
    ensures var out := Resolution([use, def]);
      out.Ok? && |out.value| >= 1 && out.value[0] == use.UpdateArg(def.address)
  {
    var cs := [use, def];
    assert Defines(cs, use.labelArg.value) by { assert cs[1].labelName == use.labelArg; }
    assert !HasDuplicate(cs);
    ResolutionSucceeds(cs);
    CollectMap(cs);
    KeptAppend([use], [def]);
    assert Kept([use]) == [use] by { assert [use][..0] == []; }
    ResolutionLines(cs);
  }
}
