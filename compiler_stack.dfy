/**
 * The scratch cells the compiled code uses.  A binary expression and a
 * condition park their first operand in the cell one above the stack
 * pointer and name that cell again when they combine it with the second
 * operand; the condition of a `while` names the literal cell X0 instead.
 * Unary operators other than "~" and "*" and names that are not local are
 * dealt with here too.
 */
module CompilerStack {
  import opened Wrappers
  import opened Text
  import opened BoundedStacks
  import opened Compiler
  import opened CompilerLabels

  // ------------------------------------------------------------ binary expressions

  /**
   * A binary expression that compiles parks its first operand in X(p + 1),
   * right after that operand's code, and its last line applies the operator
   * to the same cell; the label counter is untouched.
   */
  lemma BinSameSlot(e: Expr, env: Env, p: int, em: Emitter)
    requires e.Bin? && BinCode(e, env, p, em).Ok?
    ensures ExprCode(e.arg1, env, p, em).Ok? && p + 1 < STACK_BOUND && BinOp(e.op).Some?
    ensures var k, out, x := |ExprCode(e.arg1, env, p, em).value.lines|, BinCode(e, env, p, em).value, SlotName(p + 1);
      k + 1 < |out.lines| && out.lines[k] == "  STV " + x &&
      out.lines[|out.lines| - 1] == BinOp(e.op).value + x && out.labelCounter == em.labelCounter
  {
    var r1 := ExprCode(e.arg1, env, p, em).value;
    var x := SlotName(p + 1);
    var m := Put(r1, ["  STV " + x]);
    ExprCodeOnly(e.arg2, env, p + 1, m);
    var r2 := ExprCode(e.arg2, env, p + 1, m).value;
    assert r2.lines[|r1.lines|] == m.lines[|r1.lines|];
    ExprCodeOnly(e.arg1, env, p, em);
  }

  // ------------------------------------------------------------ unary expressions

  /**
   * A unary expression compiles exactly when its operator is "~" or "*",
   * its operand compiles and the cell at the pointer exists; "-" and every
   * other operator end in the error "Unknown" once the operand and the cell
   * are there.
   */
  lemma UnaryOutcome(e: Expr, env: Env, p: int, em: Emitter)
    requires e.Un?
    ensures UnCode(e, env, p, em).Ok? <==>
      (e.op == "~" || e.op == "*") && ExprCode(e.arg, env, p, em).Ok? && p < STACK_BOUND
    ensures e.op != "~" && e.op != "*" && ExprCode(e.arg, env, p, em).Ok? && p < STACK_BOUND ==>
      UnCode(e, env, p, em) == Err(UNKNOWN)
  {
  }

  // ------------------------------------------------------------ conditions

  /**
   * A condition that compiles parks its first operand in X(p + 1) right
   * after that operand's code and ends with the comparison against
   * `fixedCell` when one is given and against X(p + 1) otherwise.
   */
  lemma CondCells(s: Stmt, fixedCell: Option<string>, env: Env, p: int, em: Emitter)
    requires (s.IfCmp? || s.While?) && CondCode(s, fixedCell, env, p, em).Ok?
    ensures ExprCode(s.arg1, env, p, em).Ok? && p + 1 < STACK_BOUND
    ensures var k, out, x := |ExprCode(s.arg1, env, p, em).value.lines|, CondCode(s, fixedCell, env, p, em).value, SlotName(p + 1);
      var cell := if fixedCell.Some? then fixedCell.value else x;
      k + 1 + |Compare(s.op, cell)| <= |out.lines| && out.lines[k] == "  STV " + x &&
      out.lines[|out.lines| - |Compare(s.op, cell)|..] == Compare(s.op, cell)
  {
    var r1 := ExprCode(s.arg1, env, p, em).value;
    var x := SlotName(p + 1);
    var m := Put(r1, ["  STV " + x]);
    ExprCodeOnly(s.arg2, env, p + 1, m);
    var r2 := ExprCode(s.arg2, env, p + 1, m).value;
    assert r2.lines[|r1.lines|] == m.lines[|r1.lines|];
    ExprCodeOnly(s.arg1, env, p, em);
  }

  /** The condition of an `if` with an operator compares against the cell its first operand was parked in. */
  lemma IfCmpSameCell(s: Stmt, env: Env, p: int, em: Emitter)
    requires s.IfCmp? && s.op == "=" && CondCode(s, None, env, p, em).Ok?
    ensures var k, out := |ExprCode(s.arg1, env, p, em).value.lines|, CondCode(s, None, env, p, em).value;
      k + 1 < |out.lines| && out.lines[k] == "  STV " + SlotName(p + 1) &&
      out.lines[|out.lines| - 1] == "  EQL " + SlotName(p + 1)
  {
    CondCells(s, None, env, p, em);
  }

  /** The head of a `while`: its statement comment and label n. */
  function LoopEntry(s: Stmt, em: Emitter): Emitter
    requires s.While?
  {
    Put(Put(em, CommentStmLines(s.line, "WhileStmContext")).(labelCounter := em.labelCounter + 2), [LabelDef(em.labelCounter)])
  }

  /**
   * As written, a `while` whose condition compiles parks its first operand
   * in X(p + 1), which is never X0 for a pointer p >= 0, and then compares
   * against X0.
   */
  lemma WhileComparesX0(s: Stmt, env: Env, p: int, em: Emitter)
    requires s.While? && s.op == "=" && p >= 0 && WhileCode(s, env, p, em).Ok?
    ensures var e1 := LoopEntry(s, em);
      CondCode(s, Some("X0"), env, p, e1).Ok? &&
      var k, out := |ExprCode(s.arg1, env, p, e1).value.lines|, CondCode(s, Some("X0"), env, p, e1).value;
      k + 1 < |out.lines| && out.lines[k] == "  STV " + SlotName(p + 1) &&
      out.lines[|out.lines| - 1] == "  EQL X0" && SlotName(p + 1) != "X0"
  {
    WhileSteps(s, env, p, em);
    var e1 := LoopEntry(s, em);
    CondCells(s, Some("X0"), env, p, e1);
    SlotNamesDiffer(p + 1, 0);
    assert SlotName(0) == "X0";
  }

  /** The `while` as evidently intended: its condition compares against the parked cell, as the `if` does. */
  function IntendedWhileCode(s: Stmt, env: Env, p: int, em: Emitter): Result<Emitter, string>
    requires s.While?
  {
    var n := em.labelCounter;
    var em2 :- CondCode(s, None, env, p, LoopEntry(s, em));
    var em3 :- BlockCode(s.body, env, p, Put(em2, ["  NOT", "  JMN " + LabelName(n + 1)]));
    Ok(Put(em3, ["  JMP " + LabelName(n), LabelDef(n + 1)]))
  }

  /** The intended `while` compares against the cell its first operand was parked in. */
  lemma IntendedWhileComparesParked(s: Stmt, env: Env, p: int, em: Emitter)
    requires s.While? && s.op == "=" && IntendedWhileCode(s, env, p, em).Ok?
    ensures var e1 := LoopEntry(s, em);
      CondCode(s, None, env, p, e1).Ok? &&
      var j, out := |ExprCode(s.arg1, env, p, e1).value.lines|, CondCode(s, None, env, p, e1).value;
      j + 1 < |out.lines| && out.lines[j] == "  STV " + SlotName(p + 1) &&
      out.lines[|out.lines| - 1] == "  EQL " + SlotName(p + 1)
  {
    CondCells(s, None, env, p, LoopEntry(s, em));
  }

  /** The intended `while` places the same labels as the `while` as written: its two and those of its body, once each. */
  lemma IntendedWhilePlaces(s: Stmt, env: Env, p: int, em: Emitter, k: nat)
    requires s.While? && em.labelCounter >= 0 && IntendedWhileCode(s, env, p, em).Ok?
    ensures var n, r := em.labelCounter, IntendedWhileCode(s, env, p, em).value;
      r.labelCounter == n + 2 * Branches(s) && Places(em, r, k, Once(n, n + 2 * Branches(s), k))
  {
    var n := em.labelCounter;
    var e1 := LoopEntry(s, em);
    CondCodeOnly(s, None, env, p, e1);
    var c2 := CondCode(s, None, env, p, e1).value;
    var e3 := Put(c2, ["  NOT", "  JMN " + LabelName(n + 1)]);
    BlockPlaces(s.body, env, p, e3, k);
    var b := BlockCode(s.body, env, p, e3).value;
    var f := BlockBranches(s.body);
    assert IntendedWhileCode(s, env, p, em) == Ok(Put(b, ["  JMP " + LabelName(n), LabelDef(n + 1)]));
    LoopJoin(em, s.line, c2, b, n, k, f);
    BranchesOf(s);
  }

  // ------------------------------------------------------------ unknown names

  /**
   * Reading or writing a name that is neither local nor global reports it
   * on the error stream, once; any other access leaves the log alone.
   */
  lemma UnknownReported(env: Env, v: string, p: int, em: Emitter)
    ensures var r := LoadVarCode(env, v, p, em);
      r.Ok? ==> r.value.log == if v !in env.locals && v !in env.globals then em.log + ["UNKNOWN " + v] else em.log
    ensures var r := StoreVarCode(env, v, p, em);
      r.Ok? ==> r.value.log == if v !in env.locals && v !in env.globals then em.log + ["UNKNOWN " + v] else em.log
    ensures LoadVarCode(env, v, p, em).Err? ==> v in env.locals
  {
  }

  /** The visitor's set of globals stays empty, so every access to a name that is not local is reported. */
  lemma NoGlobalsKnown(locals: seq<string>, v: string, p: int, em: Emitter)
    requires v !in locals
    ensures LoadVarCode(Env(locals, {}), v, p, em) == Ok(Put(em.(log := em.log + ["UNKNOWN " + v]), ["  LDV " + v]))
    ensures StoreVarCode(Env(locals, {}), v, p, em) == Ok(Put(em.(log := em.log + ["UNKNOWN " + v]), ["  STV " + v]))
  {
  }
}
