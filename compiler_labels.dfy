/**
 * Labels in the compiled program.  Every `if` and every `while` takes the
 * two labels L(n) and L(n + 1) at the label counter and moves the counter
 * on by two.  So a compiled block keeps the lines before it, moves the
 * counter on by two for each `if` and `while` in it, and the lines it adds
 * place each label of its stretch of the counter exactly once and no other
 * label; expressions and conditions add only indented code lines.
 */
module CompilerLabels {
  import opened Wrappers
  import opened Text
  import opened BoundedStacks
  import opened Compiler
  import opened CompilerProperties

  // ------------------------------------------------------------ lines

  /** Code lines are indented by two blanks; label lines and headings are not. */
  predicate Indented(line: string)
  {
    |line| >= 2 && line[0] == ' ' && line[1] == ' '
  }

  predicate AllCode(ls: seq<string>)
  {
    forall i :: 0 <= i < |ls| ==> Indented(ls[i])
  }

  /** How often x occurs in xs. */
  function Count(xs: seq<string>, x: string): nat
  {
    if |xs| == 0 then 0 else Count(xs[..|xs| - 1], x) + if xs[|xs| - 1] == x then 1 else 0
  }

  /** 1 when k lies in the stretch from lo up to, not including, hi; otherwise 0. */
  function Once(lo: int, hi: int, k: int): nat
  {
    if lo <= k < hi then 1 else 0
  }

  lemma IndentedJoin(a: string, b: string)
    requires Indented(a)
    ensures Indented(a + b)
  {
    assert (a + b)[0] == a[0] && (a + b)[1] == a[1];
  }

  lemma LabelDefNotCode(k: int)
    ensures !Indented(LabelDef(k))
  {
    assert LabelDef(k)[0] == 'L';
  }

  /** Different label numbers give different label lines. */
  lemma LabelDefInjective(j: nat, k: nat)
    requires j != k
    ensures LabelDef(j) != LabelDef(k)
  {
    PrefixedNumbersDiffer("L", j, k);
    assert LabelDef(j)[..|LabelDef(j)| - 1] == "L" + NatToString(j);
    assert LabelDef(k)[..|LabelDef(k)| - 1] == "L" + NatToString(k);
  }

  lemma {:induction false} CountAppend(a: seq<string>, b: seq<string>, x: string)
    ensures Count(a + b, x) == Count(a, x) + Count(b, x)
    decreases |b|
  {
    if |b| == 0 {
      assert a + b == a;
    } else {
      var q := b[..|b| - 1];
      assert (a + b)[..|a + b| - 1] == a + q;
      CountAppend(a, q, x);
    }
  }

  /** A line that is not code does not occur among code lines. */
  lemma {:induction false} CountCode(ls: seq<string>, x: string)
    requires AllCode(ls) && !Indented(x)
    ensures Count(ls, x) == 0
    decreases |ls|
  {
    if |ls| > 0 {
      CountCode(ls[..|ls| - 1], x);
    }
  }

  /** The line of label j counts once for label k exactly when j is k. */
  lemma CountLabel(j: nat, k: nat)
    ensures Count([LabelDef(j)], LabelDef(k)) == Once(j, j + 1, k)
  {
    assert [LabelDef(j)][..0] == [];
    if j != k {
      LabelDefInjective(j, k);
    }
  }

  lemma {:induction false} AllCodeAppend(a: seq<string>, b: seq<string>)
    requires AllCode(a) && AllCode(b)
    ensures AllCode(a + b)
  {
    forall i | 0 <= i < |a + b|
      ensures Indented((a + b)[i])
    {
      if i < |a| {
        assert (a + b)[i] == a[i];
      } else {
        assert (a + b)[i] == b[i - |a|];
      }
    }
  }

  lemma Code2(a: string, b: string)
    requires Indented(a) && Indented(b)
    ensures AllCode([a, b])
  {
  }

  lemma Code3(a: string, b: string, c: string)
    requires Indented(a) && Indented(b) && Indented(c)
    ensures AllCode([a, b, c])
  {
  }

  lemma Code4(a: string, b: string, c: string, d: string)
    requires Indented(a) && Indented(b) && Indented(c) && Indented(d)
    ensures AllCode([a, b, c, d])
  {
  }

  lemma Code6(a: string, b: string, c: string, d: string, e: string, f: string)
    requires Indented(a) && Indented(b) && Indented(c) && Indented(d) && Indented(e) && Indented(f)
    ensures AllCode([a, b, c, d, e, f])
  {
  }

  // ------------------------------------------------------------ growth

  /** y keeps the lines of x and may add more. */
  predicate Extends(x: Emitter, y: Emitter)
  {
    |x.lines| <= |y.lines| && y.lines[..|x.lines|] == x.lines
  }

  /** y keeps the lines of x and adds only code lines. */
  predicate CodeOnly(x: Emitter, y: Emitter)
  {
    Extends(x, y) && AllCode(y.lines[|x.lines|..])
  }

  /** y keeps the lines of x, and the lines it adds place label k exactly c times. */
  predicate Places(x: Emitter, y: Emitter, k: nat, c: nat)
  {
    Extends(x, y) && Count(y.lines[|x.lines|..], LabelDef(k)) == c
  }

  lemma ExtendsTrans(x: Emitter, y: Emitter, z: Emitter)
    requires Extends(x, y) && Extends(y, z)
    ensures Extends(x, z)
    ensures z.lines[|x.lines|..] == y.lines[|x.lines|..] + z.lines[|y.lines|..]
  {
    assert z.lines[..|y.lines|][..|x.lines|] == z.lines[..|x.lines|];
  }

  lemma CodeTrans(x: Emitter, y: Emitter, z: Emitter)
    requires CodeOnly(x, y) && CodeOnly(y, z)
    ensures CodeOnly(x, z)
  {
    ExtendsTrans(x, y, z);
    AllCodeAppend(y.lines[|x.lines|..], z.lines[|y.lines|..]);
  }

  lemma PlacesTrans(x: Emitter, y: Emitter, z: Emitter, k: nat, c1: nat, c2: nat)
    requires Places(x, y, k, c1) && Places(y, z, k, c2)
    ensures Places(x, z, k, c1 + c2)
  {
    ExtendsTrans(x, y, z);
    CountAppend(y.lines[|x.lines|..], z.lines[|y.lines|..], LabelDef(k));
  }

  /** Code lines place no label. */
  lemma PlacesCode(x: Emitter, y: Emitter, k: nat)
    requires CodeOnly(x, y)
    ensures Places(x, y, k, 0)
  {
    LabelDefNotCode(k);
    CountCode(y.lines[|x.lines|..], LabelDef(k));
  }

  lemma CodePut(em: Emitter, ls: seq<string>)
    requires AllCode(ls)
    ensures CodeOnly(em, Put(em, ls))
  {
    assert Put(em, ls).lines[|em.lines|..] == ls;
  }

  /** Code lines added after code lines. */
  lemma CodeMore(em: Emitter, x: Emitter, ls: seq<string>)
    requires CodeOnly(em, x) && AllCode(ls)
    ensures CodeOnly(em, Put(x, ls))
  {
    CodePut(x, ls);
    CodeTrans(em, x, Put(x, ls));
  }

  /** Code lines followed by the line of label j place label k once when j is k. */
  lemma PlacesLabel(em: Emitter, ls: seq<string>, j: nat, k: nat)
    requires AllCode(ls)
    ensures Places(em, Put(em, ls + [LabelDef(j)]), k, Once(j, j + 1, k))
  {
    var added := ls + [LabelDef(j)];
    assert Put(em, added).lines[|em.lines|..] == added;
    LabelDefNotCode(k);
    CountCode(ls, LabelDef(k));
    CountAppend(ls, [LabelDef(j)], LabelDef(k));
    CountLabel(j, k);
  }

  // ------------------------------------------------------------ code lines

  /** One line made of an instruction and its operand. */
  lemma InstrLine(op: string, arg: string)
    requires Indented(op)
    ensures AllCode([op + arg])
  {
    IndentedJoin(op, arg);
  }

  lemma LoadLocalLines(a: string, x0: string)
    ensures AllCode(["  LDC " + a, "  ADD SP", "  STV " + x0, "  LDIV " + x0])
  {
    IndentedJoin("  LDC ", a);
    IndentedJoin("  STV ", x0);
    IndentedJoin("  LDIV ", x0);
    Code4("  LDC " + a, "  ADD SP", "  STV " + x0, "  LDIV " + x0);
  }

  lemma StoreLocalLines(a: string, x0: string, x1: string)
    ensures AllCode(["  STV " + x0, "  LDC " + a, "  ADD SP", "  STV " + x0, "  LDV " + x1, "  LDIV " + x0])
  {
    IndentedJoin("  LDC ", a);
    IndentedJoin("  STV ", x0);
    IndentedJoin("  LDV ", x1);
    IndentedJoin("  LDIV ", x0);
    Code6("  STV " + x0, "  LDC " + a, "  ADD SP", "  STV " + x0, "  LDV " + x1, "  LDIV " + x0);
  }

  lemma OperandLines(x0: string)
    ensures AllCode(["  ADD " + x0, "  STV " + x0, "  LDIV " + x0])
  {
    IndentedJoin("  ADD ", x0);
    IndentedJoin("  STV ", x0);
    IndentedJoin("  LDIV ", x0);
    Code3("  ADD " + x0, "  STV " + x0, "  LDIV " + x0);
  }

  lemma ReturnLines(x0: string)
    ensures AllCode(["  LDC 1", "  ADD SP", "  STV " + x0])
    ensures AllCode(["  STIV " + x0, "  JIND SP"])
  {
    IndentedJoin("  STV ", x0);
    IndentedJoin("  STIV ", x0);
    Code3("  LDC 1", "  ADD SP", "  STV " + x0);
    Code2("  STIV " + x0, "  JIND SP");
  }

  lemma CompareLines(op: string, cell: string)
    ensures AllCode(Compare(op, cell))
  {
    IndentedJoin("  EQL ", cell);
    IndentedJoin("  ADD ", cell);
    Code2("  NOT", "  ADD " + cell);
  }

  lemma NoteLines(msg: string)
    requires |msg| < 2 || msg[0] != '#' || msg[1] != ' '
    ensures AllCode(CommentLines(msg))
  {
    CommentNote(msg);
    InstrLine("  ; ", msg);
  }

  lemma StmNoteCode(em: Emitter, line: int, kind: string)
    ensures CodeOnly(em, Put(em, CommentStmLines(line, kind)))
  {
    CommentStmNote(line, kind);
    InstrLine("  ; ", "line " + IntToString(line) + ": " + kind);
    CodePut(em, CommentStmLines(line, kind));
  }

  // -------------------------------------------------- expressions add code only

  lemma LoadVarCodeOnly(env: Env, v: string, p: int, em: Emitter)
    ensures var r := LoadVarCode(env, v, p, em);
      r.Ok? ==> r.value.labelCounter == em.labelCounter && CodeOnly(em, r.value)
  {
    var idx := IndexOf(env.locals, v);
    if idx == -1 {
      InstrLine("  LDV ", v);
      CodePut(Warn(env, v, em), ["  LDV " + v]);
    } else if Slot(p, STACK_BOUND).Ok? {
      var x0 := Slot(p, STACK_BOUND).value;
      var ls := ["  LDC " + IntToString(idx + 1), "  ADD SP", "  STV " + x0, "  LDIV " + x0];
      assert LoadVarCode(env, v, p, em) == Ok(Put(em, ls));
      LoadLocalLines(IntToString(idx + 1), x0);
      CodePut(em, ls);
    }
  }

  lemma StoreVarCodeOnly(env: Env, v: string, p: int, em: Emitter)
    ensures var r := StoreVarCode(env, v, p, em);
      r.Ok? ==> r.value.labelCounter == em.labelCounter && CodeOnly(em, r.value)
  {
    var idx := IndexOf(env.locals, v);
    if idx == -1 {
      InstrLine("  STV ", v);
      CodePut(Warn(env, v, em), ["  STV " + v]);
    } else if Slot(p, STACK_BOUND).Ok? && Slot(p + 1, STACK_BOUND).Ok? {
      var x0, x1 := Slot(p, STACK_BOUND).value, Slot(p + 1, STACK_BOUND).value;
      var ls := ["  STV " + x0, "  LDC " + IntToString(idx + 1), "  ADD SP", "  STV " + x0, "  LDV " + x1, "  LDIV " + x0];
      assert StoreVarCode(env, v, p, em) == Ok(Put(em, ls));
      StoreLocalLines(IntToString(idx + 1), x0, x1);
      CodePut(em, ls);
    }
  }

  /** An expression adds only code lines and leaves the label counter alone. */
  lemma {:induction false} ExprCodeOnly(e: Expr, env: Env, p: int, em: Emitter)
    ensures var r := ExprCode(e, env, p, em);
      r.Ok? ==> r.value.labelCounter == em.labelCounter && CodeOnly(em, r.value)
    decreases e, 1
  {
    match e
    case Lit(t) =>
      InstrLine("  LDC ", t);
      CodePut(em, ["  LDC " + t]);
    case Var(v) => LoadVarCodeOnly(env, v, p, em);
    case Un(_, _) => UnCodeOnly(e, env, p, em);
    case Bin(_, _, _) => BinCodeOnly(e, env, p, em);
    case ArrayRead(_, _, _) => ArrayCodeOnly(e, env, p, em);
  }

  lemma {:induction false} UnCodeOnly(e: Expr, env: Env, p: int, em: Emitter)
    requires e.Un?
    ensures var r := UnCode(e, env, p, em);
      r.Ok? ==> r.value.labelCounter == em.labelCounter && CodeOnly(em, r.value)
    decreases e, 0
  {
    ExprCodeOnly(e.arg, env, p, em);
    var r := ExprCode(e.arg, env, p, em);
    if r.Ok? && UnCode(e, env, p, em).Ok? {
      var ls := if e.op == "~" then ["  NOT"] else ["  RAR"];
      assert UnCode(e, env, p, em).value == Put(r.value, ls);
      CodeMore(em, r.value, ls);
    }
  }

  /** The first operand parked one above the pointer, then the second operand: code only. */
  lemma {:induction false} SecondCodeOnly(a2: Expr, env: Env, p: int, em: Emitter, r1: Emitter, x0: string)
    requires CodeOnly(em, r1) && r1.labelCounter == em.labelCounter
    ensures var r2 := ExprCode(a2, env, p + 1, Put(r1, ["  STV " + x0]));
      r2.Ok? ==> r2.value.labelCounter == em.labelCounter && CodeOnly(em, r2.value)
    decreases a2, 2
  {
    var m := Put(r1, ["  STV " + x0]);
    InstrLine("  STV ", x0);
    CodeMore(em, r1, ["  STV " + x0]);
    ExprCodeOnly(a2, env, p + 1, m);
    var r2 := ExprCode(a2, env, p + 1, m);
    if r2.Ok? {
      CodeTrans(em, m, r2.value);
    }
  }

  lemma {:induction false} BinCodeOnly(e: Expr, env: Env, p: int, em: Emitter)
    requires e.Bin?
    ensures var r := BinCode(e, env, p, em);
      r.Ok? ==> r.value.labelCounter == em.labelCounter && CodeOnly(em, r.value)
    decreases e, 0
  {
    ExprCodeOnly(e.arg1, env, p, em);
    var r1 := ExprCode(e.arg1, env, p, em);
    if r1.Ok? && Slot(p + 1, STACK_BOUND).Ok? {
      var x0 := Slot(p + 1, STACK_BOUND).value;
      SecondCodeOnly(e.arg2, env, p, em, r1.value, x0);
      var r2 := ExprCode(e.arg2, env, p + 1, Put(r1.value, ["  STV " + x0]));
      if r2.Ok? && BinOp(e.op).Some? {
        InstrLine(BinOp(e.op).value, x0);
        CodeMore(em, r2.value, [BinOp(e.op).value + x0]);
      }
    }
  }

  lemma {:induction false} ArrayCodeOnly(e: Expr, env: Env, p: int, em: Emitter)
    requires e.ArrayRead?
    ensures var r := ArrayCode(e, env, p, em);
      r.Ok? ==> r.value.labelCounter == em.labelCounter && CodeOnly(em, r.value)
    decreases e, 0
  {
    var c := Put(em, CommentStmLines(e.line, "ArrayExpContext"));
    StmNoteCode(em, e.line, "ArrayExpContext");
    ExprCodeOnly(e.index, env, p, c);
    var r1 := ExprCode(e.index, env, p, c);
    if r1.Ok? && Slot(p + 1, STACK_BOUND).Ok? {
      CodeTrans(em, c, r1.value);
      var x0 := Slot(p + 1, STACK_BOUND).value;
      ArrayTail(env, e.id, p, em, r1.value, x0);
    }
  }

  lemma ArrayTail(env: Env, id: string, p: int, em: Emitter, r1: Emitter, x0: string)
    requires CodeOnly(em, r1) && r1.labelCounter == em.labelCounter
    ensures var r2 := LoadVarCode(env, id, p + 1, Put(r1, ["  STV " + x0]));
      r2.Ok? ==> (r2.value.labelCounter == em.labelCounter &&
        CodeOnly(em, Put(r2.value, ["  ADD " + x0, "  STV " + x0, "  LDIV " + x0])))
  {
    var m := Put(r1, ["  STV " + x0]);
    InstrLine("  STV ", x0);
    CodeMore(em, r1, ["  STV " + x0]);
    LoadVarCodeOnly(env, id, p + 1, m);
    var r2 := LoadVarCode(env, id, p + 1, m);
    if r2.Ok? {
      CodeTrans(em, m, r2.value);
      OperandLines(x0);
      CodeMore(em, r2.value, ["  ADD " + x0, "  STV " + x0, "  LDIV " + x0]);
    }
  }

  /** The condition of an `if` or `while` is code only. */
  lemma {:induction false} CondCodeOnly(s: Stmt, fixedCell: Option<string>, env: Env, p: int, em: Emitter)
    requires s.IfCmp? || s.While?
    ensures var r := CondCode(s, fixedCell, env, p, em);
      r.Ok? ==> r.value.labelCounter == em.labelCounter && CodeOnly(em, r.value)
    decreases s, 0
  {
    ExprCodeOnly(s.arg1, env, p, em);
    var r1 := ExprCode(s.arg1, env, p, em);
    if r1.Ok? && Slot(p + 1, STACK_BOUND).Ok? {
      var x0 := Slot(p + 1, STACK_BOUND).value;
      SecondCodeOnly(s.arg2, env, p, em, r1.value, x0);
      var r2 := ExprCode(s.arg2, env, p + 1, Put(r1.value, ["  STV " + x0]));
      if r2.Ok? {
        var cell := if fixedCell.Some? then fixedCell.value else x0;
        CompareLines(s.op, cell);
        CodeMore(em, r2.value, Compare(s.op, cell));
      }
    }
  }

  // -------------------------------------------------- statements without branches

  lemma HaltCodeOnly(line: int, em: Emitter)
    ensures CodeOnly(em, Put(em, CommentStmLines(line, "HaltStmContext") + ["  HALT"]))
  {
    var c := Put(em, CommentStmLines(line, "HaltStmContext"));
    StmNoteCode(em, line, "HaltStmContext");
    CodeMore(em, c, ["  HALT"]);
    assert Put(c, ["  HALT"]) == Put(em, CommentStmLines(line, "HaltStmContext") + ["  HALT"]);
  }

  lemma ReturnCodeOnly(s: Stmt, env: Env, p: int, em: Emitter)
    requires s.Return?
    ensures var r := ReturnCode(s, env, p, em);
      r.Ok? ==> r.value.labelCounter == em.labelCounter && CodeOnly(em, r.value)
  {
    if Slot(p, STACK_BOUND).Ok? {
      var x0 := Slot(p, STACK_BOUND).value;
      ReturnHead(s.line, em, x0);
      var c3 := Put(Put(Put(em, CommentStmLines(s.line, "ReturnStmContext")), CommentLines("SP[1] into X1")),
        ["  LDC 1", "  ADD SP", "  STV " + x0]);
      NoteLines("arg into accu");
      CodeMore(em, c3, CommentLines("arg into accu"));
      ReturnTail(s, env, p, em, Put(c3, CommentLines("arg into accu")), x0);
    }
  }

  lemma ReturnHead(line: int, em: Emitter, x0: string)
    ensures var c1 := Put(em, CommentStmLines(line, "ReturnStmContext"));
      var c2 := Put(c1, CommentLines("SP[1] into X1"));
      CodeOnly(em, Put(c2, ["  LDC 1", "  ADD SP", "  STV " + x0]))
  {
    var c1 := Put(em, CommentStmLines(line, "ReturnStmContext"));
    var c2 := Put(c1, CommentLines("SP[1] into X1"));
    StmNoteCode(em, line, "ReturnStmContext");
    NoteLines("SP[1] into X1");
    CodeMore(em, c1, CommentLines("SP[1] into X1"));
    ReturnLines(x0);
    CodeMore(em, c2, ["  LDC 1", "  ADD SP", "  STV " + x0]);
  }

  lemma ReturnTail(s: Stmt, env: Env, p: int, em: Emitter, c4: Emitter, x0: string)
    requires s.Return? && CodeOnly(em, c4) && c4.labelCounter == em.labelCounter
    ensures var r := LoadVarCode(env, s.id, p, c4);
      r.Ok? ==> (r.value.labelCounter == em.labelCounter &&
        CodeOnly(em, Put(Put(r.value, CommentLines("store result value and return")), ["  STIV " + x0, "  JIND SP"])))
  {
    LoadVarCodeOnly(env, s.id, p, c4);
    var r := LoadVarCode(env, s.id, p, c4);
    if r.Ok? {
      CodeTrans(em, c4, r.value);
      NoteLines("store result value and return");
      CodeMore(em, r.value, CommentLines("store result value and return"));
      ReturnLines(x0);
      CodeMore(em, Put(r.value, CommentLines("store result value and return")), ["  STIV " + x0, "  JIND SP"]);
    }
  }

  lemma AssignCodeOnly(s: Stmt, env: Env, p: int, em: Emitter)
    requires s.Assign?
    ensures var r := StmtCode(s, env, p, em);
      r.Ok? ==> r.value.labelCounter == em.labelCounter && CodeOnly(em, r.value)
  {
    var c := Put(em, CommentStmLines(s.line, "AssignStmContext"));
    StmNoteCode(em, s.line, "AssignStmContext");
    ExprCodeOnly(s.expr, env, p, c);
    var r := ExprCode(s.expr, env, p, c);
    if r.Ok? {
      CodeTrans(em, c, r.value);
      StoreVarCodeOnly(env, s.target, p, r.value);
      var out := StoreVarCode(env, s.target, p, r.value);
      if out.Ok? {
        CodeTrans(em, r.value, out.value);
      }
    }
  }

  // -------------------------------------------------- statements place their labels

  /** The number of `if` and `while` statements in a statement, nested ones included. */
  function Branches(s: Stmt): nat
    decreases s, 1
  {
    match s
    case If0(_, _, thenBlk, elseBlk) => 1 + BlockBranches(thenBlk) + BlockBranches(elseBlk)
    case IfCmp(_, _, _, _, thenBlk, elseBlk) => 1 + BlockBranches(thenBlk) + BlockBranches(elseBlk)
    case While(_, _, _, _, body) => 1 + BlockBranches(body)
    case _ => 0
  }

  function BlockBranches(ss: seq<Stmt>): nat
    decreases ss, 0
  {
    if |ss| == 0 then 0 else BlockBranches(ss[..|ss| - 1]) + Branches(ss[|ss| - 1])
  }

  lemma BranchesOf(s: Stmt)
    ensures s.If0? || s.IfCmp? ==> Branches(s) == 1 + BlockBranches(s.thenBlk) + BlockBranches(s.elseBlk)
    ensures s.While? ==> Branches(s) == 1 + BlockBranches(s.body)
  {
  }

  /**
   * A statement that compiles moves the label counter on by two for every
   * `if` and `while` in it, and the lines it adds place each label of that
   * stretch once and no other label.
   */
  lemma {:induction false} StmtPlaces(s: Stmt, env: Env, p: int, em: Emitter, k: nat)
    requires em.labelCounter >= 0
    ensures var r, n := StmtCode(s, env, p, em), em.labelCounter;
      r.Ok? ==> (r.value.labelCounter == n + 2 * Branches(s) &&
        Places(em, r.value, k, Once(n, n + 2 * Branches(s), k)))
    decreases s, 3
  {
    match s
    case Halt(line) =>
      HaltCodeOnly(line, em);
      PlacesCode(em, Put(em, CommentStmLines(line, "HaltStmContext") + ["  HALT"]), k);
    case Return(_, _) =>
      ReturnCodeOnly(s, env, p, em);
      var r := ReturnCode(s, env, p, em);
      if r.Ok? {
        PlacesCode(em, r.value, k);
      }
    case Assign(_, _, _) =>
      AssignCodeOnly(s, env, p, em);
      var r := StmtCode(s, env, p, em);
      if r.Ok? {
        PlacesCode(em, r.value, k);
      }
    case If0(_, _, _, _) => If0Places(s, env, p, em, k);
    case IfCmp(_, _, _, _, _, _) => IfCmpPlaces(s, env, p, em, k);
    case While(_, _, _, _, _) => WhilePlaces(s, env, p, em, k);
  }

  lemma {:induction false} If0Places(s: Stmt, env: Env, p: int, em: Emitter, k: nat)
    requires s.If0? && em.labelCounter >= 0
    ensures var r, n := StmtCode(s, env, p, em), em.labelCounter;
      r.Ok? ==> (r.value.labelCounter == n + 2 * Branches(s) &&
        Places(em, r.value, k, Once(n, n + 2 * Branches(s), k)))
    decreases s, 2
  {
    var c := Put(em, CommentStmLines(s.line, "If0StmContext"));
    StmNoteCode(em, s.line, "If0StmContext");
    ExprCodeOnly(s.arg1, env, p, c);
    var r := ExprCode(s.arg1, env, p, c);
    if r.Ok? {
      CodeTrans(em, c, r.value);
      PlacesCode(em, r.value, k);
      IfJmnPlaces(s, env, p, r.value, k);
      var out := IfJmnCode(s, env, p, r.value);
      if out.Ok? {
        PlacesTrans(em, r.value, out.value, k, 0, Once(em.labelCounter, em.labelCounter + 2 * Branches(s), k));
      }
    }
  }

  lemma {:induction false} IfCmpPlaces(s: Stmt, env: Env, p: int, em: Emitter, k: nat)
    requires s.IfCmp? && em.labelCounter >= 0
    ensures var r, n := IfCmpCode(s, env, p, em), em.labelCounter;
      r.Ok? ==> (r.value.labelCounter == n + 2 * Branches(s) &&
        Places(em, r.value, k, Once(n, n + 2 * Branches(s), k)))
    decreases s, 2
  {
    var c := Put(em, CommentStmLines(s.line, "IfCmpStmContext"));
    StmNoteCode(em, s.line, "IfCmpStmContext");
    CondCodeOnly(s, None, env, p, c);
    var r := CondCode(s, None, env, p, c);
    if r.Ok? {
      CodeTrans(em, c, r.value);
      PlacesCode(em, r.value, k);
      IfJmnPlaces(s, env, p, r.value, k);
      var out := IfJmnCode(s, env, p, r.value);
      if out.Ok? {
        PlacesTrans(em, r.value, out.value, k, 0, Once(em.labelCounter, em.labelCounter + 2 * Branches(s), k));
      }
    }
  }

  /** The jump to the else block: code only. */
  lemma IfHead(em: Emitter, n: int, k: nat)
    ensures Places(em, Put(em.(labelCounter := n + 2), ["  JMN " + LabelName(n)]), k, 0)
  {
    InstrLine("  JMN ", LabelName(n));
    CodePut(em.(labelCounter := n + 2), ["  JMN " + LabelName(n)]);
    PlacesCode(em, Put(em.(labelCounter := n + 2), ["  JMN " + LabelName(n)]), k);
  }

  /** The jump over the then block and label n. */
  lemma IfMiddle(b1: Emitter, n: nat, k: nat)
    ensures Places(b1, Put(b1, ["  JMP " + LabelName(n + 1), LabelDef(n)]), k, Once(n, n + 1, k))
  {
    InstrLine("  JMP ", LabelName(n + 1));
    assert ["  JMP " + LabelName(n + 1)] + [LabelDef(n)] == ["  JMP " + LabelName(n + 1), LabelDef(n)];
    PlacesLabel(b1, ["  JMP " + LabelName(n + 1)], n, k);
  }

  /** The line of label j on its own. */
  lemma LabelOnly(em: Emitter, j: nat, k: nat)
    ensures Places(em, Put(em, [LabelDef(j)]), k, Once(j, j + 1, k))
  {
    assert [] + [LabelDef(j)] == [LabelDef(j)];
    PlacesLabel(em, [], j, k);
  }

  /** The stretches of an `if`'s labels: the else block's, n, the then block's, n + 1. */
  lemma IfStretches(n: int, k: int, e: nat, f: nat)
    ensures Once(n + 2, n + 2 + 2 * e, k) + Once(n, n + 1, k) +
      Once(n + 2 + 2 * e, n + 2 + 2 * e + 2 * f, k) + Once(n + 1, n + 2, k) ==
      Once(n, n + 2 * (1 + f + e), k)
  {
  }

  /** The pieces of an `if`, joined: its labels are those of its whole stretch. */
  lemma IfJoin(em: Emitter, b1: Emitter, b2: Emitter, n: nat, k: nat, e: nat, f: nat)
    requires Places(Put(em.(labelCounter := n + 2), ["  JMN " + LabelName(n)]), b1, k, Once(n + 2, n + 2 + 2 * e, k))
    requires Places(Put(b1, ["  JMP " + LabelName(n + 1), LabelDef(n)]), b2, k, Once(n + 2 + 2 * e, n + 2 + 2 * e + 2 * f, k))
    ensures Places(em, Put(b2, [LabelDef(n + 1)]), k, Once(n, n + 2 * (1 + f + e), k))
  {
    var e0 := Put(em.(labelCounter := n + 2), ["  JMN " + LabelName(n)]);
    var e2 := Put(b1, ["  JMP " + LabelName(n + 1), LabelDef(n)]);
    var c1, c2, c3 := Once(n + 2, n + 2 + 2 * e, k), Once(n, n + 1, k), Once(n + 2 + 2 * e, n + 2 + 2 * e + 2 * f, k);
    IfHead(em, n, k);
    IfMiddle(b1, n, k);
    LabelOnly(b2, n + 1, k);
    PlacesTrans(em, e0, b1, k, 0, c1);
    PlacesTrans(em, b1, e2, k, c1, c2);
    PlacesTrans(em, e2, b2, k, c1 + c2, c3);
    PlacesTrans(em, b2, Put(b2, [LabelDef(n + 1)]), k, c1 + c2 + c3, Once(n + 1, n + 2, k));
    IfStretches(n, k, e, f);
  }

  /** Both branches of an `if`: the else block, label n, the then block, label n + 1. */
  lemma {:induction false} IfJmnPlaces(s: Stmt, env: Env, p: int, em: Emitter, k: nat)
    requires (s.If0? || s.IfCmp?) && em.labelCounter >= 0
    ensures var r, n := IfJmnCode(s, env, p, em), em.labelCounter;
      r.Ok? ==> (r.value.labelCounter == n + 2 * Branches(s) &&
        Places(em, r.value, k, Once(n, n + 2 * Branches(s), k)))
    decreases s, 1
  {
    IfJmnSteps(s, env, p, em);
    var n := em.labelCounter;
    var e0 := Put(em.(labelCounter := n + 2), ["  JMN " + LabelName(n)]);
    BlockPlaces(s.elseBlk, env, p, e0, k);
    var b1 := BlockCode(s.elseBlk, env, p, e0);
    if b1.Ok? {
      var e2 := Put(b1.value, ["  JMP " + LabelName(n + 1), LabelDef(n)]);
      BlockPlaces(s.thenBlk, env, p, e2, k);
      var b2 := BlockCode(s.thenBlk, env, p, e2);
      if b2.Ok? {
        IfJoin(em, b1.value, b2.value, n, k, BlockBranches(s.elseBlk), BlockBranches(s.thenBlk));
        BranchesOf(s);
      }
    }
  }

  /** The statement comment and label n at the head of a loop. */
  lemma LoopHead(em: Emitter, line: int, n: nat, k: nat)
    ensures Places(em, Put(Put(em, CommentStmLines(line, "WhileStmContext")).(labelCounter := n + 2), [LabelDef(n)]), k, Once(n, n + 1, k))
  {
    var c := Put(em, CommentStmLines(line, "WhileStmContext"));
    StmNoteCode(em, line, "WhileStmContext");
    PlacesCode(em, c, k);
    LabelOnly(c.(labelCounter := n + 2), n, k);
    PlacesTrans(em, c, Put(c.(labelCounter := n + 2), [LabelDef(n)]), k, 0, Once(n, n + 1, k));
  }

  /** The condition and the exit test of a loop: code only. */
  lemma LoopTest(e1: Emitter, c2: Emitter, n: nat, k: nat)
    requires CodeOnly(e1, c2)
    ensures Places(e1, Put(c2, ["  NOT", "  JMN " + LabelName(n + 1)]), k, 0)
  {
    IndentedJoin("  JMN ", LabelName(n + 1));
    Code2("  NOT", "  JMN " + LabelName(n + 1));
    CodeMore(e1, c2, ["  NOT", "  JMN " + LabelName(n + 1)]);
    PlacesCode(e1, Put(c2, ["  NOT", "  JMN " + LabelName(n + 1)]), k);
  }

  /** The jump back to label n and label n + 1. */
  lemma LoopTail(b: Emitter, n: nat, k: nat)
    ensures Places(b, Put(b, ["  JMP " + LabelName(n), LabelDef(n + 1)]), k, Once(n + 1, n + 2, k))
  {
    InstrLine("  JMP ", LabelName(n));
    assert ["  JMP " + LabelName(n)] + [LabelDef(n + 1)] == ["  JMP " + LabelName(n), LabelDef(n + 1)];
    PlacesLabel(b, ["  JMP " + LabelName(n)], n + 1, k);
  }

  /** The stretches of a loop's labels: n, the body's, n + 1. */
  lemma LoopStretches(n: int, k: int, f: nat)
    ensures Once(n, n + 1, k) + Once(n + 2, n + 2 + 2 * f, k) + Once(n + 1, n + 2, k) == Once(n, n + 2 * (1 + f), k)
  {
  }

  /** The pieces of a loop, joined: its labels are those of its whole stretch. */
  lemma LoopJoin(em: Emitter, line: int, c2: Emitter, b: Emitter, n: nat, k: nat, f: nat)
    requires CodeOnly(Put(Put(em, CommentStmLines(line, "WhileStmContext")).(labelCounter := n + 2), [LabelDef(n)]), c2)
    requires Places(Put(c2, ["  NOT", "  JMN " + LabelName(n + 1)]), b, k, Once(n + 2, n + 2 + 2 * f, k))
    ensures Places(em, Put(b, ["  JMP " + LabelName(n), LabelDef(n + 1)]), k, Once(n, n + 2 * (1 + f), k))
  {
    var e1 := Put(Put(em, CommentStmLines(line, "WhileStmContext")).(labelCounter := n + 2), [LabelDef(n)]);
    var e3 := Put(c2, ["  NOT", "  JMN " + LabelName(n + 1)]);
    var c1, c3 := Once(n, n + 1, k), Once(n + 2, n + 2 + 2 * f, k);
    LoopHead(em, line, n, k);
    LoopTest(e1, c2, n, k);
    LoopTail(b, n, k);
    PlacesTrans(em, e1, e3, k, c1, 0);
    PlacesTrans(em, e3, b, k, c1, c3);
    PlacesTrans(em, b, Put(b, ["  JMP " + LabelName(n), LabelDef(n + 1)]), k, c1 + c3, Once(n + 1, n + 2, k));
    LoopStretches(n, k, f);
  }

  /** A loop: label n, the condition, the body, label n + 1. */
  lemma {:induction false} WhilePlaces(s: Stmt, env: Env, p: int, em: Emitter, k: nat)
    requires s.While? && em.labelCounter >= 0
    ensures var r, n := WhileCode(s, env, p, em), em.labelCounter;
      r.Ok? ==> (r.value.labelCounter == n + 2 * Branches(s) &&
        Places(em, r.value, k, Once(n, n + 2 * Branches(s), k)))
    decreases s, 1
  {
    WhileSteps(s, env, p, em);
    var n := em.labelCounter;
    var e1 := Put(Put(em, CommentStmLines(s.line, "WhileStmContext")).(labelCounter := n + 2), [LabelDef(n)]);
    CondCodeOnly(s, Some("X0"), env, p, e1);
    var c2 := CondCode(s, Some("X0"), env, p, e1);
    if c2.Ok? {
      var e3 := Put(c2.value, ["  NOT", "  JMN " + LabelName(n + 1)]);
      BlockPlaces(s.body, env, p, e3, k);
      var b := BlockCode(s.body, env, p, e3);
      if b.Ok? {
        var f := BlockBranches(s.body);
        var r := Put(b.value, ["  JMP " + LabelName(n), LabelDef(n + 1)]);
        assert WhileCode(s, env, p, em) == Ok(r);
        assert e3.labelCounter == n + 2 && b.value.labelCounter == n + 2 + 2 * f;
        LoopJoin(em, s.line, c2.value, b.value, n, k, f);
        BranchesOf(s);
        assert r.labelCounter == n + 2 * Branches(s);
      }
    }
  }

  lemma BlockStretches(n: int, k: int, e: nat, f: nat)
    ensures Once(n, n + 2 * e, k) + Once(n + 2 * e, n + 2 * e + 2 * f, k) == Once(n, n + 2 * (e + f), k)
  {
  }

  /** A block places the labels of its statements, one statement after the other. */
  lemma {:induction false} BlockPlaces(ss: seq<Stmt>, env: Env, p: int, em: Emitter, k: nat)
    requires em.labelCounter >= 0
    ensures var r, n := BlockCode(ss, env, p, em), em.labelCounter;
      r.Ok? ==> (r.value.labelCounter == n + 2 * BlockBranches(ss) &&
        Places(em, r.value, k, Once(n, n + 2 * BlockBranches(ss), k)))
    decreases ss, 4
  {
    var n := em.labelCounter;
    if |ss| == 0 {
      assert em.lines[|em.lines|..] == [];
    } else {
      var q, last := ss[..|ss| - 1], ss[|ss| - 1];
      BlockPlaces(q, env, p, em, k);
      var b := BlockCode(q, env, p, em);
      if b.Ok? {
        StmtPlaces(last, env, p, b.value, k);
        var r := StmtCode(last, env, p, b.value);
        if r.Ok? {
          var e, f := BlockBranches(q), Branches(last);
          PlacesTrans(em, b.value, r.value, k, Once(n, n + 2 * e, k), Once(n + 2 * e, n + 2 * e + 2 * f, k));
          BlockStretches(n, k, e, f);
        }
      }
    }
  }

  // ------------------------------------------------------------ the guarantee

  /**
   * The lines a compiled block adds define each label from the counter at
   * its start up to the counter at its end exactly once, and no other
   * label; the counter moves on by two for every `if` and `while`.
   */
  lemma BlockLabelsOnce(ss: seq<Stmt>, env: Env, p: int, em: Emitter, k: nat)
    requires em.labelCounter >= 0 && BlockCode(ss, env, p, em).Ok?
    ensures var out := BlockCode(ss, env, p, em).value;
      out.labelCounter == em.labelCounter + 2 * BlockBranches(ss) &&
      |em.lines| <= |out.lines| && out.lines[..|em.lines|] == em.lines &&
      Count(out.lines[|em.lines|..], LabelDef(k)) == if em.labelCounter <= k < out.labelCounter then 1 else 0
  {
    BlockPlaces(ss, env, p, em, k);
  }
}
