/**
 * The code emission of CompilerVisitor.java, the compiler from the small
 * while-language to Mima assembler.  The parse tree the visitor walks is
 * replaced by the syntax tree below; the visitor's state (emitted lines,
 * local names, label counter, expression stack) becomes the fields of a
 * class, and each visit becomes a method proved against a pure
 * description of the same emission (`ExprCode`, `StmtCode`, ...), which
 * threads an `Emitter` value through the visit.  Exceptions become `Fail`
 * outcomes; what the visitor prints to the error stream is kept in a log.
 */
module Compiler {
  import opened Wrappers
  import opened Text
  import opened BoundedStacks

  const STACK_BOUND := 10
  /** The message of the TokenedException thrown for an operator the visitor does not handle. */
  const UNKNOWN := "Unknown"

  // ------------------------------------------------------------ syntax

  datatype Expr =
    | Lit(text: string)
    | Var(id: string)
    | Un(op: string, arg: Expr)
    | Bin(op: string, arg1: Expr, arg2: Expr)
    | ArrayRead(line: int, id: string, index: Expr)

  /** Statements carry their source line, which the statement comment shows. */
  datatype Stmt =
    | Halt(line: int)
    | Return(line: int, id: string)
    | Assign(line: int, target: string, expr: Expr)
    | If0(line: int, arg1: Expr, thenBlk: seq<Stmt>, elseBlk: seq<Stmt>)
    | IfCmp(line: int, arg1: Expr, op: string, arg2: Expr, thenBlk: seq<Stmt>, elseBlk: seq<Stmt>)
    | While(line: int, arg1: Expr, op: string, arg2: Expr, body: seq<Stmt>)

  /** A global: its name, an optional initial value text and an optional cell count. */
  datatype Global = Global(id: string, val: Option<string>, count: Option<int>)

  datatype Function = Function(name: string, args: seq<string>, locs: seq<string>, body: seq<Stmt>)

  datatype File = File(globals: seq<Global>, functions: seq<Function>)

  /** The names a visit resolves variables against. */
  datatype Env = Env(locals: seq<string>, globals: set<string>)

  /** What the visitor has produced so far: its lines, its error-stream log and its label counter. */
  datatype Emitter = Emitter(lines: seq<string>, log: seq<string>, labelCounter: int)

  // ------------------------------------------------------------ small pieces

  function Put(em: Emitter, ls: seq<string>): Emitter
  {
    em.(lines := em.lines + ls)
  }

  /** `comment`: a message starting with "# " is a section heading of three lines. */
  function CommentLines(msg: string): seq<string>
  {
    if |msg| >= 2 && msg[..2] == "# " then ["", "; ------------------", "; " + msg[2..]]
    else ["  ; " + msg]
  }

  /** `commentStm`: the statement's line and the simple name of its parse-tree class. */
  function CommentStmLines(line: int, kind: string): seq<string>
  {
    CommentLines("line " + IntToString(line) + ": " + kind)
  }

  function LabelName(n: int): string
  {
    "L" + IntToString(n)
  }

  /** The line that places label n. */
  function LabelDef(n: int): string
  {
    LabelName(n) + ":"
  }

  /** `List.indexOf`: the first position of x, or -1. */
  function IndexOf(xs: seq<string>, x: string): (i: int)
    ensures -1 <= i < |xs|
    ensures i == -1 <==> x !in xs
    ensures i >= 0 ==> xs[i] == x && x !in xs[..i]
  {
    if |xs| == 0 then -1
    else if xs[0] == x then 0
    else
      var j := IndexOf(xs[1..], x);
      if j == -1 then -1 else j + 1
  }

  /** The instruction of a binary operator, up to its operand. */
  function BinOp(op: string): Option<string>
  {
    if op == "+" then Some("  ADD ")
    else if op == "&" then Some("  AND ")
    else if op == "|" then Some("  OR ")
    else if op == "^" then Some("  XOR ")
    else None
  }

  /** The comparison of an `if` or `while` against a cell; other operators emit nothing. */
  function Compare(op: string, cell: string): seq<string>
  {
    if op == "=" then ["  EQL " + cell]
    else if op == "<=" then ["  NOT", "  ADD " + cell]
    else []
  }

  /** A name that is neither local nor global is reported on the error stream. */
  function Warn(env: Env, v: string, em: Emitter): Emitter
  {
    if v !in env.globals then em.(log := em.log + ["UNKNOWN " + v]) else em
  }

  // ------------------------------------------------------------ emission

  /** `loadVar`: a local is read through SP, using the cell at the stack pointer. */
  function LoadVarCode(env: Env, v: string, p: int, em: Emitter): Result<Emitter, string>
  {
    var idx := IndexOf(env.locals, v);
    if idx == -1 then Ok(Put(Warn(env, v, em), ["  LDV " + v]))
    else
      var x0 :- Slot(p, STACK_BOUND);
      Ok(Put(em, ["  LDC " + IntToString(idx + 1), "  ADD SP", "  STV " + x0, "  LDIV " + x0]))
  }

  /** `storeVar`: a local is written through SP, using the cells at and above the stack pointer. */
  function StoreVarCode(env: Env, v: string, p: int, em: Emitter): Result<Emitter, string>
  {
    var idx := IndexOf(env.locals, v);
    if idx == -1 then Ok(Put(Warn(env, v, em), ["  STV " + v]))
    else
      var x0 :- Slot(p, STACK_BOUND);
      var x1 :- Slot(p + 1, STACK_BOUND);
      Ok(Put(em, ["  STV " + x0, "  LDC " + IntToString(idx + 1), "  ADD SP", "  STV " + x0, "  LDV " + x1, "  LDIV " + x0]))
  }

  /** An expression evaluated into the accumulator, with the stack pointer at p. */
  function ExprCode(e: Expr, env: Env, p: int, em: Emitter): Result<Emitter, string>
    decreases e, 1
  {
    match e
    case Lit(t) => Ok(Put(em, ["  LDC " + t]))
    case Var(v) => LoadVarCode(env, v, p, em)
    case Un(_, _) => UnCode(e, env, p, em)
    case Bin(_, _, _) => BinCode(e, env, p, em)
    case ArrayRead(_, _, _) => ArrayCode(e, env, p, em)
  }

  /** `visitUnExp`: only "~" and "*" compile. */
  function UnCode(e: Expr, env: Env, p: int, em: Emitter): Result<Emitter, string>
    requires e.Un?
    decreases e, 0
  {
    var em1 :- ExprCode(e.arg, env, p, em);
    var _ :- Slot(p, STACK_BOUND);
    if e.op == "~" then Ok(Put(em1, ["  NOT"]))
    else if e.op == "*" then Ok(Put(em1, ["  RAR"]))
    else Err(UNKNOWN)
  }

  /** `visitBinExp`: the first operand is parked in the cell one above the pointer. */
  function BinCode(e: Expr, env: Env, p: int, em: Emitter): Result<Emitter, string>
    requires e.Bin?
    decreases e, 0
  {
    var em1 :- ExprCode(e.arg1, env, p, em);
    var x0 :- Slot(p + 1, STACK_BOUND);
    var em2 :- ExprCode(e.arg2, env, p + 1, Put(em1, ["  STV " + x0]));
    if BinOp(e.op).Some? then Ok(Put(em2, [BinOp(e.op).value + x0])) else Err(UNKNOWN)
  }

  /** `visitArrayExp`: the index is added to the array's base address and read through. */
  function ArrayCode(e: Expr, env: Env, p: int, em: Emitter): Result<Emitter, string>
    requires e.ArrayRead?
    decreases e, 0
  {
    var em1 :- ExprCode(e.index, env, p, Put(em, CommentStmLines(e.line, "ArrayExpContext")));
    var x0 :- Slot(p + 1, STACK_BOUND);
    var em2 :- LoadVarCode(env, e.id, p + 1, Put(em1, ["  STV " + x0]));
    Ok(Put(em2, ["  ADD " + x0, "  STV " + x0, "  LDIV " + x0]))
  }

  function StmtCode(s: Stmt, env: Env, p: int, em: Emitter): Result<Emitter, string>
    decreases s, 2
  {
    match s
    case Halt(line) => Ok(Put(em, CommentStmLines(line, "HaltStmContext") + ["  HALT"]))
    case Return(_, _) => ReturnCode(s, env, p, em)
    case Assign(line, target, e) =>
      var em1 :- ExprCode(e, env, p, Put(em, CommentStmLines(line, "AssignStmContext")));
      StoreVarCode(env, target, p, em1)
    case If0(line, a, _, _) =>
      var em1 :- ExprCode(a, env, p, Put(em, CommentStmLines(line, "If0StmContext")));
      IfJmnCode(s, env, p, em1)
    case IfCmp(_, _, _, _, _, _) => IfCmpCode(s, env, p, em)
    case While(_, _, _, _, _) => WhileCode(s, env, p, em)
  }

  /** `visitReturnStm`: the value goes to the cell SP + 1 and control back through SP. */
  function ReturnCode(s: Stmt, env: Env, p: int, em: Emitter): Result<Emitter, string>
    requires s.Return?
  {
    var x0 :- Slot(p, STACK_BOUND);
    var em1 := Put(Put(Put(Put(em, CommentStmLines(s.line, "ReturnStmContext")), CommentLines("SP[1] into X1")),
      ["  LDC 1", "  ADD SP", "  STV " + x0]), CommentLines("arg into accu"));
    var em2 :- LoadVarCode(env, s.id, p, em1);
    Ok(Put(Put(em2, CommentLines("store result value and return")), ["  STIV " + x0, "  JIND SP"]))
  }

  function IfCmpCode(s: Stmt, env: Env, p: int, em: Emitter): Result<Emitter, string>
    requires s.IfCmp?
    decreases s, 1
  {
    var em1 :- CondCode(s, None, env, p, Put(em, CommentStmLines(s.line, "IfCmpStmContext")));
    IfJmnCode(s, env, p, em1)
  }

  /** `visitWhileStm`: the loop label, the condition, the exit test, the body, the jump back. */
  function WhileCode(s: Stmt, env: Env, p: int, em: Emitter): Result<Emitter, string>
    requires s.While?
    decreases s, 1
  {
    var n := em.labelCounter;
    var em1 := Put(Put(em, CommentStmLines(s.line, "WhileStmContext")).(labelCounter := n + 2), [LabelDef(n)]);
    var em2 :- CondCode(s, Some("X0"), env, p, em1);
    var em3 :- BlockCode(s.body, env, p, Put(em2, ["  NOT", "  JMN " + LabelName(n + 1)]));
    Ok(Put(em3, ["  JMP " + LabelName(n), LabelDef(n + 1)]))
  }

  /**
   * The condition both `if` with an operator and `while` compile: the first
   * operand is parked in the cell one above the pointer, the second is
   * computed, and the comparison names that cell, or `fixedCell` when one is
   * given (a `while` gives the literal X0).
   */
  function CondCode(s: Stmt, fixedCell: Option<string>, env: Env, p: int, em: Emitter): Result<Emitter, string>
    requires s.IfCmp? || s.While?
    decreases s, 0
  {
    var em1 :- ExprCode(s.arg1, env, p, em);
    var x0 :- Slot(p + 1, STACK_BOUND);
    var em2 :- ExprCode(s.arg2, env, p + 1, Put(em1, ["  STV " + x0]));
    Ok(Put(em2, Compare(s.op, if fixedCell.Some? then fixedCell.value else x0)))
  }

  /** `visitIfJMN`: two fresh labels, the else block first, then the then block. */
  function IfJmnCode(s: Stmt, env: Env, p: int, em: Emitter): Result<Emitter, string>
    requires s.If0? || s.IfCmp?
    decreases s, 0
  {
    var n := em.labelCounter;
    var em1 :- BlockCode(s.elseBlk, env, p, Put(em.(labelCounter := n + 2), ["  JMN " + LabelName(n)]));
    var em2 :- BlockCode(s.thenBlk, env, p, Put(em1, ["  JMP " + LabelName(n + 1), LabelDef(n)]));
    Ok(Put(em2, [LabelDef(n + 1)]))
  }

  /** The statements of a block in order, stopping at the first failure. */
  function BlockCode(ss: seq<Stmt>, env: Env, p: int, em: Emitter): Result<Emitter, string>
    decreases ss, 3
  {
    if |ss| == 0 then Ok(em)
    else
      var em1 :- BlockCode(ss[..|ss| - 1], env, p, em);
      StmtCode(ss[|ss| - 1], env, p, em1)
  }

  /** The head of a function: its heading, its return-value cell and the store of the return address. */
  function FunctionHead(f: Function, em: Emitter): Emitter
  {
    Put(Put(Put(Put(em, CommentLines("# Function " + f.name)), [f.name + ": DS 0 ; Ret value"]),
      CommentLines("Ret address to SP")), ["  LDV " + f.name, "  STIV SP"])
  }

  /** `visitFunction`: the head, the body with the arguments and then the locals as local names, the final return. */
  function FunctionCode(f: Function, globals: set<string>, p: int, em: Emitter): Result<Emitter, string>
  {
    var em1 :- BlockCode(f.body, Env(f.args + f.locs, globals), p, FunctionHead(f, em));
    Ok(Put(Put(em1, CommentLines("return at function end, value is indetermined")), ["  JIND SP"]))
  }

  /** The functions in order, stopping at the first failure. */
  function FunctionsCode(fs: seq<Function>, globals: set<string>, p: int, em: Emitter): Result<Emitter, string>
  {
    if |fs| == 0 then Ok(em)
    else
      var em1 :- FunctionsCode(fs[..|fs| - 1], globals, p, em);
      FunctionCode(fs[|fs| - 1], globals, p, em1)
  }

  /** The declaration of the scratch cell at depth k. */
  function StackCell(k: int): string
  {
    SlotName(k) + ": DS 0"
  }

  /** The declarations of the first k scratch cells. */
  function StackCells(k: nat): seq<string>
  {
    if k == 0 then [] else StackCells(k - 1) + [StackCell(k - 1)]
  }

  function GlobalDecl(g: Global): string
  {
    g.id + ": DS" + if g.val.Some? then " " + g.val.value else ""
  }

  /**
   * The global declarations, and the running count of global cells: a
   * global with a count is followed by an address specification.
   */
  function GlobalsCode(gs: seq<Global>, em: Emitter): (Emitter, int)
  {
    if |gs| == 0 then (em, 0)
    else
      var (em1, c) := GlobalsCode(gs[..|gs| - 1], em);
      var g := gs[|gs| - 1];
      if g.count.Some? then
        (Put(Put(em1, [GlobalDecl(g)]), ["* = " + IntToString(c + g.count.value)]), c + g.count.value)
      else (Put(em1, [GlobalDecl(g)]), c + 1)
  }

  /** The lines before the globals: the stack pointer cell and the scratch cells X0 to X10. */
  function Prologue(em: Emitter): Emitter
  {
    Put(Put(Put(em, CommentLines("# Internal and stack variables")), ["SP: DS 0x80000"]), StackCells(STACK_BOUND + 1))
  }

  /** `visitFile`: prologue, globals, the start code that calls main, then the functions. */
  function FileCode(f: File, globals: set<string>, p: int, em: Emitter): Result<Emitter, string>
  {
    var em1 := GlobalsCode(f.globals, Put(Prologue(em), CommentLines("# Global variables"))).0;
    FunctionsCode(f.functions, globals, p, Put(Put(em1, CommentLines("# Program start")), ["START: JMS main", "  HALT"]))
  }

  // ------------------------------------------------------------ the visitor

  class CompilerVisitor {
    var lines: seq<string>
    /** What the visitor prints to the error stream. */
    var errLog: seq<string>
    /** Never filled: every name that is not local counts as unknown. */
    const globals: set<string>
    var locals: seq<string>
    var labelCounter: int
    const boundedStack: BoundedStack

    constructor ()
      ensures lines == [] && errLog == [] && globals == {} && locals == [] && labelCounter == 0
      ensures fresh(boundedStack) && boundedStack.pointer == 0 && Valid()
    {
      lines := [];
      errLog := [];
      globals := {};
      locals := [];
      labelCounter := 0;
      boundedStack := new BoundedStack(STACK_BOUND);
    }

    ghost predicate Valid()
      reads this, boundedStack
    {
      boundedStack.stackBound == STACK_BOUND && boundedStack.pointer >= 0
    }

    function State(): Emitter
      reads this
    {
      Emitter(lines, errLog, labelCounter)
    }

    function Names(): Env
      reads this
    {
      Env(locals, globals)
    }

    function GetCompilation(): (ls: seq<string>)
      reads this
    {
      lines
    }

    /**
     * A visit ended as its description says: on success with exactly the
     * described lines, log and label counter, and the stack pointer back
     * at p; on failure with the described error.
     */
    ghost predicate Finished(r: Outcome<string>, spec: Result<Emitter, string>, p: int)
      reads this, boundedStack
    {
      match spec
      case Ok(em) => r == Pass && State() == em && boundedStack.pointer == p
      case Err(msg) => r == Fail(msg)
    }

    method Emit(s: string)
      modifies this
      ensures lines == old(lines) + [s] && State() == Put(old(State()), [s])
      ensures errLog == old(errLog) && labelCounter == old(labelCounter) && locals == old(locals)
    {
      lines := lines + [s];
    }

    method EmitComment(msg: string)
      modifies this
      ensures State() == Put(old(State()), CommentLines(msg)) && locals == old(locals)
    {
      if |msg| >= 2 && msg[..2] == "# " {
        Emit("");
        Emit("; ------------------");
        Emit("; " + msg[2..]);
      } else {
        Emit("  ; " + msg);
      }
    }

    method EmitCommentStm(line: int, kind: string)
      modifies this
      ensures State() == Put(old(State()), CommentStmLines(line, kind)) && locals == old(locals)
    {
      EmitComment("line " + IntToString(line) + ": " + kind);
    }

    method LoadVar(v: string) returns (r: Outcome<string>)
      requires Valid()
      modifies this
      ensures locals == old(locals)
      ensures Finished(r, LoadVarCode(Names(), v, boundedStack.pointer, old(State())), boundedStack.pointer)
    {
      var idx := IndexOf(locals, v);
      if idx == -1 {
        if v !in globals {
          errLog := errLog + ["UNKNOWN " + v];
        }
        Emit("  LDV " + v);
      } else {
        var x0 := boundedStack.Current(0);
        if x0.Err? {
          return Fail(x0.error);
        }
        ghost var before := State();
        Emit("  LDC " + IntToString(idx + 1));
        Emit("  ADD SP");
        Emit("  STV " + x0.value);
        Emit("  LDIV " + x0.value);
        PutFour(before, "  LDC " + IntToString(idx + 1), "  ADD SP", "  STV " + x0.value, "  LDIV " + x0.value);
      }
      return Pass;
    }

    method StoreVar(v: string) returns (r: Outcome<string>)
      requires Valid()
      modifies this
      ensures locals == old(locals)
      ensures Finished(r, StoreVarCode(Names(), v, boundedStack.pointer, old(State())), boundedStack.pointer)
    {
      var idx := IndexOf(locals, v);
      if idx == -1 {
        if v !in globals {
          errLog := errLog + ["UNKNOWN " + v];
        }
        Emit("  STV " + v);
      } else {
        var x0 := boundedStack.Current(0);
        if x0.Err? {
          return Fail(x0.error);
        }
        var x1 := boundedStack.Current(1);
        if x1.Err? {
          return Fail(x1.error);
        }
        ghost var before := State();
        Emit("  STV " + x0.value);
        Emit("  LDC " + IntToString(idx + 1));
        Emit("  ADD SP");
        Emit("  STV " + x0.value);
        Emit("  LDV " + x1.value);
        Emit("  LDIV " + x0.value);
        PutSix(before, "  STV " + x0.value, "  LDC " + IntToString(idx + 1), "  ADD SP",
          "  STV " + x0.value, "  LDV " + x1.value, "  LDIV " + x0.value);
      }
      return Pass;
    }

    // -------------------------------------------------- expressions

    method VisitExpr(e: Expr) returns (r: Outcome<string>)
      requires Valid()
      modifies this, boundedStack
      ensures Valid() && locals == old(locals)
      ensures Finished(r, ExprCode(e, old(Names()), old(boundedStack.pointer), old(State())), old(boundedStack.pointer))
      decreases e, 1
    {
      match e
      case Lit(t) =>
        Emit("  LDC " + t);
        r := Pass;
      case Var(v) =>
        r := LoadVar(v);
      case Un(_, _) =>
        r := VisitUnExp(e);
      case Bin(_, _, _) =>
        r := VisitBinExp(e);
      case ArrayRead(_, _, _) =>
        r := VisitArrayExp(e);
    }

    /** The operand first; "-" emits its negation and then falls through to the error. */
    method VisitUnExp(e: Expr) returns (r: Outcome<string>)
      requires e.Un? && Valid()
      modifies this, boundedStack
      ensures Valid() && locals == old(locals)
      ensures Finished(r, UnCode(e, old(Names()), old(boundedStack.pointer), old(State())), old(boundedStack.pointer))
      ensures var p, arg := old(boundedStack.pointer), ExprCode(e.arg, old(Names()), old(boundedStack.pointer), old(State()));
        e.op == "-" && arg.Ok? && p < STACK_BOUND ==>
          State() == Put(arg.value, ["  NOT", "  STV " + SlotName(p), "  LDC 1", "  ADD " + SlotName(p)])
      decreases e, 0
    {
      r := VisitExpr(e.arg);
      if r.Fail? {
        return;
      }
      var x0 := boundedStack.Current(0);
      if x0.Err? {
        return Fail(x0.error);
      }
      if e.op == "~" {
        Emit("  NOT");
      } else if e.op == "*" {
        Emit("  RAR");
      } else {
        if e.op == "-" {
          ghost var before := State();
          Emit("  NOT");
          Emit("  STV " + x0.value);
          Emit("  LDC 1");
          Emit("  ADD " + x0.value);
          PutFour(before, "  NOT", "  STV " + x0.value, "  LDC 1", "  ADD " + x0.value);
        }
        return Fail(UNKNOWN);
      }
      return Pass;
    }

    /** The first operand is parked in a fresh cell while the second is computed. */
    method VisitBinExp(e: Expr) returns (r: Outcome<string>)
      requires e.Bin? && Valid()
      modifies this, boundedStack
      ensures Valid() && locals == old(locals)
      ensures Finished(r, BinCode(e, old(Names()), old(boundedStack.pointer), old(State())), old(boundedStack.pointer))
      decreases e, 0
    {
      r := VisitExpr(e.arg1);
      if r.Fail? {
        return;
      }
      var x0 := boundedStack.Inc();
      if x0.Err? {
        return Fail(x0.error);
      }
      Emit("  STV " + x0.value);
      r := VisitExpr(e.arg2);
      if r.Fail? {
        return;
      }
      if e.op == "+" {
        Emit("  ADD " + x0.value);
      } else if e.op == "&" {
        Emit("  AND " + x0.value);
      } else if e.op == "|" {
        Emit("  OR " + x0.value);
      } else if e.op == "^" {
        Emit("  XOR " + x0.value);
      } else {
        return Fail(UNKNOWN);
      }
      boundedStack.Dec();
      return Pass;
    }

    method VisitArrayExp(e: Expr) returns (r: Outcome<string>)
      requires e.ArrayRead? && Valid()
      modifies this, boundedStack
      ensures Valid() && locals == old(locals)
      ensures Finished(r, ArrayCode(e, old(Names()), old(boundedStack.pointer), old(State())), old(boundedStack.pointer))
      decreases e, 0
    {
      EmitCommentStm(e.line, "ArrayExpContext");
      r := VisitExpr(e.index);
      if r.Fail? {
        return;
      }
      var myX := boundedStack.Inc();
      if myX.Err? {
        return Fail(myX.error);
      }
      Emit("  STV " + myX.value);
      r := LoadVar(e.id);
      if r.Fail? {
        return;
      }
      ghost var before := State();
      Emit("  ADD " + myX.value);
      Emit("  STV " + myX.value);
      Emit("  LDIV " + myX.value);
      PutTriple(before, "  ADD " + myX.value, "  STV " + myX.value, "  LDIV " + myX.value);
      boundedStack.Dec();
      return Pass;
    }

    // -------------------------------------------------- statements

    method VisitStmt(s: Stmt) returns (r: Outcome<string>)
      requires Valid()
      modifies this, boundedStack
      ensures Valid() && locals == old(locals)
      ensures Finished(r, StmtCode(s, old(Names()), old(boundedStack.pointer), old(State())), old(boundedStack.pointer))
      decreases s, 2
    {
      match s
      case Halt(_) => r := VisitHaltStm(s);
      case Return(_, _) => r := VisitReturnStm(s);
      case Assign(_, _, _) => r := VisitAssignStm(s);
      case If0(_, _, _, _) => r := VisitIf0Stm(s);
      case IfCmp(_, _, _, _, _, _) => r := VisitIfCmpStm(s);
      case While(_, _, _, _, _) => r := VisitWhileStm(s);
    }

    method VisitHaltStm(s: Stmt) returns (r: Outcome<string>)
      requires s.Halt? && Valid()
      modifies this
      ensures locals == old(locals)
      ensures Finished(r, StmtCode(s, old(Names()), boundedStack.pointer, old(State())), boundedStack.pointer)
    {
      EmitCommentStm(s.line, "HaltStmContext");
      Emit("  HALT");
      return Pass;
    }

    /** Stores the named value through the return cell SP[1] and jumps back. */
    method VisitReturnStm(s: Stmt) returns (r: Outcome<string>)
      requires s.Return? && Valid()
      modifies this
      ensures locals == old(locals)
      ensures Finished(r, ReturnCode(s, old(Names()), boundedStack.pointer, old(State())), boundedStack.pointer)
    {
      ghost var env, p, em := Names(), boundedStack.pointer, State();
      EmitCommentStm(s.line, "ReturnStmContext");
      var x0 := boundedStack.Current(0);
      if x0.Err? {
        assert ReturnCode(s, env, p, em) == Err(x0.error);
        return Fail(x0.error);
      }
      EmitComment("SP[1] into X1");
      ghost var b := State();
      Emit("  LDC 1");
      Emit("  ADD SP");
      Emit("  STV " + x0.value);
      PutTriple(b, "  LDC 1", "  ADD SP", "  STV " + x0.value);
      EmitComment("arg into accu");
      ghost var em1 := State();
      assert ReturnCode(s, env, p, em) == (match LoadVarCode(env, s.id, p, em1)
        case Err(e) => Err(e)
        case Ok(em2) => Ok(Put(Put(em2, CommentLines("store result value and return")), ["  STIV " + x0.value, "  JIND SP"])));
      r := LoadVar(s.id);
      if r.Fail? {
        return;
      }
      EmitComment("store result value and return");
      ghost var c := State();
      Emit("  STIV " + x0.value);
      Emit("  JIND SP");
      PutPair(c, "  STIV " + x0.value, "  JIND SP");
      return Pass;
    }

    method VisitAssignStm(s: Stmt) returns (r: Outcome<string>)
      requires s.Assign? && Valid()
      modifies this, boundedStack
      ensures Valid() && locals == old(locals)
      ensures Finished(r, StmtCode(s, old(Names()), old(boundedStack.pointer), old(State())), old(boundedStack.pointer))
      decreases s, 1
    {
      EmitCommentStm(s.line, "AssignStmContext");
      r := VisitExpr(s.expr);
      if r.Fail? {
        return;
      }
      r := StoreVar(s.target);
    }

    method VisitIf0Stm(s: Stmt) returns (r: Outcome<string>)
      requires s.If0? && Valid()
      modifies this, boundedStack
      ensures Valid() && locals == old(locals)
      ensures Finished(r, StmtCode(s, old(Names()), old(boundedStack.pointer), old(State())), old(boundedStack.pointer))
      decreases s, 1
    {
      EmitCommentStm(s.line, "If0StmContext");
      r := VisitExpr(s.arg1);
      if r.Fail? {
        return;
      }
      r := VisitIfJmn(s);
    }

    method VisitIfCmpStm(s: Stmt) returns (r: Outcome<string>)
      requires s.IfCmp? && Valid()
      modifies this, boundedStack
      ensures Valid() && locals == old(locals)
      ensures Finished(r, IfCmpCode(s, old(Names()), old(boundedStack.pointer), old(State())), old(boundedStack.pointer))
      decreases s, 1
    {
      EmitCommentStm(s.line, "IfCmpStmContext");
      r := VisitCondition(s, None);
      if r.Fail? {
        return;
      }
      r := VisitIfJmn(s);
    }

    /**
     * The condition of an `if` with an operator or of a `while`; the
     * comparison is one switch here where the Java repeats it in both visits,
     * and `fixedCell` is the cell the `while` names in place of the parked one.
     */
    method VisitCondition(s: Stmt, fixedCell: Option<string>) returns (r: Outcome<string>)
      requires (s.IfCmp? || s.While?) && Valid()
      modifies this, boundedStack
      ensures Valid() && locals == old(locals)
      ensures Finished(r, CondCode(s, fixedCell, old(Names()), old(boundedStack.pointer), old(State())), old(boundedStack.pointer))
      decreases s, 0
    {
      ghost var env, p, em := Names(), boundedStack.pointer, State();
      r := VisitExpr(s.arg1);
      ghost var e1 := ExprCode(s.arg1, env, p, em);
      if r.Fail? {
        assert e1.Err? && CondCode(s, fixedCell, env, p, em) == Err(e1.error);
        return;
      }
      var x0 := boundedStack.Inc();
      if x0.Err? {
        assert CondCode(s, fixedCell, env, p, em) == Err(x0.error);
        return Fail(x0.error);
      }
      Emit("  STV " + x0.value);
      r := VisitExpr(s.arg2);
      ghost var e2 := ExprCode(s.arg2, env, p + 1, Put(e1.value, ["  STV " + x0.value]));
      if r.Fail? {
        assert e2.Err? && CondCode(s, fixedCell, env, p, em) == Err(e2.error);
        return;
      }
      var cell := if fixedCell.Some? then fixedCell.value else x0.value;
      ghost var st := State();
      if s.op == "=" {
        Emit("  EQL " + cell);
      } else if s.op == "<=" {
        Emit("  NOT");
        Emit("  ADD " + cell);
        PutPair(st, "  NOT", "  ADD " + cell);
      }
      assert State() == Put(e2.value, Compare(s.op, cell));
      boundedStack.Dec();
    }

    /** Reserves two labels, then the else block, then the then block. */
    method VisitIfJmn(s: Stmt) returns (r: Outcome<string>)
      requires (s.If0? || s.IfCmp?) && Valid()
      modifies this, boundedStack
      ensures Valid() && locals == old(locals)
      ensures Finished(r, IfJmnCode(s, old(Names()), old(boundedStack.pointer), old(State())), old(boundedStack.pointer))
      decreases s, 0
    {
      ghost var env, p, em, n := Names(), boundedStack.pointer, State(), labelCounter;
      var lblThen := LabelName(labelCounter);
      labelCounter := labelCounter + 1;
      var lblAfter := LabelName(labelCounter);
      labelCounter := labelCounter + 1;
      Emit("  JMN " + lblThen);
      ghost var em1 := State();
      assert em1 == Put(em.(labelCounter := n + 2), ["  JMN " + LabelName(n)]);
      r := VisitBlock(s.elseBlk);
      ghost var b1 := BlockCode(s.elseBlk, env, p, em1);
      if r.Fail? {
        assert b1.Err? && IfJmnCode(s, env, p, em) == Err(b1.error);
        return;
      }
      ghost var st := State();
      Emit("  JMP " + lblAfter);
      Emit(lblThen + ":");
      PutPair(st, "  JMP " + LabelName(n + 1), LabelDef(n));
      ghost var em2 := State();
      assert em2 == Put(b1.value, ["  JMP " + LabelName(n + 1), LabelDef(n)]);
      r := VisitBlock(s.thenBlk);
      ghost var b2 := BlockCode(s.thenBlk, env, p, em2);
      if r.Fail? {
        assert b2.Err? && IfJmnCode(s, env, p, em) == Err(b2.error);
        return;
      }
      Emit(lblAfter + ":");
      assert IfJmnCode(s, env, p, em) == Ok(Put(b2.value, [LabelDef(n + 1)]));
    }

    /** The comparison names the literal cell X0, not the cell the first operand went to. */
    method VisitWhileStm(s: Stmt) returns (r: Outcome<string>)
      requires s.While? && Valid()
      modifies this, boundedStack
      ensures Valid() && locals == old(locals)
      ensures Finished(r, WhileCode(s, old(Names()), old(boundedStack.pointer), old(State())), old(boundedStack.pointer))
      decreases s, 1
    {
      ghost var env, p, em, n := Names(), boundedStack.pointer, State(), labelCounter;
      WhileSteps(s, env, p, em);
      EmitCommentStm(s.line, "WhileStmContext");
      var lblLoop := LabelName(labelCounter);
      labelCounter := labelCounter + 1;
      var lblAfter := LabelName(labelCounter);
      labelCounter := labelCounter + 1;
      Emit(lblLoop + ":");
      ghost var em1 := State();
      assert em1 == Put(Put(em, CommentStmLines(s.line, "WhileStmContext")).(labelCounter := n + 2), [LabelDef(n)]);
      r := VisitCondition(s, Some("X0"));
      ghost var c := CondCode(s, Some("X0"), env, p, em1);
      if r.Fail? {
        return;
      }
      ghost var st := State();
      Emit("  NOT");
      Emit("  JMN " + lblAfter);
      PutPair(st, "  NOT", "  JMN " + LabelName(n + 1));
      ghost var pre := Put(c.value, ["  NOT", "  JMN " + LabelName(n + 1)]);
      assert State() == pre;
      r := VisitBlock(s.body);
      ghost var b := BlockCode(s.body, env, p, pre);
      if r.Fail? {
        return;
      }
      Emit("  JMP " + lblLoop);
      Emit(lblAfter + ":");
      PutPair(b.value, "  JMP " + LabelName(n), LabelDef(n + 1));
    }

    /** The statements in order; the first failure ends the block. */
    method VisitBlock(ss: seq<Stmt>) returns (r: Outcome<string>)
      requires Valid()
      modifies this, boundedStack
      ensures Valid() && locals == old(locals)
      ensures Finished(r, BlockCode(ss, old(Names()), old(boundedStack.pointer), old(State())), old(boundedStack.pointer))
      decreases ss, 4
    {
      ghost var env, p, em := Names(), boundedStack.pointer, State();
      for i := 0 to |ss|
        invariant Valid() && locals == old(locals) && boundedStack.pointer == p
        invariant BlockCode(ss[..i], env, p, em) == Ok(State())
      {
        assert ss[..i + 1][..i] == ss[..i];
        r := VisitStmt(ss[i]);
        if r.Fail? {
          BlockErrPersists(ss, env, p, em, i + 1);
          return;
        }
      }
      assert ss[..|ss|] == ss;
      return Pass;
    }

    /** The locals are the arguments and then the declared locals, in order, replacing those of the previous function. */
    method VisitFunction(f: Function) returns (r: Outcome<string>)
      requires Valid()
      modifies this, boundedStack
      ensures Valid() && locals == f.args + f.locs
      ensures Finished(r, FunctionCode(f, globals, old(boundedStack.pointer), old(State())), old(boundedStack.pointer))
    {
      ghost var p, em := boundedStack.pointer, State();
      FunctionSteps(f, globals, p, em);
      EmitComment("# Function " + f.name);
      Emit(f.name + ": DS 0 ; Ret value");
      ghost var st := State();
      locals := [];
      for i := 0 to |f.args|
        invariant locals == f.args[..i] && State() == st
        modifies this
      {
        locals := locals + [f.args[i]];
        assert f.args[..i + 1] == f.args[..i] + [f.args[i]];
      }
      assert f.args[..|f.args|] == f.args;
      for i := 0 to |f.locs|
        invariant locals == f.args + f.locs[..i] && State() == st
        modifies this
      {
        locals := locals + [f.locs[i]];
        assert f.locs[..i + 1] == f.locs[..i] + [f.locs[i]];
      }
      assert f.locs[..|f.locs|] == f.locs;
      EmitComment("Ret address to SP");
      ghost var st2 := State();
      Emit("  LDV " + f.name);
      Emit("  STIV SP");
      PutPair(st2, "  LDV " + f.name, "  STIV SP");
      ghost var head := FunctionHead(f, em);
      assert State() == head && Names() == Env(f.args + f.locs, globals);
      r := VisitBlock(f.body);
      ghost var b := BlockCode(f.body, Env(f.args + f.locs, globals), p, head);
      if r.Fail? {
        return;
      }
      assert State() == b.value;
      EmitComment("return at function end, value is indetermined");
      Emit("  JIND SP");
    }

    /** The stack pointer cell and the scratch cells X0 to X10. */
    method EmitPrologue()
      modifies this
      ensures State() == Prologue(old(State())) && locals == old(locals)
    {
      ghost var em := State();
      EmitComment("# Internal and stack variables");
      Emit("SP: DS 0x80000");
      ghost var st := State();
      for i := 0 to STACK_BOUND + 1
        invariant State() == Put(st, StackCells(i)) && locals == old(locals)
      {
        Emit(StackCell(i));
        assert st.lines + StackCells(i) + [StackCell(i)] == st.lines + StackCells(i + 1);
      }
    }

    /** The globals in order; the count of their cells is a local of the visit. */
    method VisitGlobals(gs: seq<Global>) returns (countGlobal: int)
      modifies this
      ensures (State(), countGlobal) == GlobalsCode(gs, old(State())) && locals == old(locals)
    {
      ghost var g0 := State();
      countGlobal := 0;
      for i := 0 to |gs|
        invariant (State(), countGlobal) == GlobalsCode(gs[..i], g0) && locals == old(locals)
      {
        assert gs[..i + 1][..i] == gs[..i];
        var g := gs[i];
        Emit(GlobalDecl(g));
        if g.count.Some? {
          Emit("* = " + IntToString(countGlobal + g.count.value));
          countGlobal := countGlobal + g.count.value;
        } else {
          countGlobal := countGlobal + 1;
        }
      }
      assert gs[..|gs|] == gs;
    }

    /** The functions in order; the first failure ends the file. */
    method VisitFunctions(fs: seq<Function>) returns (r: Outcome<string>)
      requires Valid()
      modifies this, boundedStack
      ensures Valid()
      ensures Finished(r, FunctionsCode(fs, globals, old(boundedStack.pointer), old(State())), old(boundedStack.pointer))
    {
      ghost var p, em := boundedStack.pointer, State();
      for i := 0 to |fs|
        invariant Valid() && boundedStack.pointer == p
        invariant FunctionsCode(fs[..i], globals, p, em) == Ok(State())
      {
        assert fs[..i + 1][..i] == fs[..i];
        r := VisitFunction(fs[i]);
        if r.Fail? {
          FunctionsErrPersists(fs, globals, p, em, i + 1);
          return;
        }
      }
      assert fs[..|fs|] == fs;
      return Pass;
    }

    /** The whole program: prologue, globals, the start code, then every function. */
    method VisitFile(f: File) returns (r: Outcome<string>)
      requires Valid()
      modifies this, boundedStack
      ensures Valid()
      ensures Finished(r, FileCode(f, globals, old(boundedStack.pointer), old(State())), old(boundedStack.pointer))
    {
      EmitPrologue();
      EmitComment("# Global variables");
      var _ := VisitGlobals(f.globals);
      EmitComment("# Program start");
      ghost var st := State();
      Emit("START: JMS main");
      Emit("  HALT");
      PutPair(st, "START: JMS main", "  HALT");
      r := VisitFunctions(f.functions);
    }
  }

  // ------------------------------------------------------------ lemmas

  /** Once the functions fail on a prefix, they fail with that error as a whole. */
  lemma {:induction false} FunctionsErrPersists(fs: seq<Function>, globals: set<string>, p: int, em: Emitter, k: nat)
    requires k <= |fs| && FunctionsCode(fs[..k], globals, p, em).Err?
    ensures FunctionsCode(fs, globals, p, em) == FunctionsCode(fs[..k], globals, p, em)
    decreases |fs| - k
  {
    if k < |fs| {
      var q := fs[..|fs| - 1];
      assert q[..k] == fs[..k];
      FunctionsErrPersists(q, globals, p, em, k);
    } else {
      assert fs[..k] == fs;
    }
  }

  /** The description of a function, step by step. */
  lemma FunctionSteps(f: Function, globals: set<string>, p: int, em: Emitter)
    ensures var b := BlockCode(f.body, Env(f.args + f.locs, globals), p, FunctionHead(f, em));
      FunctionCode(f, globals, p, em) ==
        if b.Err? then Err(b.error)
        else Ok(Put(Put(b.value, CommentLines("return at function end, value is indetermined")), ["  JIND SP"]))
  {
  }

  /** The description of a `while`, step by step. */
  lemma WhileSteps(s: Stmt, env: Env, p: int, em: Emitter)
    requires s.While?
    ensures var n := em.labelCounter;
      var c := CondCode(s, Some("X0"), env, p, Put(Put(em, CommentStmLines(s.line, "WhileStmContext")).(labelCounter := n + 2), [LabelDef(n)]));
      WhileCode(s, env, p, em) ==
        if c.Err? then Err(c.error)
        else
          var b := BlockCode(s.body, env, p, Put(c.value, ["  NOT", "  JMN " + LabelName(n + 1)]));
          if b.Err? then Err(b.error) else Ok(Put(b.value, ["  JMP " + LabelName(n), LabelDef(n + 1)]))
  {
  }

  lemma IfJmnSteps(s: Stmt, env: Env, p: int, em: Emitter)
    requires s.If0? || s.IfCmp?
    ensures var n := em.labelCounter;
      var b1 := BlockCode(s.elseBlk, env, p, Put(em.(labelCounter := n + 2), ["  JMN " + LabelName(n)]));
      IfJmnCode(s, env, p, em) ==
        if b1.Err? then Err(b1.error)
        else
          var b2 := BlockCode(s.thenBlk, env, p, Put(b1.value, ["  JMP " + LabelName(n + 1), LabelDef(n)]));
          if b2.Err? then Err(b2.error) else Ok(Put(b2.value, [LabelDef(n + 1)]))
  {
  }

  /** Emitting lines one by one is emitting them together. */
  lemma PutPair(em: Emitter, a: string, b: string)
    ensures Put(Put(em, [a]), [b]) == Put(em, [a, b])
  {
    assert em.lines + [a] + [b] == em.lines + [a, b];
  }

  lemma PutTriple(em: Emitter, a: string, b: string, c: string)
    ensures Put(Put(Put(em, [a]), [b]), [c]) == Put(em, [a, b, c])
  {
    assert em.lines + [a] + [b] + [c] == em.lines + [a, b, c];
  }

  lemma PutFour(em: Emitter, a: string, b: string, c: string, d: string)
    ensures Put(Put(Put(Put(em, [a]), [b]), [c]), [d]) == Put(em, [a, b, c, d])
  {
    assert em.lines + [a] + [b] + [c] + [d] == em.lines + [a, b, c, d];
  }

  lemma PutSix(em: Emitter, a: string, b: string, c: string, d: string, e: string, f: string)
    ensures Put(Put(Put(Put(Put(Put(em, [a]), [b]), [c]), [d]), [e]), [f]) == Put(em, [a, b, c, d, e, f])
  {
    assert em.lines + [a] + [b] + [c] + [d] + [e] + [f] == em.lines + [a, b, c, d, e, f];
  }

  /** Once a block fails on a prefix, it fails with that error as a whole. */
  lemma {:induction false} BlockErrPersists(ss: seq<Stmt>, env: Env, p: int, em: Emitter, k: nat)
    requires k <= |ss| && BlockCode(ss[..k], env, p, em).Err?
    ensures BlockCode(ss, env, p, em) == BlockCode(ss[..k], env, p, em)
    decreases |ss| - k
  {
    if k < |ss| {
      var q := ss[..|ss| - 1];
      assert q[..k] == ss[..k];
      BlockErrPersists(q, env, p, em, k);
    } else {
      assert ss[..k] == ss;
    }
  }
}
