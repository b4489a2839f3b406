/**
 * BoundedStack.java: the compiler's expression stack.  It holds no values,
 * only a pointer; the cell at depth k is the scratch variable `Xk` the
 * compiled program declares, and asking for a cell at or past the bound
 * is an error.
 */
module BoundedStacks {
  import opened Wrappers
  import opened Text

  const OVERFLOW := "Overflowing the bounded stack. Decompose your expressions!"

  /** The name of the scratch cell at depth k. */
  function SlotName(k: int): string
  {
    "X" + IntToString(k)
  }

  /** The cell at depth `index` of a stack bounded by `bound`, or the overflow error. */
  function Slot(index: int, bound: int): Result<string, string>
  {
    if index >= bound then Err(OVERFLOW) else Ok(SlotName(index))
  }

  class BoundedStack {
    const stackBound: int
    var pointer: int

    /** A new stack is empty: the pointer starts at 0. */
    constructor (stackBound: int)
      ensures this.stackBound == stackBound && pointer == 0
    {
      this.stackBound := stackBound;
      pointer := 0;
    }

    /**
     * `current(offset)`: the name of the cell `offset` above the pointer,
     * which exists exactly when it lies below the bound; the pointer is
     * only read.
     */
    function Current(offset: int): (r: Result<string, string>)
      reads this
      ensures r == Slot(pointer + offset, stackBound)
      ensures r.Ok? <==> pointer + offset < stackBound
      ensures r.Ok? ==> r.value == SlotName(pointer + offset)
      ensures r.Err? ==> r.error == OVERFLOW
    {
      Slot(pointer + offset, stackBound)
    }

    /** Pushes first and then names the new top, so the pointer moves even when that fails. */
    method Inc() returns (r: Result<string, string>)
      modifies this
      ensures pointer == old(pointer) + 1
      ensures r == Current(0)
    {
      pointer := pointer + 1;
      r := Current(0);
    }

    /** Pops; the Java assertion asks that the pointer does not go below 0. */
    method Dec()
      requires pointer >= 1
      modifies this
      ensures pointer == old(pointer) - 1
    {
      pointer := pointer - 1;
    }
  }

  /** Different depths are different cells, so nested expressions never share one. */
  lemma SlotNamesDiffer(j: nat, k: nat)
    requires j != k
    ensures SlotName(j) != SlotName(k)
  {
    PrefixedNumbersDiffer("X", j, k);
  }

  /**
   * A push followed by a pop restores the pointer, and while pushed the
   * top is the cell just above the old one.
   */
  method IncDec(s: BoundedStack) returns (top: Result<string, string>)
    requires s.pointer >= 0
    modifies s
    ensures s.pointer == old(s.pointer)
    ensures top == Slot(old(s.pointer) + 1, s.stackBound)
  {
    top := s.Inc();
    s.Dec();
  }
}
