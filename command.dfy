/** One line of an assembler program after parsing (Command.java). */
module Commands {
  import opened Wrappers

  /**
   * A program line: the address it is placed at, an optional label
   * defined there, an optional mnemonic, an optional label used as the
   * argument, and the numeric argument.  A line holding only a label has
   * no instruction.
   */
  datatype Command = Command(
    address: int,
    labelName: Option<string>,
    instruction: Option<string>,
    labelArg: Option<string>,
    valueArg: int)
  {
    /** A copy with a new numeric argument. */
    function UpdateArg(value: int): (c: Command)
      ensures c.valueArg == value
      ensures c.address == address && c.labelName == labelName
      ensures c.instruction == instruction && c.labelArg == labelArg
    {
      Command(address, labelName, instruction, labelArg, value)
    }
  }

  /** Every line carries an instruction: no label-only line is left. */
  predicate HasInstructions(commands: seq<Command>)
  {
    forall i :: 0 <= i < |commands| ==> commands[i].instruction.Some?
  }

  /** The second update wins. */
  lemma UpdateArgTwice(c: Command, a: int, b: int)
    ensures c.UpdateArg(a).UpdateArg(b) == c.UpdateArg(b)
  {
  }

  /** Updating with the argument already there changes nothing. */
  lemma UpdateArgSame(c: Command)
    ensures c.UpdateArg(c.valueArg) == c
  {
  }

  /** Two commands that differ only in the argument have the same update. */
  lemma UpdateArgForgetsOldValue(c: Command, d: Command, v: int)
    requires c.address == d.address && c.labelName == d.labelName
    requires c.instruction == d.instruction && c.labelArg == d.labelArg
    ensures c.UpdateArg(v) == d.UpdateArg(v)
  {
  }
}
