/** Rows of the tape machine's instruction table and the factories the
    parser builds them with (`PartialInstruction`, `Instruction` and the
    `make_*` helpers of turing_asm_transpiler.py). */
module Instructions {

  /** Head movement of one outcome; `Halt` stops the machine (printed `H`). */
  datatype Move = Left | Right | Stay | Halt

  /** Where execution continues. The source encodes these as strings:
      `+k`, `return`, `*name` and a decimal row number. */
  datatype Goto = Rel(offset: nat) | Ret | Jump(name: string) | Abs(row: nat)

  /** The effect of one instruction for one value read from the tape. */
  datatype Partial = Partial(write: bool, move: Move, goto: Goto)

  /** One row of the table: the effect on reading 0 and on reading 1. */
  datatype Instruction = Instruction(read0: Partial, read1: Partial)

  /** A named block's rows, keyed by the block's name. */
  type Labels = map<string, seq<Instruction>>

  /** The parser's result: the initial tape and the blocks (`ParsedProgram`). */
  datatype ParsedProgram = ParsedProgram(tape: string, labels: Labels)

  /** The linker's result: the initial tape and one flat table (`FinalProgram`). */
  datatype FinalProgram = FinalProgram(tape: string, rows: seq<Instruction>)

  /** The name of the entry block. */
  const Entry: string := "main"

  /** The effect of `instr` when `read` is the bit under the head. */
  function Outcome(instr: Instruction, read: bool): Partial {
    if read then instr.read1 else instr.read0
  }

  /** `make_move_right`: whatever bit is read is written back, the head moves
      right and execution continues with the next row. */
  function GoRight(): (r: Instruction)
    ensures forall read: bool :: Outcome(r, read) == Partial(read, Right, Rel(1))
  {
    Instruction(Partial(false, Right, Rel(1)), Partial(true, Right, Rel(1)))
  }

  /** `make_move_left`: as `GoRight`, moving left. */
  function GoLeft(): (r: Instruction)
    ensures forall read: bool :: Outcome(r, read) == Partial(read, Left, Rel(1))
  {
    Instruction(Partial(false, Left, Rel(1)), Partial(true, Left, Rel(1)))
  }

  /** `make_write`: `bit` is written whatever is read; no move; next row. */
  function Write(bit: bool): (r: Instruction)
    ensures forall read: bool :: Outcome(r, read) == Partial(bit, Stay, Rel(1))
  {
    Instruction(Partial(bit, Stay, Rel(1)), Partial(bit, Stay, Rel(1)))
  }

  /** `make_halt`: the machine stops whatever is read. The goto `+1` it
      carries is resolved by the linker but never printed. */
  function Stop(): (r: Instruction)
    ensures forall read: bool :: Outcome(r, read) == Partial(false, Halt, Rel(1))
  {
    Instruction(Partial(false, Halt, Rel(1)), Partial(false, Halt, Rel(1)))
  }

  /** `make_return`: the read bit is written back and execution resumes
      after the row that inlined the enclosing block. */
  function Return(): (r: Instruction)
    ensures forall read: bool :: Outcome(r, read) == Partial(read, Stay, Ret)
  {
    Instruction(Partial(false, Stay, Ret), Partial(true, Stay, Ret))
  }

  /** `make_jump`: the read bit is written back and execution continues in
      (an inlined copy of) block `name`. */
  function JumpTo(name: string): (r: Instruction)
    ensures forall read: bool :: Outcome(r, read) == Partial(read, Stay, Jump(name))
  {
    Instruction(Partial(false, Stay, Jump(name)), Partial(true, Stay, Jump(name)))
  }

  /** `n` copies of `instr` (the source's `for _ in range(n)` loops). */
  function Repeat(instr: Instruction, n: nat): (r: seq<Instruction>)
    ensures |r| == n
    ensures forall j :: 0 <= j < n ==> r[j] == instr
  {
    if n == 0 then [] else Repeat(instr, n - 1) + [instr]
  }

  /** A row whose outcomes both carry an absolute row number. */
  predicate Resolved(instr: Instruction) {
    instr.read0.goto.Abs? && instr.read1.goto.Abs?
  }

  predicate AllResolved(rows: seq<Instruction>) {
    forall j :: 0 <= j < |rows| ==> Resolved(rows[j])
  }

  /** Where a non-halting outcome of row `j` of a block may go: by `+k` to a
      row before `limit`, back to the caller only when `ret` allows it, or
      to a block; never to a fixed row number. A halting outcome's goto is
      never printed, so it is unconstrained. */
  predicate GotoWithin(p: Partial, j: nat, limit: nat, ret: bool) {
    p.move == Halt ||
    (match p.goto
     case Rel(k) => j + k < limit
     case Ret => ret
     case Jump(_) => true
     case Abs(_) => false)
  }

  /** Every outcome of every row of `rows` stays within `limit`. */
  predicate RowsWithin(rows: seq<Instruction>, limit: nat, ret: bool) {
    forall j :: 0 <= j < |rows| ==> GotoWithin(rows[j].read0, j, limit, ret) && GotoWithin(rows[j].read1, j, limit, ret)
  }
}
