/** The text the transpiler writes (`PartialInstruction.__str__`,
    `Instruction.__str__` and `FinalProgram.__str__`,
    turing_asm_transpiler.py:20-35 and 123-127): the tape on the first line,
    then one line per row. A halting outcome prints as `H` alone; any other
    outcome prints `<bit> <move> <goto>`.

    `Decode` reads such text back. For a linked table (every goto an
    absolute row) it recovers the tape and every row, except the write and
    goto of a halting outcome, which the text does not carry. */
module Emitter {
  import opened Text
  import opened Instructions
  import opened Linker

  function BitText(b: bool): (t: string)
    ensures t == "0" || t == "1"
  {
    if b then "1" else "0"
  }

  function MoveText(m: Move): (t: string)
    ensures |t| == 1
  {
    match m
    case Left => "L"
    case Right => "R"
    case Stay => "_"
    case Halt => "H"
  }

  /** The source's goto strings: `+k`, `return`, `*name`, a row number. */
  function GotoText(g: Goto): (t: string)
    ensures g.Abs? ==> IsDigits(t) && DigitsValue(t) == g.row
    ensures g.Abs? ==> (t[0] == '0' <==> g.row == 0)
    ensures g == Abs(0) ==> t == "0"
  {
    match g
    case Rel(k) => "+" + NatText(k)
    case Ret => "return"
    case Jump(name) => "*" + name
    case Abs(n) => NatText(n)
  }

  /** Lines 20-24. */
  function PartialText(p: Partial): string {
    if p.move == Halt then "H"
    else BitText(p.write) + " " + MoveText(p.move) + " " + GotoText(p.goto)
  }

  /** Lines 34-35: both outcomes, separated by a space. */
  function RowText(r: Instruction): string {
    PartialText(r.read0) + " " + PartialText(r.read1)
  }

  /** The rows, each followed by a line break (lines 125-126). */
  function RowsText(rows: seq<Instruction>): string {
    if |rows| == 0 then "" else RowText(rows[0]) + "\n" + RowsText(rows[1..])
  }

  /** `FinalProgram.__str__` (lines 123-127). */
  function ProgramText(p: FinalProgram): string {
    p.tape + "\n" + RowsText(p.rows)
  }

  /** What the text keeps of an outcome: a halting one loses its write and
      goto. */
  function Printed(p: Partial): (q: Partial)
    ensures p.move != Halt ==> q == p
    ensures q.move == p.move
    ensures p.move == Halt ==> q == Partial(false, Halt, Abs(0))
  {
    if p.move == Halt then Partial(false, Halt, Abs(0)) else p
  }

  function PrintedRow(r: Instruction): Instruction {
    Instruction(Printed(r.read0), Printed(r.read1))
  }

  function PrintedRows(rows: seq<Instruction>): (r: seq<Instruction>)
    ensures |r| == |rows|
    ensures forall j :: 0 <= j < |rows| ==> r[j] == PrintedRow(rows[j])
  {
    if |rows| == 0 then [] else [PrintedRow(rows[0])] + PrintedRows(rows[1..])
  }

  /** An outcome read off the front of a row's words, and the words left. */
  datatype Read = Read(outcome: Partial, rest: seq<string>)

  function ReadBit(t: string): Option<bool> {
    if t == "0" then Some(false) else if t == "1" then Some(true) else None
  }

  function ReadMove(t: string): Option<Move> {
    if t == "L" then Some(Left) else if t == "R" then Some(Right)
    else if t == "_" then Some(Stay) else None
  }

  datatype Option<T> = None | Some(value: T)

  /** One printed outcome of a linked row: `H`, or a bit, a move and a row. */
  function ReadOutcome(words: seq<string>): Option<Read> {
    if |words| >= 1 && words[0] == "H" then Some(Read(Partial(false, Halt, Abs(0)), words[1..]))
    else if |words| >= 3 && ReadBit(words[0]).Some? && ReadMove(words[1]).Some? && IsDigits(words[2]) then
      Some(Read(Partial(ReadBit(words[0]).value, ReadMove(words[1]).value, Abs(DigitsValue(words[2]))), words[3..]))
    else None
  }

  /** A printed linked row: two outcomes and nothing else. */
  function DecodeRow(line: string): Option<Instruction> {
    var words := Split(line, ' ');
    match ReadOutcome(words)
    case None => None
    case Some(first) =>
      match ReadOutcome(first.rest)
      case None => None
      case Some(second) =>
        if second.rest == [] then Some(Instruction(first.outcome, second.outcome)) else None
  }

  function DecodeRows(lines: seq<string>): Option<seq<Instruction>> {
    if |lines| == 0 then Some([])
    else
      match DecodeRow(lines[0])
      case None => None
      case Some(row) =>
        match DecodeRows(lines[1..])
        case None => None
        case Some(rows) => Some([row] + rows)
  }

  /** Reads the text of a linked program: the tape line, one line per row,
      and nothing after the last line break. */
  function Decode(text: string): Option<FinalProgram> {
    var lines := Split(text, '\n');
    if |lines| < 2 || lines[|lines| - 1] != "" then None
    else
      match DecodeRows(lines[1..|lines| - 1])
      case None => None
      case Some(rows) => Some(FinalProgram(lines[0], rows))
  }

  /** The words an outcome of a linked row prints as. */
  function Words(p: Partial): (w: seq<string>)
    requires p.goto.Abs?
    ensures |w| >= 1 && forall i :: 0 <= i < |w| ==> ' ' !in w[i] && '\n' !in w[i]
  {
    if p.move == Halt then ["H"] else [BitText(p.write), MoveText(p.move), NatText(p.goto.row)]
  }

  lemma PartialWords(p: Partial)
    requires p.goto.Abs?
    ensures PartialText(p) == Join(Words(p), ' ')
  {
    if p.move != Halt {
      var w := Words(p);
      assert w[1..][1..] == [w[2]];
      assert Join(w[1..], ' ') == w[1] + [' '] + w[2];
      assert Join(w, ' ') == w[0] + [' '] + (w[1] + [' '] + w[2]);
      assert GotoText(p.goto) == w[2];
    }
  }

  lemma ReadWords(p: Partial, rest: seq<string>)
    requires p.goto.Abs?
    ensures ReadOutcome(Words(p) + rest) == Some(Read(Printed(p), rest))
  {
    var w := Words(p) + rest;
    if p.move == Halt {
      assert w[1..] == rest;
    } else {
      assert w[3..] == rest;
      assert w[2] == NatText(p.goto.row);
    }
  }

  /** A printed linked row reads back as the row, as far as the text
      carries it. */
  lemma DecodeRowText(r: Instruction)
    requires Resolved(r)
    ensures DecodeRow(RowText(r)) == Some(PrintedRow(r))
  {
    var w0, w1 := Words(r.read0), Words(r.read1);
    PartialWords(r.read0);
    PartialWords(r.read1);
    JoinAppend(w0, w1, ' ');
    forall i | 0 <= i < |w0 + w1|
      ensures ' ' !in (w0 + w1)[i]
    {
      if i < |w0| { assert (w0 + w1)[i] == w0[i]; } else { assert (w0 + w1)[i] == w1[i - |w0|]; }
    }
    SplitJoin(w0 + w1, ' ');
    ReadWords(r.read0, w1);
    ReadWords(r.read1, []);
    assert w1 + [] == w1;
  }

  /** Two linked rows print alike exactly when they agree on everything
      the text carries. */
  lemma RowTextInjective(r: Instruction, s: Instruction)
    requires Resolved(r) && Resolved(s)
    ensures RowText(r) == RowText(s) <==> PrintedRow(r) == PrintedRow(s)
  {
    DecodeRowText(r);
    DecodeRowText(s);
    if PrintedRow(r) == PrintedRow(s) {
      assert Printed(r.read0) == Printed(s.read0) && Printed(r.read1) == Printed(s.read1);
      if r.read0.move != Halt {
        assert r.read0 == s.read0;
      }
      if r.read1.move != Halt {
        assert r.read1 == s.read1;
      }
    }
  }

  /** The lines of the rows' text. */
  function RowLines(rows: seq<Instruction>): (r: seq<string>)
    ensures |r| == |rows|
    ensures forall j :: 0 <= j < |rows| ==> r[j] == RowText(rows[j])
  {
    if |rows| == 0 then [] else [RowText(rows[0])] + RowLines(rows[1..])
  }

  lemma NoBreakInRow(r: Instruction)
    requires Resolved(r)
    ensures '\n' !in RowText(r)
  {
    var w0, w1 := Words(r.read0), Words(r.read1);
    PartialWords(r.read0);
    PartialWords(r.read1);
    JoinAppend(w0, w1, ' ');
    JoinNoBreak(w0 + w1);
  }

  lemma {:induction false} JoinNoBreak(w: seq<string>)
    requires |w| >= 1 && forall i :: 0 <= i < |w| ==> '\n' !in w[i]
    ensures '\n' !in Join(w, ' ')
    decreases |w|
  {
    if |w| > 1 {
      JoinNoBreak(w[1..]);
    }
  }

  lemma {:induction false} RowsTextLines(rows: seq<Instruction>)
    ensures RowsText(rows) == Join(RowLines(rows) + [""], '\n')
    decreases |rows|
  {
    if |rows| > 0 {
      RowsTextLines(rows[1..]);
      var first := RowText(rows[0]);
      assert RowLines(rows) == [first] + RowLines(rows[1..]);
      JoinLine(first, RowLines(rows[1..]));
    }
  }

  /** A line followed by a break, in front of broken lines. */
  lemma JoinLine(first: string, lines: seq<string>)
    ensures first + "\n" + Join(lines + [""], '\n') == Join([first] + lines + [""], '\n')
  {
    assert ([first] + lines + [""])[1..] == lines + [""];
  }

  /** The output of a linked program split at its line breaks: the tape,
      one line per row, and the empty text after the last break. */
  lemma ProgramLines(p: FinalProgram)
    requires '\n' !in p.tape && AllResolved(p.rows)
    ensures Split(ProgramText(p), '\n') == [p.tape] + RowLines(p.rows) + [""]
  {
    var lines := [p.tape] + RowLines(p.rows) + [""];
    RowsTextLines(p.rows);
    assert lines == [p.tape] + (RowLines(p.rows) + [""]);
    assert Join(lines, '\n') == ProgramText(p) by {
      assert lines[1..] == RowLines(p.rows) + [""];
    }
    forall i | 0 <= i < |lines|
      ensures '\n' !in lines[i]
    {
      if 1 <= i < |lines| - 1 {
        NoBreakInRow(p.rows[i - 1]);
      }
    }
    SplitJoin(lines, '\n');
  }

  /** Why `main` starts at row `EntryBase`: the row numbered `EntryBase + j`
      is printed on line `EntryBase + j` of the output, counting from 1. */
  lemma RowOnItsLine(p: FinalProgram, j: nat)
    requires '\n' !in p.tape && AllResolved(p.rows) && j < |p.rows|
    ensures var lines := Split(ProgramText(p), '\n');
      EntryBase + j <= |lines| && lines[EntryBase + j - 1] == RowText(p.rows[j])
  {
    ProgramLines(p);
    LineAfterTape(Split(ProgramText(p), '\n'), p.tape, RowLines(p.rows), j);
  }

  lemma LineAfterTape(lines: seq<string>, tape: string, rowLines: seq<string>, j: nat)
    requires lines == [tape] + rowLines + [""] && j < |rowLines|
    ensures EntryBase + j <= |lines| && lines[EntryBase + j - 1] == rowLines[j]
  {
  }

  lemma {:induction false} DecodeRowLines(rows: seq<Instruction>)
    requires AllResolved(rows)
    ensures DecodeRows(RowLines(rows)) == Some(PrintedRows(rows))
    decreases |rows|
  {
    if |rows| > 0 {
      DecodeRowText(rows[0]);
      assert RowLines(rows)[1..] == RowLines(rows[1..]);
      DecodeRowLines(rows[1..]);
    }
  }

  /** The text of a linked program reads back as the program, as far as
      the text carries it. */
  lemma DecodeProgramText(p: FinalProgram)
    requires '\n' !in p.tape && AllResolved(p.rows)
    ensures Decode(ProgramText(p)) == Some(FinalProgram(p.tape, PrintedRows(p.rows)))
  {
    ProgramLines(p);
    var lines := [p.tape] + RowLines(p.rows) + [""];
    assert lines[1..|lines| - 1] == RowLines(p.rows);
    DecodeRowLines(p.rows);
  }
}
