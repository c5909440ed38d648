/** The whole transpiler without its file handling (`main`,
    turing_asm_transpiler.py:339-341): parse the lines of a source file,
    link from `main`, print the table. */
module Compiler {
  import opened Results
  import opened Text
  import opened Instructions
  import opened Linker
  import opened LinkLayout
  import opened LinkRange
  import opened Parser
  import opened ParserFacts
  import opened ParserShape
  import opened Emitter

  datatype CompileError = Parsing(parse: ParseError) | Linking(link: LinkError)

  /** `write_to_file(link_labels(convert_file_to_instructions(...)))` on
      the lines of a source file, each with its line break as Python reads
      it, with `fuel` bounding the depth of inlining. */
  function Compile(lines: seq<string>, fuel: nat): (r: Result<string, CompileError>)
  {
    match Parse(lines)
    case Err(e) => Err(Parsing(e))
    case Ok(program) =>
      match LinkProgram(program, fuel)
      case Err(e) => Err(Linking(e))
      case Ok(linked) => Ok(ProgramText(linked))
  }

  /** What a successful run writes: the tape of the file's `&` lines, then
      the linked table, which reads back row for row, every goto an absolute
      row, laid out by the linker's rule: `main`'s rows first, then the
      inlined copies in the order its rows call them. */
  lemma CompileOutput(lines: seq<string>, fuel: nat)
    requires Compile(lines, fuel).Ok?
    requires forall i :: 0 <= i < |lines| ==> '\n' !in TapeLine(lines[i])
    ensures var program := Parse(lines).value;
      var linked := LinkProgram(program, fuel).value;
      && Compile(lines, fuel).value == ProgramText(linked)
      && linked.tape == TapeText(lines)
      && Entry in program.labels
      && |linked.rows| >= |program.labels[Entry]|
      && AllResolved(linked.rows)
      && Decode(Compile(lines, fuel).value) == Some(FinalProgram(TapeText(lines), PrintedRows(linked.rows)))
      && exists ends :: IsLayout(program.labels[Entry], linked.rows, EntryBase, EntryCaller, program.labels, fuel, ends)
  {
    var program := Parse(lines).value;
    var linked := LinkProgram(program, fuel).value;
    ProgramLayout(program, fuel);
    ParseTape(lines);
    TapeNoBreak(lines);
    DecodeProgramText(linked);
  }

  /** When no line opens a block with an empty name, every non-halting
      outcome of the written table goes to one of its rows. */
  lemma CompileLands(lines: seq<string>, fuel: nat)
    requires Compile(lines, fuel).Ok? && "" !in Parse(lines).value.labels
    ensures var rows := LinkProgram(Parse(lines).value, fuel).value.rows;
      forall j, read: bool :: 0 <= j < |rows| && Outcome(rows[j], read).move != Halt ==>
        Outcome(rows[j], read).goto.Abs? && EntryBase <= Outcome(rows[j], read).goto.row < EntryBase + |rows|
  {
    ParseWellFormed(lines);
    ProgramLands(Parse(lines).value, fuel);
  }

  lemma {:induction false} TapeNoBreak(lines: seq<string>)
    requires forall i :: 0 <= i < |lines| ==> '\n' !in TapeLine(lines[i])
    ensures '\n' !in TapeText(lines)
    decreases |lines|
  {
    if |lines| > 0 {
      TapeNoBreak(lines[1..]);
    }
  }
}
