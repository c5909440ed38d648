/** The line-directive parser (`convert_file_to_instructions`,
    turing_asm_transpiler.py:129-317) as a fold over the lines of the
    source file. The state is the tape read so far, the blocks, and the
    name of the block being filled (`current_label`, "" before the first
    `:name` line).

    Each line keeps its line break, as Python's `for line in file` yields
    it (every line but possibly the last ends in `"\n"`). This matters: a
    bare `w` line is `"w\n"`, whose second character `"\n"` makes it write
    0, while the text `"w"` has no second character.

    The source stops on its first error: Python's `IndexError`, `ValueError`
    and `KeyError` and the call to `error` all end the program. Each becomes
    a `ParseError`, reported in the order the source would raise it. */
module Parser {
  import opened Results
  import opened Text
  import opened Instructions

  datatype ParseError =
    | MissingOperand(text: string)    // `IndexError`: a character or piece the line does not have
    | BadCount(text: string)          // `ValueError`: `int()` of a text that is not a count
    | NoOpenLabel(name: string)       // `KeyError`: a row added while `name` is not a block
    | UnknownCondition(line: string)  // `error("Unknown instruction: " + line)`

  /** The parser's state: `memory`, `labels` and `current_label`. */
  datatype Builder = Builder(tape: string, labels: Labels, current: string)

  /** The state before the first line. */
  const Start: Builder := Builder("", map[], "")

  /** An open block is always a defined one. */
  predicate Valid(b: Builder) {
    b.current != "" ==> b.current in b.labels
  }

  /** `int(text)` for a count: only plain decimal digits are accepted. */
  function Count(text: string): (r: Result<nat, ParseError>)
    ensures r.Ok? <==> IsDigits(text)
    ensures r.Err? ==> r.error == BadCount(text)
  {
    if IsDigits(text) then Ok(DigitsValue(text)) else Err(BadCount(text))
  }

  /** `str(n)` read back by `Count` is `n`. */
  lemma CountNatText(n: nat)
    ensures Count(NatText(n)) == Ok(n)
  {
  }

  /** `labels[current_label].instructions.append(...)` for each of `rows`:
      the open block grows by `rows` and nothing else changes. Adding no row
      never looks the block up. */
  function Append(b: Builder, rows: seq<Instruction>): (r: Result<Builder, ParseError>)
    ensures r.Ok? <==> rows == [] || b.current in b.labels
    ensures r.Err? ==> r.error == NoOpenLabel(b.current)
    ensures r.Ok? ==> r.value.tape == b.tape && r.value.current == b.current
    ensures r.Ok? ==> r.value.labels.Keys == b.labels.Keys
    ensures r.Ok? ==> forall k :: k in b.labels && k != b.current ==> r.value.labels[k] == b.labels[k]
    ensures r.Ok? && b.current in b.labels ==> r.value.labels[b.current] == b.labels[b.current] + rows
  {
    if rows == [] then Ok(b)
    else if b.current in b.labels then Ok(b.(labels := b.labels[b.current := b.labels[b.current] + rows]))
    else Err(NoOpenLabel(b.current))
  }

  /** The row that ends a named block: a halt for `main` (lines 144-145,
      311-312), a return for any other block (lines 146-147, 313-314). */
  function Closer(name: string): (r: Instruction)
    ensures name == Entry ==> r == Stop()
    ensures name != Entry ==> r == Return()
  {
    if name == Entry then Stop() else Return()
  }

  /** The rows added to block `name` when the next block opens or the
      input ends: its closing row, or nothing when no block is open. */
  function Closing(name: string): (r: seq<Instruction>)
    ensures name == "" <==> r == []
    ensures name != "" ==> r == [Closer(name)]
  {
    if name == "" then [] else [Closer(name)]
  }

  /** Lines 144-147 and 311-314: the open block gets its closing row. */
  function Close(b: Builder): (r: Result<Builder, ParseError>)
    ensures Valid(b) ==> r.Ok?
    ensures r.Ok? ==> r.value.tape == b.tape && r.value.current == b.current && r.value.labels.Keys == b.labels.Keys
    ensures r.Ok? ==> forall k :: k in b.labels && k != b.current ==> r.value.labels[k] == b.labels[k]
    ensures r.Ok? && b.current in b.labels ==> r.value.labels[b.current] == b.labels[b.current] + Closing(b.current)
  {
    Append(b, Closing(b.current))
  }

  /** The partial of a guarded row for the value the condition does not
      test: the bit read is written back and the next row follows. */
  function Pass(read: bool): (p: Partial)
    ensures p.write == read && p.move == Stay && p.goto == Rel(1)
  {
    Partial(read, Stay, Rel(1))
  }

  /** An outcome that halts, goes on to the next row, or jumps to a block:
      what every row of a plain directive does. */
  predicate Onward(p: Partial) {
    p.move == Halt || p.goto == Rel(1) || p.goto.Jump?
  }

  predicate AllOnward(rows: seq<Instruction>) {
    forall j :: 0 <= j < |rows| ==> Onward(rows[j].read0) && Onward(rows[j].read1)
  }

  /** A row that performs `act` when `bit` is read and passes otherwise. */
  function Guarded(bit: bool, act: Partial): (r: Instruction)
    ensures Outcome(r, bit) == act && Outcome(r, !bit) == Pass(!bit)
  {
    if bit then Instruction(Pass(false), act) else Instruction(act, Pass(true))
  }

  /** The plain command `text` of a `? c0 c1` line (lines 261-279 and
      287-305): the factory rows of `>n`, `<n`, `w<bit>` or `*name`; any
      other first character gives no row. */
  function Command(text: string): (r: Result<seq<Instruction>, ParseError>)
    ensures r.Err? ==> r.error.MissingOperand? || r.error.BadCount?
    ensures r.Ok? ==> AllOnward(r.value)
    ensures r.Ok? && |text| > 0 && (text[0] == 'w' || text[0] == '*') ==> |r.value| == 1
    ensures |text| == 0 ==> r == Err(MissingOperand(text))
  {
    if |text| == 0 then Err(MissingOperand(text))
    else if text[0] == '>' then
      var n :- Count(RemoveSpaces(Strip(text[1..])));
      Ok(Repeat(GoRight(), n))
    else if text[0] == '<' then
      var n :- Count(RemoveSpaces(Strip(text[1..])));
      Ok(Repeat(GoLeft(), n))
    else if text[0] == 'w' then
      if |text| < 2 then Err(MissingOperand(text)) else Ok([Write(text[1] == '1')])
    else if text[0] == '*' then Ok([JumpTo(Strip(text[1..]))])
    else Ok([])
  }

  /** The command `text` of a `?0` (`bit` false, lines 177-207) or `?1`
      (`bit` true, lines 218-248) line, each row written out as the source
      writes it: it acts only when `bit` is read. */
  function GuardedCommand(bit: bool, text: string): (r: Result<seq<Instruction>, ParseError>)
    ensures r.Err? ==> r.error.MissingOperand? || r.error.BadCount?
    ensures r.Ok? ==> AllOnward(r.value)
  {
    if |text| == 0 then Err(MissingOperand(text))
    else if text[0] == '>' then
      var n :- Count(RemoveSpaces(Strip(text[1..])));
      Ok(Repeat(Guarded(bit, Partial(bit, Right, Rel(1))), n))
    else if text[0] == '<' then
      var n :- Count(RemoveSpaces(Strip(text[1..])));
      Ok(Repeat(Guarded(bit, Partial(bit, Left, Rel(1))), n))
    else if text[0] == 'w' then
      if |text| < 2 then Err(MissingOperand(text))
      else Ok([Guarded(bit, Partial(text[1] == '1', Stay, Rel(1)))])
    else if text[0] == '*' then Ok([Guarded(bit, Partial(bit, Stay, Jump(Strip(text[1..]))))])
    else Ok([])
  }

  /** The guarded rows of `?b c` are the rows of the plain command `c`
      restricted to reading `b`: they fail alike, have the same length, act
      exactly like the plain rows when `b` is read and pass otherwise. */
  lemma GuardedAgrees(bit: bool, text: string)
    ensures GuardedCommand(bit, text).Ok? <==> Command(text).Ok?
    ensures GuardedCommand(bit, text).Err? ==> GuardedCommand(bit, text).error == Command(text).error
    ensures GuardedCommand(bit, text).Ok? ==>
      var g := GuardedCommand(bit, text).value;
      var c := Command(text).value;
      && |g| == |c|
      && forall j :: 0 <= j < |g| ==> Outcome(g[j], bit) == Outcome(c[j], bit) && Outcome(g[j], !bit) == Pass(!bit)
  {
    if |text| > 0 && (text[0] == '>' || text[0] == '<') {
      var count := Count(RemoveSpaces(Strip(text[1..])));
      if count.Ok? {
        var move := if text[0] == '>' then Right else Left;
        var plain := if text[0] == '>' then GoRight() else GoLeft();
        assert GuardedCommand(bit, text) == Ok(Repeat(Guarded(bit, Partial(bit, move, Rel(1))), count.value));
        assert Command(text) == Ok(Repeat(plain, count.value));
        GuardedRepeat(bit, plain, move, count.value);
      }
    }
  }

  /** `n` guarded moves agree with `n` plain moves on `bit` and pass on `!bit`. */
  lemma GuardedRepeat(bit: bool, plain: Instruction, move: Move, n: nat)
    requires Outcome(plain, bit) == Partial(bit, move, Rel(1))
    ensures var g := Repeat(Guarded(bit, Partial(bit, move, Rel(1))), n);
      var c := Repeat(plain, n);
      forall j :: 0 <= j < n ==> Outcome(g[j], bit) == Outcome(c[j], bit) && Outcome(g[j], !bit) == Pass(!bit)
  {
  }

  /** The branch row `jmp_instr` of a `?b` line once patched (lines 208
      and 249): it continues with the next row when `bit` is read and skips
      the `skip` rows after it otherwise. */
  function Branch(bit: bool, skip: nat): (r: Instruction)
    ensures Outcome(r, bit) == Pass(bit)
    ensures Outcome(r, !bit) == Partial(!bit, Stay, Rel(skip + 1))
  {
    if bit then Instruction(Partial(false, Stay, Rel(skip + 1)), Pass(true))
    else Instruction(Pass(false), Partial(true, Stay, Rel(skip + 1)))
  }

  /** Rows of `?b c`: the branch, then the guarded expansion of `c`. */
  function Conditional(bit: bool, text: string): (r: Result<seq<Instruction>, ParseError>)
    ensures r.Ok? <==> GuardedCommand(bit, text).Ok?
    ensures r.Ok? ==> |r.value| == 1 + |GuardedCommand(bit, text).value|
    ensures r.Ok? ==> r.value[1..] == GuardedCommand(bit, text).value
    ensures r.Ok? ==> Outcome(r.value[0], bit) == Pass(bit)
    ensures r.Ok? ==> Outcome(r.value[0], !bit).goto == Rel(|r.value|)
  {
    var rows :- GuardedCommand(bit, text);
    Ok([Branch(bit, |rows|)] + rows)
  }

  /** Rows of `? c0 c1` (lines 251-307): a branch, `first`, a skip row,
      `second`. Reading 0 runs `first` and then jumps over `second`;
      reading 1 jumps straight to `second`. */
  function Choice(first: seq<Instruction>, second: seq<Instruction>): (r: seq<Instruction>)
    ensures |r| == |first| + |second| + 2
    ensures r[1..|first| + 1] == first && r[|first| + 2..] == second
    ensures r[0].read0 == Pass(false) && r[0].read1 == Partial(true, Stay, Rel(|first| + 2))
    ensures var skip := r[|first| + 1];
      && skip.read0.goto == Rel(|r| - (|first| + 1)) && skip.read1.goto == Rel(|r| - (|first| + 1))
      && skip.read0.write == false && skip.read1.write == true
      && skip.read0.move == Stay && skip.read1.move == Stay
  {
    var skip := Instruction(Partial(false, Stay, Rel(|second| + 1)), Partial(true, Stay, Rel(|second| + 1)));
    assert ([Branch(false, |first| + 1)] + first + [skip] + second)[1..|first| + 1] == first;
    [Branch(false, |first| + 1)] + first + [skip] + second
  }

  /** `line.strip() == ""`: the line is skipped. */
  predicate Blank(line: string) {
    |line| == 0 || Strip(line) == ""
  }

  /** A `:name` line. */
  predicate Opens(line: string) {
    !Blank(line) && line[0] == ':'
  }

  /** Only the open block changed, and only by rows added at its end. */
  predicate Grows(b: Builder, r: Builder) {
    && r.current == b.current
    && r.labels.Keys == b.labels.Keys
    && (forall k :: k in b.labels && k != b.current ==> r.labels[k] == b.labels[k])
    && (b.current in b.labels ==> b.labels[b.current] <= r.labels[b.current])
  }

  /** Lines 143-149, a `:name` line: the open block is closed, then `name`
      opens as a new, empty block, replacing any earlier block of that name. */
  function OpenBlock(b: Builder, name: string): (r: Result<Builder, ParseError>)
    ensures r.Ok? <==> b.current == "" || b.current in b.labels
    ensures r.Err? ==> r.error == NoOpenLabel(b.current)
    ensures r.Ok? ==>
      && r.value.current == name && r.value.tape == b.tape
      && r.value.labels.Keys == b.labels.Keys + {name}
      && r.value.labels[name] == []
      && forall k :: k in b.labels && k != name ==>
           r.value.labels[k] == b.labels[k] + (if k == b.current then Closing(k) else [])
  {
    var c :- Close(b);
    Ok(Builder(c.tape, c.labels[name := []], name))
  }

  /** The rows of a `>n`, `<n`, `w<bit>`, `HALT` or `*name` line (lines
      150-166). `H` without `ALT` gives none, and so does a line starting
      with any other character. */
  function DirectiveRows(line: string): (r: Result<seq<Instruction>, ParseError>)
    requires |line| > 0
    ensures r.Err? ==> r.error.MissingOperand? || r.error.BadCount?
    ensures r.Ok? ==> AllOnward(r.value)
    ensures line[0] !in ['>', '<', 'w', 'H', '*'] ==> r == Ok([])
    ensures r.Err? && r.error.BadCount? ==> line[0] == '>' || line[0] == '<'
    ensures line[0] in ['H', '*'] ==> r.Ok?
    ensures r.Ok? && line[0] in ['w', '*'] ==> |r.value| == 1
    ensures r.Ok? && line[0] == 'H' ==> |r.value| <= 1
  {
    if line[0] == '>' then
      var n :- Count(Strip(line[1..]));
      Ok(Repeat(GoRight(), n))
    else if line[0] == '<' then
      var n :- Count(Strip(line[1..]));
      Ok(Repeat(GoLeft(), n))
    else if line[0] == 'w' then
      if |line| < 2 then Err(MissingOperand(line)) else Ok([Write(line[1] == '1')])
    else if line[0] == 'H' then
      if |line| >= 4 && line[1..4] == "ALT" then Ok([Stop()]) else Ok([])
    else if line[0] == '*' then Ok([JumpTo(Strip(line[1..]))])
    else Ok([])
  }

  /** Lines 150-166: the directive's rows are appended to the open block.
      The count or operand is read before the block is looked up, and
      adding no row never looks it up. */
  function AddRows(b: Builder, line: string): (r: Result<Builder, ParseError>)
    requires |line| > 0
    ensures r.Ok? ==> Grows(b, r.value) && r.value.tape == b.tape
    ensures r.Ok? ==> DirectiveRows(line).Ok?
    ensures r.Ok? && b.current in b.labels ==> r.value.labels[b.current] == b.labels[b.current] + DirectiveRows(line).value
    ensures r.Err? ==> !r.error.UnknownCondition?
    ensures DirectiveRows(line).Ok? && (DirectiveRows(line).value == [] || b.current in b.labels) ==> r.Ok?
    ensures r.Err? ==> DirectiveRows(line).Err? || r.error == NoOpenLabel(b.current)
  {
    var rows :- DirectiveRows(line);
    Append(b, rows)
  }

  /** The rows a `?` line adds (lines 167-309): the branch over a guarded
      command for `?0` and `?1`, and for `? c0 c1` the first two pieces of
      the text split at its spaces, as plain commands around a skip row. */
  function ConditionRows(line: string): (r: Result<seq<Instruction>, ParseError>)
    requires |line| >= 2
    ensures r.Err? && r.error.UnknownCondition? <==> line[1] != '0' && line[1] != '1' && line[1] != ' '
    ensures r.Err? ==> !r.error.NoOpenLabel?
    ensures r.Ok? ==> |r.value| >= 1
    ensures r.Ok? && line[1] == ' ' ==> |r.value| >= 2
  {
    if line[1] == '0' || line[1] == '1' then Conditional(line[1] == '1', Strip(line[2..]))
    else if line[1] == ' ' then
      var parts := Split(Strip(line[2..]), ' ');
      if |parts| < 2 then Err(MissingOperand(line))
      else
        var first :- Command(parts[0]);
        var second :- Command(parts[1]);
        Ok(Choice(first, second))
    else Err(UnknownCondition(line))
  }

  /** Lines 167-309, a line starting with `?`. The branch row is added
      before the command is read, so a missing block is reported first. */
  function ParseCondition(b: Builder, line: string): (r: Result<Builder, ParseError>)
    ensures r.Err? && r.error.UnknownCondition? <==> |line| >= 2 && line[1] != '0' && line[1] != '1' && line[1] != ' '
    ensures |line| < 2 ==> r == Err(MissingOperand(line))
    ensures r.Ok? ==> Grows(b, r.value) && r.value.tape == b.tape
    ensures r.Ok? ==> |line| >= 2 && b.current in b.labels && ConditionRows(line).Ok?
    ensures r.Ok? ==> r.value.labels[b.current] == b.labels[b.current] + ConditionRows(line).value
  {
    if |line| < 2 then Err(MissingOperand(line))
    else if line[1] == '0' || line[1] == '1' then
      if b.current !in b.labels then Err(NoOpenLabel(b.current))
      else
        var rows :- Conditional(line[1] == '1', Strip(line[2..]));
        Append(b, rows)
    else if line[1] == ' ' then ChoiceLine(b, line, Split(Strip(line[2..]), ' '))
    else Err(UnknownCondition(line))
  }

  /** Lines 251-307, a `? c0 c1` line whose text after `? ` splits at its
      spaces into `parts`: the first two parts are the commands. */
  function ChoiceLine(b: Builder, line: string, parts: seq<string>): (r: Result<Builder, ParseError>)
    ensures r.Err? ==> !r.error.UnknownCondition?
    ensures |parts| < 2 ==> r == Err(MissingOperand(line))
    ensures r.Ok? ==> Grows(b, r.value) && r.value.tape == b.tape
    ensures r.Ok? ==> |parts| >= 2 && b.current in b.labels && Command(parts[0]).Ok? && Command(parts[1]).Ok?
    ensures r.Ok? ==> r.value.labels[b.current] == b.labels[b.current] + Choice(Command(parts[0]).value, Command(parts[1]).value)
  {
    if |parts| < 2 then Err(MissingOperand(line))
    else if b.current !in b.labels then Err(NoOpenLabel(b.current))
    else
      var first :- Command(parts[0]);
      var second :- Command(parts[1]);
      Append(b, Choice(first, second))
  }

  /** The text an `&` line adds to the tape (line 142). What callers rely
      on is that it holds no space; `ParserFacts.ParseTape` states what the
      tape becomes. */
  function TapeLine(line: string): (t: string)
    ensures ' ' !in t
    ensures !Blank(line) && line[0] == '&' ==> t == RemoveSpaces(Strip(line[1..]))
    ensures Blank(line) || line[0] != '&' ==> t == ""
  {
    if !Blank(line) && line[0] == '&' then RemoveSpaces(Strip(line[1..])) else ""
  }

  /** The rows a line that opens no block adds to the open block when it
      parses: none for a blank line, a comment or a tape line. */
  function Added(line: string): seq<Instruction> {
    if Blank(line) || line[0] == '#' || line[0] == '&' || line[0] == ':' then []
    else if line[0] == '?' then
      if |line| >= 2 && ConditionRows(line).Ok? then ConditionRows(line).value else []
    else if DirectiveRows(line).Ok? then DirectiveRows(line).value else []
  }

  /** The body of the loop of lines 135-309 for one line. A line whose
      first character matches no case is skipped. */
  function ParseLine(b: Builder, line: string): (r: Result<Builder, ParseError>)
    ensures r.Ok? ==> r.value.tape == b.tape + TapeLine(line)
    ensures r.Ok? && !Opens(line) ==> Grows(b, r.value)
    ensures Opens(line) ==> r == OpenBlock(b, Strip(line[1..]))
    ensures r.Err? && r.error.UnknownCondition? <==>
      !Blank(line) && line[0] == '?' && |line| >= 2 && line[1] != '0' && line[1] != '1' && line[1] != ' '
  {
    if Blank(line) then Ok(b)
    else if line[0] == '#' then Ok(b)
    else if line[0] == '&' then Ok(b.(tape := b.tape + RemoveSpaces(Strip(line[1..]))))
    else if line[0] == ':' then OpenBlock(b, Strip(line[1..]))
    else if line[0] == '?' then ParseCondition(b, line)
    else AddRows(b, line)
  }

  /** The lines of a file, one after the other; the first error ends parsing. */
  function ParseFrom(b: Builder, lines: seq<string>): (r: Result<Builder, ParseError>)
    decreases |lines|
  {
    if |lines| == 0 then Ok(b)
    else
      var b' :- ParseLine(b, lines[0]);
      ParseFrom(b', lines[1..])
  }

  /** `convert_file_to_instructions` on the lines of a file, each with its
      line break: parse every line, then close the block left open. */
  function Parse(lines: seq<string>): (r: Result<ParsedProgram, ParseError>)
  {
    var b :- ParseFrom(Start, lines);
    var c :- Close(b);
    Ok(ParsedProgram(c.tape, c.labels))
  }
}
