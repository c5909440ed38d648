# Tape-machine assembly transpiler, modelled in Dafny

`turing_asm_transpiler.py` turns a small assembly language for a binary
tape machine into a flat instruction table. Source lines are organised into
named blocks: `:name` opens one, and `main` is the entry. Blocks contain
these directives:

- moves (`>n`, `<n`);
- writes (`w0`, `w1`);
- `HALT`;
- jumps to other blocks (`*name`);
- three conditional forms (`?0 c`, `?1 c`, `? c0 c1`).

`&` lines give the initial tape. The program has three stages:

1. The **parser** folds the lines into a map from block names to rows. Every
   row has one outcome for reading 0 and one for reading 1. Each outcome
   writes a bit, moves the head (or halts) and says where execution goes
   next: the next row (`+k`), back to the caller (`return`), into another
   block (`*name`), or, after linking, an absolute row number.
2. The **linker** flattens `main` into one table. At every jump it inlines a
   fresh copy of the target block at the end of the table, and it rewrites
   every goto to an absolute row.
3. The **emitter** prints the tape on line 1, then one line per row. Row
   `n` is printed on line `n`.

The model has these modules:

- `Instructions`: the data model and the `make_*` factories.
- `Parser` and `ParserFacts`: the line parser as a fold over a sequence of
  lines.
- `Linker`: the linker, with a fuel bound on the inlining depth.
- `LinkLoop`: the source's loop exactly as written.
- `LinkLayout`: a declarative description of the linked table.
- `LinkFuel`: how the result depends on fuel, plus the failure cases.
- `LinkRange`: where the linked table's gotos land.
- `ParserShape`: the shape of the blocks the parser builds, which is what
  `LinkRange` needs.
- `Emitter`: the printer and a decoder that reads its text back.
- `Compiler`: the whole pipeline.
- `Text` and `Results`: string helpers and the error-carrying result type.

Python's exceptions become `Err` values. They are reported in the order the
source would raise them:

| Source failure | Model error |
|---|---|
| `IndexError` | `MissingOperand` |
| `ValueError` of `int()` | `BadCount` |
| `KeyError` on the open block | `NoOpenLabel` |
| `error(...)` | `UnknownCondition` |
| `KeyError` on a jump target | `UnknownLabel` |

The parser reads the lines of the file as Python's `for line in file`
yields them: each line keeps its line break `"\n"` (the last one may lack
it). This is observable. A bare `w` line is `"w\n"`; its second character
is the line break, so it writes 0. The text `"w"` has no second character
and is a missing operand. In the same way `"?\n"` is an unknown condition,
while `"?"` is a missing operand.

Three behaviours of the code are worth stating:

- A halting row prints as `H H`, one `H` per outcome (lines 20-24 and
  34-35).
- Every named block is closed by a halt or a return row. The one exception
  is the block named by an empty `:` line: it is never closed, because the
  closing code skips the name `""` (lines 146 and 313).
- The linker fails in only two ways. The first is an unknown label. The
  second is inlining that does not terminate, which the source leaves to
  the interpreter's recursion limit. The model runs out of fuel instead
  (`DepthExceeded`).

Every non-halting goto of the linked table names a row of the table when
the parsed program has no block with the empty name (`Compiler.CompileLands`).
That condition is needed. The lines `:`, `:main`, `*` open the unnamed
block, leave it empty and jump to it from `main`. The table then has rows 2
and 3, and row 2 goes to row 4, which does not exist
(`ParserShape.UnnamedBlockParse`, `LinkRange.EmptyBlockLeaves`).

## Model

| member | source | states |
|---|---|---|
| Instructions.GoRight | turing_asm_transpiler.py:37-41 | for either bit read, the row writes that bit back, moves right and goes to the next row |
| Instructions.GoLeft | turing_asm_transpiler.py:42-46 | for either bit read, the row writes that bit back, moves left and goes to the next row |
| Instructions.Write | turing_asm_transpiler.py:47-51 | for either bit read, the row writes the given bit, stays and goes to the next row |
| Instructions.Stop | turing_asm_transpiler.py:52-56 | both outcomes halt; they carry write 0 and goto `+1` |
| Instructions.Return | turing_asm_transpiler.py:57-61 | for either bit read, the row writes that bit back, stays and returns to the caller |
| Instructions.JumpTo | turing_asm_transpiler.py:62-66 | for either bit read, the row writes that bit back, stays and jumps to the named block |
| Instructions.Repeat | turing_asm_transpiler.py:152-153 | `n` rows, every one of them the given row |
| Linker.Localize | turing_asm_transpiler.py:83-90 | only the goto of an outcome changes: `+k` goes to row `at + k`, `return` to the row after the caller; jumps and absolute rows are kept |
| Linker.Step | turing_asm_transpiler.py:83-103 | a row that is already resolved is left as it is, and every row it produces is resolved; an unknown-label failure names a label that is not defined |
| Linker.Inline | turing_asm_transpiler.py:93-93 | a successful inlining names a defined block, is fully resolved, and is at least as long as the block |
| Linker.LinkFrom | turing_asm_transpiler.py:82-103 | the rest of the loop yields at least the block's rows plus the copies so far; if the rows so far are resolved, so is the whole result |
| Linker.LinkBlock | turing_asm_transpiler.py:80-104 | a linked block has no `+k`, `return` or `*name` goto left and is at least as long as the block; failures name an undefined label, or a defined one whose inlining ran out of fuel |
| Linker.LinkProgram | turing_asm_transpiler.py:319-322 | a program without `main` fails on the lookup of `main`; a linked program keeps the tape, and every goto in it is an absolute row |
| LinkLayout.CorrespondsLocal | turing_asm_transpiler.py:83-90 | an outcome whose goto is not a jump is linked exactly as `Localize` does it |
| LinkLayout.StepIffPlacement | turing_asm_transpiler.py:83-103 | the loop body produces a given row and given copies exactly when the rules hold. Write and move are kept. Each goto is rewritten independently. Both outcomes jumping to one block share one copy; two different blocks get one copy each, read0's first; every copy returns to the row after the caller |
| LinkLayout.LayoutIff | turing_asm_transpiler.py:80-104 | `LinkBlock` yields a table exactly when the table obeys the layout rule. Rows `0..|block|-1` are the block's rows in order, each rewritten in place. The callee copies follow back to back from row `|block|`. The table's length is the block's length plus the lengths of the copies |
| LinkLoop.EnumerateFrom | turing_asm_transpiler.py:82-103 | partway through, the source's loop over the growing list computes what `LinkFrom` computes |
| LinkLoop.AsWritten | turing_asm_transpiler.py:80-104 | the source's loop, which also visits the rows it appends, links a block exactly as `LinkBlock` does, failures included |
| LinkFuel.LinkFromFuel | turing_asm_transpiler.py:82-103 | a successful link gives the same table for every larger fuel |
| LinkFuel.ProgramFuel | turing_asm_transpiler.py:319-322 | a program that links gives the same table for every larger fuel |
| LinkFuel.InlineRanked | turing_asm_transpiler.py:93-101 | if every block only jumps to defined blocks of lower rank, inlining succeeds once the fuel exceeds the rank |
| LinkFuel.ProgramRanked | turing_asm_transpiler.py:319-322 | a program with no dangling jump and no cyclic reference among the blocks reachable from `main` links once the fuel reaches `main`'s rank; unreachable blocks need no rank |
| LinkFuel.MissingLabel | turing_asm_transpiler.py:91-101 | a block with a row that jumps to an undefined label fails to link, whatever the fuel |
| LinkFuel.SelfReference | turing_asm_transpiler.py:91-103 | a block that jumps to itself fails to inline for every fuel |
| LinkFuel.ProgramSelfReference | turing_asm_transpiler.py:319-322 | if `main` jumps to itself, the program fails to link for every fuel |
| Parser.Count | turing_asm_transpiler.py:151-151 | a count is read exactly when the text is a decimal digit string; any other text is a count error that names the text |
| Parser.CountNatText | turing_asm_transpiler.py:151-151 | the decimal text of `n` is read back as the count `n` |
| Parser.Append | turing_asm_transpiler.py:145-166 | adding rows changes only the open block, by appending the rows at its end; adding to a block that does not exist fails with the block's name; adding no rows never fails |
| Parser.Closer | turing_asm_transpiler.py:144-147 | the row that ends a block is a halt for `main` and a return for any other block |
| Parser.Closing | turing_asm_transpiler.py:311-314 | when no block is open nothing is added; otherwise exactly the block's closing row |
| Parser.Close | turing_asm_transpiler.py:311-314 | the open block gets its closing row (nothing if no block is open) and the other blocks are untouched; a valid state always closes |
| Parser.Guarded | turing_asm_transpiler.py:181-184 | a guarded row performs the action when the tested bit is read, and otherwise writes back the other bit and goes to the next row |
| Parser.Branch | turing_asm_transpiler.py:172-176 | the branch row of `?b` goes on to the next row when `b` is read, and otherwise skips the guarded rows |
| Parser.Command | turing_asm_transpiler.py:261-279 | an empty command is a missing operand; `w` and `*` commands give exactly one row; the only failures are missing operands and bad counts |
| ParserFacts.CommandAgrees | turing_asm_transpiler.py:261-279 | a command without spaces is read as `DirectiveRows` reads the same text: the same rows or the same error (texts starting with `H` excepted, since `HALT` is no command) |
| ParserFacts.CommandLine | turing_asm_transpiler.py:150-166 | a move, write or jump command without spaces, written as a line of its own, appends exactly the command's rows, or fails with the command's error |
| Parser.GuardedCommand | turing_asm_transpiler.py:177-248 | the guarded rows of `?0 c` and `?1 c` fail only on a missing operand or a bad count, and every row halts, goes on to the next row or jumps |
| Parser.GuardedAgrees | turing_asm_transpiler.py:177-248 | the rows of `?b c` fail exactly when the plain command `c` fails, with the same error; they have the same number of rows as `c`; each acts like `c`'s row when `b` is read and passes otherwise |
| Parser.Conditional | turing_asm_transpiler.py:169-249 | `?b c` gives one branch row followed by the guarded rows of `c`; on the untested bit the branch jumps past all of them |
| Parser.Choice | turing_asm_transpiler.py:256-307 | `? c0 c1` gives a branch, `c0`'s rows, a skip row, then `c1`'s rows. The branch writes back the bit read and stays; on 0 it goes on, on 1 it goes to `+(|c0|+2)`. The skip row writes back the bit read, stays, and both its gotos are `+(|c1|+1)`, past the end of the rows |
| Parser.OpenBlock | turing_asm_transpiler.py:143-149 | `:name` closes the open block and opens `name` as a new, empty block. This replaces any earlier block of that name, and the other blocks only gain their closing rows |
| Parser.DirectiveRows | turing_asm_transpiler.py:150-166 | the rows of a move, write, halt or jump line: only a missing operand or a bad count fails, and a bad count only for `>` and `<`; `HALT...` and `*...` lines never fail; write and jump lines give one row and an `H` line at most one; every row halts, goes on or jumps; any other first character gives no row |
| Parser.AddRows | turing_asm_transpiler.py:150-166 | a move, write, halt or jump line whose rows can be read appends exactly those rows to the open block, and succeeds whenever that block exists or there are no rows; it changes nothing else and fails only on the directive's own error or a missing open block, never with an unknown instruction |
| ParserFacts.MoveLine | turing_asm_transpiler.py:150-157 | `>N` appends `N` moves right and `<N` appends `N` moves left, with or without the line's break or other trailing whitespace |
| ParserFacts.WriteLine | turing_asm_transpiler.py:158-160 | `w` and the character after it append one write, of 1 exactly when that character is `1`, whatever follows on the line |
| ParserFacts.HaltLine | turing_asm_transpiler.py:161-163 | a line starting `HALT` appends one halting row |
| ParserFacts.JumpLine | turing_asm_transpiler.py:164-166 | `*name` appends one jump to the block named by the stripped text |
| Parser.ConditionRows | turing_asm_transpiler.py:167-309 | the rows of a `?` line: an unknown instruction exactly when the second character is not `0`, `1` or a space; reading them never looks up a block; there is always the branch row, and a `? c0 c1` line gives at least the branch and the skip row |
| Parser.ParseCondition | turing_asm_transpiler.py:167-309 | a `?` line reports an unknown instruction exactly when its second character is not `0`, `1` or a space; a line with no second character is a missing operand; on success only the open block grows |
| Parser.ChoiceLine | turing_asm_transpiler.py:251-307 | a `? ` line whose text does not split into at least two commands is a missing operand; on success the open block grows by exactly `Choice` of the first two commands' rows, and nothing else changes |
| Parser.TapeLine | turing_asm_transpiler.py:141-142 | an `&` line adds the rest of the line, stripped and without spaces; any other line adds nothing |
| Parser.ParseLine | turing_asm_transpiler.py:135-309 | one line either opens a block or only grows the open block, and adds its `&` text to the tape; it reports an unknown instruction exactly for a malformed `?` line |
| ParserFacts.ParseLineValid | turing_asm_transpiler.py:143-149 | the open block is always a defined block |
| ParserFacts.SkippedLines | turing_asm_transpiler.py:136-140 | blank lines, comments, `H` lines not followed by `ALT`, and lines whose first character names no directive change nothing |
| ParserFacts.CountedCondition | turing_asm_transpiler.py:169-249 | `?0 >N` and `?1 >N`, with or without the line's break or other trailing whitespace, append exactly `1+N` rows: a branch that sends the other bit to `+(N+1)`, then `N` guarded moves right |
| ParserFacts.ParseFromClosed | turing_asm_transpiler.py:135-309 | while parsing, the open block stays defined, and every block other than the open one and the unnamed one ends with its closing row |
| ParserFacts.EveryBlockClosed | turing_asm_transpiler.py:311-314 | after parsing, every block with a non-empty name ends with a halt if it is `main` and with a return otherwise |
| ParserFacts.ParseTape | turing_asm_transpiler.py:141-142 | the parsed tape is the text of the `&` lines, in order, without spaces |
| Emitter.GotoText | turing_asm_transpiler.py:84-84 | an absolute row prints as the decimal digits of its number, with no leading zero, and row 0 prints as `0` |
| Emitter.Printed | turing_asm_transpiler.py:20-24 | the text keeps an outcome whole unless it halts; every halting outcome prints alike, so its write and goto are lost |
| Emitter.DecodeRowText | turing_asm_transpiler.py:20-35 | a printed linked row reads back as the row, up to what a halting outcome drops |
| Emitter.RowTextInjective | turing_asm_transpiler.py:20-35 | two linked rows print alike exactly when they agree on everything the text shows |
| Emitter.ProgramLines | turing_asm_transpiler.py:123-127 | split at line breaks, a linked program's text is the tape line, one line per row, and an empty last line |
| Emitter.RowOnItsLine | turing_asm_transpiler.py:123-127 | the row numbered `2 + j` (with `main` linked at row 2) is printed on output line `2 + j` |
| Emitter.DecodeProgramText | turing_asm_transpiler.py:123-127 | a linked program's text reads back as its tape and its rows, up to what halting outcomes drop |
| LinkRange.ProgramLands | turing_asm_transpiler.py:80-104 | if every block is non-empty, each `+k` stays inside its block and `main` never returns, every non-halting goto of the linked table names one of its rows |
| LinkRange.EmptyBlockLeaves | turing_asm_transpiler.py:91-94 | `main` jumping to an empty block links to two rows numbered 2 and 3, and the jump goes to row 4 |
| ParserShape.ParseWellFormed | turing_asm_transpiler.py:135-314 | a parsed program with no block of the empty name has only non-empty blocks whose `+k` gotos stay inside them, and its `main` never returns |
| ParserShape.UnnamedBlockParse | turing_asm_transpiler.py:143-149 | the lines `:`, `:main`, `*` parse to an empty unnamed block and a `main` that jumps to it and then halts |
| Compiler.CompileLands | turing_asm_transpiler.py:80-104 | when no line opens a block of the empty name, every non-halting goto of the written table names one of its rows |
| Compiler.CompileOutput | turing_asm_transpiler.py:339-341 | a successful run writes the text of the `&` lines, then the linked table, which obeys the layout rule of `LayoutIff` for `main` at row 2: `main`'s rows first, then the inlined copies. Every goto is an absolute row, and the text reads back as that table |
| Text.StripEmptyIffAllSpace | turing_asm_transpiler.py:136-136 | a line strips to nothing exactly when it is all whitespace |
| Text.RemoveSpaces | turing_asm_transpiler.py:142-142 | no space is left, text without spaces is unchanged, and a single character is dropped exactly when it is a space |
| Text.RemoveSpacesAppend | turing_asm_transpiler.py:142-142 | removing spaces works piece by piece, so with the single-character case it keeps the other characters in order |
| Text.Split | turing_asm_transpiler.py:252-254 | `split(" ")` gives at least one piece, no piece contains the separator, and joining the pieces gives the text back |
| Text.SplitJoin | turing_asm_transpiler.py:252-254 | splitting joined pieces that contain no separator gives the pieces back |
| Text.NatText | turing_asm_transpiler.py:84-84 | `str(n)` is a digit string whose value is `n`, with no leading zero |

## Left out

- File handling: opening and reading the input, `file.close()`, and `write_to_file` (lines 130, 316, 324-327). The parser takes the file's lines as a sequence of strings, and the emitter produces the text as a string.
- The command-line `main`: `sys.argv` handling and the output file name (lines 330-338).
- The printing and exiting inside `error` (lines 5-7). It is modelled as an `UnknownCondition` failure.
- Parser.Count: accepts only plain ASCII digit strings. Python's `int()` also takes a sign, underscores, surrounding whitespace and non-ASCII digits. So `>-3` is a count error here, while Python adds no rows for it.
- `copy.deepcopy` and object identity (line 81). Dafny values are immutable, so every inlining is a fresh copy and the source block is never modified.
- Unbounded recursion on cyclic label graphs. The source recurses until the interpreter gives up; here every inlining consumes one unit of fuel and fails with `DepthExceeded` when none is left. Only self-reference is proved to fail for every fuel; longer cycles are covered by that failure mode but have no lemma of their own.
- The `"+1"` fallback for an empty goto (line 24). No factory or parser path produces an empty goto.
- `Label.__str__` (lines 74-78). Nothing in the pipeline calls it.
- Text.Strip: its contract only states that the result is no longer than the input and neither starts nor ends with whitespace. That `Strip` removes exactly the leading and trailing whitespace is stated by `StripFront` and `StripBack`, which it is built from.
- Parser.Parse, Parser.ParseFrom and Compiler.Compile carry no contract of their own. What they guarantee is stated by `ParserFacts.ParseFromClosed`, `ParserFacts.EveryBlockClosed`, `ParserFacts.ParseTape` and `Compiler.CompileOutput`.
- LinkLoop.Enumerate carries no contract of its own. What it computes is stated by `LinkLoop.EnumerateFrom` and `LinkLoop.AsWritten`.
- Emitter.PartialText, Emitter.RowText, Emitter.RowsText and Emitter.ProgramText carry no contract of their own. They are specified through the decoder: `DecodeRowText`, `RowTextInjective` and `DecodeProgramText`.
