/** The shape of the blocks the parser builds (lines 135-314): every block
    with a non-empty name is non-empty once closed, each `+k` of its rows
    stays inside it, and only blocks other than `main` return. These are the
    conditions under which the linker's gotos all name rows of its table. */
module ParserShape {
  import opened Results
  import opened Text
  import opened Instructions
  import opened Parser
  import opened ParserFacts
  import opened LinkRange

  /** Rows that stay among themselves or go on to the row just after them,
      and never return. */
  predicate Contained(rows: seq<Instruction>) {
    RowsWithin(rows, |rows| + 1, false)
  }

  /** The parser's invariant: a closed block with a non-empty name is
      non-empty and stays within itself, and the open one is contained. */
  predicate Shaped(b: Builder) {
    && (forall k :: k in b.labels && k != "" && k != b.current ==>
          |b.labels[k]| > 0 && RowsWithin(b.labels[k], |b.labels[k]|, k != Entry))
    && (b.current != "" && b.current in b.labels ==> Contained(b.labels[b.current]))
  }

  /** Staying within a limit without returning allows returning. */
  lemma WithinReturns(rows: seq<Instruction>, limit: nat)
    requires RowsWithin(rows, limit, false)
    ensures RowsWithin(rows, limit, true)
  {
  }

  lemma OnwardContained(rows: seq<Instruction>)
    requires AllOnward(rows)
    ensures Contained(rows)
  {
  }

  lemma ContainedJoin(a: seq<Instruction>, rows: seq<Instruction>)
    requires Contained(a) && Contained(rows)
    ensures Contained(a + rows)
  {
    var c := a + rows;
    forall j | 0 <= j < |c|
      ensures GotoWithin(c[j].read0, j, |c| + 1, false) && GotoWithin(c[j].read1, j, |c| + 1, false)
    {
      if j < |a| {
        assert c[j] == a[j];
        assert GotoWithin(a[j].read0, j, |a| + 1, false) && GotoWithin(a[j].read1, j, |a| + 1, false);
      } else {
        assert c[j] == rows[j - |a|];
        assert GotoWithin(rows[j - |a|].read0, j - |a|, |rows| + 1, false);
        assert GotoWithin(rows[j - |a|].read1, j - |a|, |rows| + 1, false);
      }
    }
  }

  /** The closing row turns a contained block into one that stays within
      itself; it returns unless the block is `main`. */
  lemma CloseWithin(a: seq<Instruction>, name: string)
    requires Contained(a)
    ensures RowsWithin(a + [Closer(name)], |a| + 1, name != Entry)
  {
    var c := a + [Closer(name)];
    forall j | 0 <= j < |c|
      ensures GotoWithin(c[j].read0, j, |c|, name != Entry) && GotoWithin(c[j].read1, j, |c|, name != Entry)
    {
      if j < |a| {
        assert c[j] == a[j];
        assert GotoWithin(a[j].read0, j, |a| + 1, false) && GotoWithin(a[j].read1, j, |a| + 1, false);
      }
    }
  }

  /** `?0 c` and `?1 c`: the branch skips just past the guarded rows. */
  lemma ConditionalContained(bit: bool, text: string)
    requires Conditional(bit, text).Ok?
    ensures Contained(Conditional(bit, text).value)
  {
    var c := Conditional(bit, text).value;
    var rows := GuardedCommand(bit, text).value;
    forall j | 0 <= j < |c|
      ensures GotoWithin(c[j].read0, j, |c| + 1, false) && GotoWithin(c[j].read1, j, |c| + 1, false)
    {
      if j == 0 {
        assert Outcome(c[0], bit) == Pass(bit) && Outcome(c[0], !bit).goto == Rel(|c|);
        assert c[0].read0 == Outcome(c[0], false) && c[0].read1 == Outcome(c[0], true);
      } else {
        assert c[j] == rows[j - 1];
      }
    }
  }

  /** `? c0 c1`: the branch skips to `c1`, the skip row past it. */
  lemma ChoiceContained(first: seq<Instruction>, second: seq<Instruction>)
    requires AllOnward(first) && AllOnward(second)
    ensures Contained(Choice(first, second))
  {
    var c := Choice(first, second);
    forall j | 0 <= j < |c|
      ensures GotoWithin(c[j].read0, j, |c| + 1, false) && GotoWithin(c[j].read1, j, |c| + 1, false)
    {
      if 1 <= j < |first| + 1 {
        assert c[j] == first[j - 1];
      } else if |first| + 2 <= j {
        assert c[j] == second[j - |first| - 2];
      }
    }
  }

  /** Whatever a line adds to the open block is contained. */
  lemma AddedContained(line: string)
    ensures Contained(Added(line))
  {
    if Blank(line) || line[0] == '#' || line[0] == '&' || line[0] == ':' {
    } else if line[0] == '?' {
      if |line| >= 2 && ConditionRows(line).Ok? {
        if line[1] == '0' || line[1] == '1' {
          ConditionalContained(line[1] == '1', Strip(line[2..]));
        } else {
          var parts := Split(Strip(line[2..]), ' ');
          ChoiceContained(Command(parts[0]).value, Command(parts[1]).value);
        }
      }
    } else if DirectiveRows(line).Ok? {
      OnwardContained(DirectiveRows(line).value);
    }
  }

  /** Adding contained rows to the open block keeps the invariant. */
  lemma GrowShaped(b: Builder, r: Builder, rows: seq<Instruction>)
    requires Shaped(b) && Grows(b, r) && Contained(rows)
    requires b.current in b.labels ==> r.labels[b.current] == b.labels[b.current] + rows
    ensures Shaped(r)
  {
    if b.current != "" && b.current in b.labels {
      ContainedJoin(b.labels[b.current], rows);
    }
  }

  /** Closing the open block and opening `name` keeps the invariant. */
  lemma OpenShaped(b: Builder, name: string)
    requires Shaped(b) && OpenBlock(b, name).Ok?
    ensures Shaped(OpenBlock(b, name).value)
  {
    var r := OpenBlock(b, name).value;
    if b.current != "" && b.current in b.labels && b.current != name {
      CloseWithin(b.labels[b.current], b.current);
      assert r.labels[b.current] == b.labels[b.current] + [Closer(b.current)];
    }
    assert r.labels[name] == [];
  }

  /** Every line keeps the invariant. */
  lemma ParseLineShaped(b: Builder, line: string)
    requires Shaped(b) && ParseLine(b, line).Ok?
    ensures Shaped(ParseLine(b, line).value)
  {
    if Opens(line) {
      OpenShaped(b, Strip(line[1..]));
    } else {
      LineAdds(b, line);
      AddedContained(line);
      GrowShaped(b, ParseLine(b, line).value, Added(line));
    }
  }

  lemma {:induction false} ParseFromShaped(b: Builder, lines: seq<string>)
    requires Shaped(b) && ParseFrom(b, lines).Ok?
    ensures Shaped(ParseFrom(b, lines).value)
    decreases |lines|
  {
    if |lines| > 0 {
      ParseFromFirst(b, lines);
      ParseLineShaped(b, lines[0]);
      ParseFromShaped(ParseLine(b, lines[0]).value, lines[1..]);
    }
  }

  /** Closing the last block of a shaped state without an unnamed block
      leaves every block non-empty and within itself, and `main` without a
      return. */
  lemma CloseShaped(b: Builder)
    requires Shaped(b) && Close(b).Ok? && "" !in Close(b).value.labels
    ensures WellFormed(Close(b).value.labels)
    ensures var labels := Close(b).value.labels;
      Entry in labels ==> RowsWithin(labels[Entry], |labels[Entry]|, false)
  {
    var c := Close(b).value;
    forall k | k in c.labels
      ensures |c.labels[k]| > 0 && RowsWithin(c.labels[k], |c.labels[k]|, k != Entry)
    {
      if k == b.current {
        CloseWithin(b.labels[k], k);
      }
    }
    forall k | k in c.labels
      ensures |c.labels[k]| > 0 && RowsWithin(c.labels[k], |c.labels[k]|, true)
    {
      if k == Entry {
        WithinReturns(c.labels[k], |c.labels[k]|);
      }
    }
  }

  /** A parsed program without a block named by the empty string is well
      formed, and its `main` never returns. */
  lemma ParseWellFormed(lines: seq<string>)
    requires Parse(lines).Ok? && "" !in Parse(lines).value.labels
    ensures WellFormed(Parse(lines).value.labels)
    ensures Entry in Parse(lines).value.labels ==>
      RowsWithin(Parse(lines).value.labels[Entry], |Parse(lines).value.labels[Entry]|, false)
  {
    ParseFromShaped(Start, lines);
    var b := ParseFrom(Start, lines).value;
    assert Parse(lines).value.labels == Close(b).value.labels;
    CloseShaped(b);
  }

  /** The requirement on the unnamed block is needed: the lines `:`, `:main`
      and `*` (each read with its line break) open the unnamed block, which
      is never closed and stays empty, and jump to it from `main`. Linking
      this program gives a goto past the table's end (`EmptyBlockLeaves`). */
  lemma UnnamedBlockParse(lines: seq<string>)
    requires lines == [":\n", ":main\n", "*\n"]
    ensures Parse(lines) == Ok(ParsedProgram("", map[Entry := [JumpTo(""), Stop()], "" := []]))
  {
    var b3 := Builder("", map["" := [], Entry := [JumpTo("")]], Entry);
    UnnamedFold(lines[0], lines[1], lines[2]);
    assert lines == [lines[0], lines[1], lines[2]];
    CloseUnnamed(b3);
    ParseOfClosed(lines, b3, Builder("", map[Entry := [JumpTo(""), Stop()], "" := []], Entry));
  }

  /** The fold over the three lines, before the open block is closed. */
  lemma UnnamedFold(first: string, second: string, third: string)
    requires first == ":\n" && second == ":main\n" && third == "*\n"
    ensures ParseFrom(Start, [first, second, third])
         == Ok(Builder("", map["" := [], Entry := [JumpTo("")]], Entry))
  {
    var b1 := Builder("", map["" := []], "");
    var b2 := Builder("", map["" := [], Entry := []], Entry);
    FirstLine(first);
    SecondLine(second);
    ThirdLine(third);
    FoldThree(Start, b1, b2, Builder("", map["" := [], Entry := [JumpTo("")]], Entry), first, second, third);
  }

  /** Three lines that each parse fold to the state after the third. */
  lemma FoldThree(b0: Builder, b1: Builder, b2: Builder, b3: Builder, first: string, second: string, third: string)
    requires ParseLine(b0, first) == Ok(b1) && ParseLine(b1, second) == Ok(b2) && ParseLine(b2, third) == Ok(b3)
    ensures ParseFrom(b0, [first, second, third]) == Ok(b3)
  {
    ParseFromCons(b2, third, [], b3);
    assert [third] + [] == [third];
    ParseFromCons(b1, second, [third], b2);
    assert [second] + [third] == [second, third];
    ParseFromCons(b0, first, [second, third], b1);
    assert [first] + [second, third] == [first, second, third];
  }

  /** `Parse` is the fold followed by closing the block left open. */
  lemma ParseOfClosed(lines: seq<string>, b: Builder, c: Builder)
    requires ParseFrom(Start, lines) == Ok(b) && Close(b) == Ok(c)
    ensures Parse(lines) == Ok(ParsedProgram(c.tape, c.labels))
  {
  }

  /** The fold over `[line] + rest` is the fold over `rest` after `line`. */
  lemma ParseFromCons(b: Builder, line: string, rest: seq<string>, b': Builder)
    requires ParseLine(b, line) == Ok(b')
    ensures ParseFrom(b, [line] + rest) == ParseFrom(b', rest)
  {
    assert ([line] + rest)[0] == line && ([line] + rest)[1..] == rest;
  }

  /** Closing `main` after the jump adds its halt; the unnamed block stays empty. */
  lemma CloseUnnamed(b: Builder)
    requires b == Builder("", map["" := [], Entry := [JumpTo("")]], Entry)
    ensures Close(b) == Ok(Builder("", map[Entry := [JumpTo(""), Stop()], "" := []], Entry))
  {
    var rows: seq<Instruction> := [JumpTo("")] + [Stop()];
    assert rows == [JumpTo(""), Stop()];
    assert Closing(Entry) == [Stop()];
    assert b.labels[Entry := rows] == map[Entry := [JumpTo(""), Stop()], "" := []];
  }

  /** `:` opens the unnamed block. */
  lemma FirstLine(line: string)
    requires line == ":\n"
    ensures ParseLine(Start, line) == Ok(Builder("", map["" := []], ""))
  {
    var rest := line[1..];
    StripBreak(rest);
    OpenLine(Start, line, rest);
  }

  /** `:main` leaves the unnamed block without a closing row and opens `main`. */
  lemma SecondLine(line: string)
    requires line == ":main\n"
    ensures ParseLine(Builder("", map["" := []], ""), line) == Ok(Builder("", map["" := [], Entry := []], Entry))
  {
    var b := Builder("", map["" := []], "");
    var rest := line[1..];
    StripMain(rest);
    OpenLine(b, line, rest);
    assert Close(b) == Ok(b);
    assert b.labels[Entry := []] == map["" := [], Entry := []];
  }

  /** `*` jumps to the unnamed block. */
  lemma ThirdLine(line: string)
    requires line == "*\n"
    ensures ParseLine(Builder("", map["" := [], Entry := []], Entry), line)
         == Ok(Builder("", map["" := [], Entry := [JumpTo("")]], Entry))
  {
    var b := Builder("", map["" := [], Entry := []], Entry);
    JumpUnnamed(b, line);
    AppendJump(b);
  }

  /** A bare `*` line appends a jump to the unnamed block. */
  lemma JumpUnnamed(b: Builder, line: string)
    requires line == "*\n"
    ensures ParseLine(b, line) == Append(b, [JumpTo("")])
  {
    var rest := line[1..];
    StripBreak(rest);
    assert line == ['*'] + rest;
    JumpLine(b, rest);
  }

  lemma AppendJump(b: Builder)
    requires b == Builder("", map["" := [], Entry := []], Entry)
    ensures Append(b, [JumpTo("")]) == Ok(Builder("", map["" := [], Entry := [JumpTo("")]], Entry))
  {
    var rows: seq<Instruction> := [] + [JumpTo("")];
    assert rows == [JumpTo("")];
    assert b.labels[Entry := rows] == map["" := [], Entry := [JumpTo("")]];
  }

  /** A line `:` followed by `rest` opens the block `Strip(rest)`. */
  lemma OpenLine(b: Builder, line: string, rest: string)
    requires line == [':'] + rest
    ensures ParseLine(b, line) == OpenBlock(b, Strip(rest))
  {
    NotBlank(line);
    assert line[1..] == rest;
  }

  /** A line break alone strips to nothing. */
  lemma StripBreak(s: string)
    requires s == "\n"
    ensures Strip(s) == ""
  {
    assert IsSpace(s[0]);
    StripEmptyIffAllSpace(s);
  }

  /** `main` and a line break strip to `main`. */
  lemma StripMain(s: string)
    requires s == "main\n"
    ensures Strip(s) == "main"
  {
    var t := s[..4];
    assert t == "main" && !IsSpace(t[0]) && !IsSpace(t[3]);
    assert StripFront(s) == s;
    assert IsSpace(s[4]);
    assert StripBack(s) == StripBack(t);
    StripTrimmed(t);
    assert StripFront(t) == t;
  }
}
