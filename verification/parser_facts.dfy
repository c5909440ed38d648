/** What the parser guarantees about the blocks and the tape it builds. */
module ParserFacts {
  import opened Results
  import opened Text
  import opened Instructions
  import opened Parser

  /** One step of the fold. */
  lemma ParseFromFirst(b: Builder, lines: seq<string>)
    requires |lines| > 0 && ParseFrom(b, lines).Ok?
    ensures ParseLine(b, lines[0]).Ok?
    ensures ParseFrom(b, lines) == ParseFrom(ParseLine(b, lines[0]).value, lines[1..])
  {
  }

  /** A valid state stays valid. */
  lemma ParseLineValid(b: Builder, line: string)
    requires Valid(b) && ParseLine(b, line).Ok?
    ensures Valid(ParseLine(b, line).value)
  {
  }

  /** Lines that change nothing: blank lines, comments, `H` not followed by
      `ALT`, and lines whose first character matches no case. */
  lemma SkippedLines(b: Builder, line: string)
    requires || Blank(line)
             || line[0] == '#'
             || (line[0] == 'H' && !(|line| >= 4 && line[1..4] == "ALT"))
             || line[0] !in ['&', ':', '>', '<', 'w', 'H', '*', '?']
    ensures ParseLine(b, line) == Ok(b)
  {
  }

  /** The digit character of a bit. */
  function BitChar(bit: bool): (c: char)
    ensures c == '0' || c == '1'
    ensures (c == '1') == bit
  {
    if bit then '1' else '0'
  }

  /** Digits hold no whitespace. */
  lemma DigitsNoSpace(digits: string)
    requires IsDigits(digits)
    ensures ' ' !in digits
    ensures Strip(digits) == digits
    ensures RemoveSpaces(Strip(digits)) == digits
  {
    assert IsDigit(digits[0]) && IsDigit(digits[|digits| - 1]);
    StripTrimmed(digits);
  }

  /** One space in front of trimmed text is stripped away. */
  lemma StripOneSpace(t: string)
    requires |t| > 0 && !IsSpace(t[0]) && !IsSpace(t[|t| - 1])
    ensures Strip([' '] + t) == t
  {
    StripSpaceFront(' ', t);
    StripTrimmed(t);
  }

  /** The command text of `?b >N`, with whatever whitespace ends the line,
      once the line is stripped. */
  lemma CountedText(digits: string, rest: string)
    requires IsDigits(digits) && AllSpace(rest)
    ensures Strip([' ', '>'] + digits + rest) == ['>'] + digits
  {
    var text := ['>'] + digits;
    assert [' ', '>'] + digits + rest == [' '] + text + rest;
    assert text[|text| - 1] == digits[|digits| - 1] && IsDigit(digits[|digits| - 1]);
    StripBetween(text, rest);
  }

  /** One space in front of trimmed text and whitespace after it are
      stripped away. */
  lemma StripBetween(t: string, rest: string)
    requires |t| > 0 && !IsSpace(t[0]) && !IsSpace(t[|t| - 1]) && AllSpace(rest)
    ensures Strip([' '] + t + rest) == t
  {
    assert [' '] + t + rest == [' '] + (t + rest);
    StripSpaceFront(' ', t + rest);
    StripTrailing(t, rest);
  }

  /** The guarded expansion of the command `>N`. */
  lemma CountedGuarded(bit: bool, digits: string)
    requires IsDigits(digits)
    ensures GuardedCommand(bit, ['>'] + digits)
         == Ok(Repeat(Guarded(bit, Partial(bit, Right, Rel(1))), DigitsValue(digits)))
  {
    var text := ['>'] + digits;
    assert text[1..] == digits;
    DigitsNoSpace(digits);
  }

  /** The line `?b >N` is a condition line on `bit` whose command text is `>N`. */
  lemma CountedLine(bit: bool, digits: string, rest: string)
    requires IsDigits(digits) && AllSpace(rest)
    ensures var line := ['?', BitChar(bit), ' ', '>'] + digits + rest;
      && !Blank(line) && line[0] == '?' && |line| >= 2 && line[1] == BitChar(bit)
      && Strip(line[2..]) == ['>'] + digits
  {
    var line := ['?', BitChar(bit), ' ', '>'] + digits + rest;
    assert line[0] == '?' && line[1] == BitChar(bit);
    assert line[2..] == [' ', '>'] + digits + rest;
    CountedText(digits, rest);
    NotBlank(line);
  }

  /** The rows `?b >N` stands for, read off its text. */
  lemma CountedRows(bit: bool, digits: string, rest: string)
    requires IsDigits(digits) && AllSpace(rest)
    ensures var line := ['?', BitChar(bit), ' ', '>'] + digits + rest;
      && !Blank(line) && line[0] == '?' && |line| >= 2 && line[1] == BitChar(bit)
      && Conditional(bit, Strip(line[2..]))
         == Ok([Branch(bit, DigitsValue(digits))] + Repeat(Guarded(bit, Partial(bit, Right, Rel(1))), DigitsValue(digits)))
  {
    CountedLine(bit, digits, rest);
    CountedGuarded(bit, digits);
  }

  /** `?0 >N` and `?1 >N`, with or without a line break or other trailing
      whitespace, add exactly `1 + N` rows to the open block: the branch,
      which on the other value skips to just past the rows added, then `N`
      rows that move right when the tested value is read and pass
      otherwise. */
  lemma CountedCondition(b: Builder, bit: bool, digits: string, rest: string)
    requires b.current in b.labels && IsDigits(digits) && AllSpace(rest)
    ensures var r := ParseLine(b, ['?', BitChar(bit), ' ', '>'] + digits + rest);
      && r.Ok?
      && var before := b.labels[b.current];
         var after := r.value.labels[b.current];
         var added := after[|before|..];
         && |before| <= |after|
         && after[..|before|] == before
         && |added| == 1 + DigitsValue(digits)
         && Outcome(added[0], bit) == Pass(bit)
         && Outcome(added[0], !bit).goto == Rel(|added|)
         && forall j :: 1 <= j < |added| ==>
              Outcome(added[j], bit) == Partial(bit, Right, Rel(1)) && Outcome(added[j], !bit) == Pass(!bit)
  {
    var n := DigitsValue(digits);
    var rows := [Branch(bit, n)] + Repeat(Guarded(bit, Partial(bit, Right, Rel(1))), n);
    CountedAppends(b, bit, digits, rest);
    AppendedRows(b, rows);
    CountedShape(bit, n);
  }

  /** The rows of `?b >n`: the branch over `n` guarded moves. */
  lemma CountedShape(bit: bool, n: nat)
    ensures var rows := [Branch(bit, n)] + Repeat(Guarded(bit, Partial(bit, Right, Rel(1))), n);
      && |rows| == 1 + n
      && Outcome(rows[0], bit) == Pass(bit)
      && Outcome(rows[0], !bit).goto == Rel(|rows|)
      && forall j :: 1 <= j < |rows| ==>
           Outcome(rows[j], bit) == Partial(bit, Right, Rel(1)) && Outcome(rows[j], !bit) == Pass(!bit)
  {
    var rows := [Branch(bit, n)] + Repeat(Guarded(bit, Partial(bit, Right, Rel(1))), n);
    forall j | 1 <= j < |rows|
      ensures Outcome(rows[j], bit) == Partial(bit, Right, Rel(1)) && Outcome(rows[j], !bit) == Pass(!bit)
    {
      assert rows[j] == Guarded(bit, Partial(bit, Right, Rel(1)));
    }
  }

  /** Appending to the open block keeps its rows and adds `rows` after them. */
  lemma AppendedRows(b: Builder, rows: seq<Instruction>)
    requires b.current in b.labels
    ensures Append(b, rows).Ok?
    ensures var before := b.labels[b.current];
      var after := Append(b, rows).value.labels[b.current];
      |before| <= |after| && after[..|before|] == before && after[|before|..] == rows
  {
    var before := b.labels[b.current];
    var after := before + rows;
    assert after[|before|..] == rows;
    assert after[..|before|] == before;
  }

  /** `?b >N` appends the branch and the guarded rows to the open block. */
  lemma CountedAppends(b: Builder, bit: bool, digits: string, rest: string)
    requires b.current in b.labels && IsDigits(digits) && AllSpace(rest)
    ensures var n := DigitsValue(digits);
      ParseLine(b, ['?', BitChar(bit), ' ', '>'] + digits + rest)
      == Append(b, [Branch(bit, n)] + Repeat(Guarded(bit, Partial(bit, Right, Rel(1))), n))
  {
    var line := ['?', BitChar(bit), ' ', '>'] + digits + rest;
    CountedRows(bit, digits, rest);
    ConditionLine(b, line);
  }

  /** A `?0`/`?1` line in an open block appends the rows of its conditional. */
  lemma ConditionLine(b: Builder, line: string)
    requires !Blank(line) && |line| >= 2 && line[0] == '?' && (line[1] == '0' || line[1] == '1')
    requires b.current in b.labels
    requires Conditional(line[1] == '1', Strip(line[2..])).Ok?
    ensures ParseLine(b, line) == Append(b, Conditional(line[1] == '1', Strip(line[2..])).value)
  {
    assert ParseLine(b, line) == ParseCondition(b, line);
  }

  /** A line whose first character is not whitespace is not blank. */
  lemma NotBlank(line: string)
    requires |line| > 0 && !IsSpace(line[0])
    ensures !Blank(line)
  {
    StripEmptyIffAllSpace(line);
  }

  /** A line starting with a directive character adds the directive's rows. */
  lemma DirectiveLine(b: Builder, line: string)
    requires |line| > 0 && line[0] in ['>', '<', 'w', 'H', '*']
    ensures ParseLine(b, line) == AddRows(b, line)
  {
    NotBlank(line);
    assert line[0] != '#' && line[0] != '&' && line[0] != ':' && line[0] != '?';
  }

  /** `>N` and `<N`, with or without a line break or other trailing
      whitespace, append `N` moves in that direction. */
  lemma MoveLine(b: Builder, right: bool, digits: string, rest: string)
    requires IsDigits(digits) && AllSpace(rest)
    ensures ParseLine(b, [if right then '>' else '<'] + digits + rest)
         == Append(b, Repeat(if right then GoRight() else GoLeft(), DigitsValue(digits)))
  {
    var line := [if right then '>' else '<'] + digits + rest;
    DirectiveLine(b, line);
    MoveRows(right, digits, rest);
  }

  /** The count of a move line is its digits, trailing whitespace aside. */
  lemma MoveRows(right: bool, digits: string, rest: string)
    requires IsDigits(digits) && AllSpace(rest)
    ensures DirectiveRows([if right then '>' else '<'] + digits + rest)
         == Ok(Repeat(if right then GoRight() else GoLeft(), DigitsValue(digits)))
  {
    var line := [if right then '>' else '<'] + digits + rest;
    assert line[1..] == digits + rest;
    assert IsDigit(digits[0]) && IsDigit(digits[|digits| - 1]);
    StripTrailing(digits, rest);
  }

  /** `w` and the character after it append one write of that character's
      value, whatever follows: `w1` writes 1, and anything else, the newline
      of a bare `w` line included, writes 0. */
  lemma WriteLine(b: Builder, c: char, rest: string)
    ensures ParseLine(b, ['w', c] + rest) == Append(b, [Write(c == '1')])
  {
    var line := ['w', c] + rest;
    assert line[0] == 'w' && line[1] == c;
    DirectiveLine(b, line);
  }

  /** A line starting `HALT` appends the halting row. */
  lemma HaltLine(b: Builder, rest: string)
    ensures ParseLine(b, "HALT" + rest) == Append(b, [Stop()])
  {
    var line := "HALT" + rest;
    DirectiveLine(b, line);
    assert line[1..4] == "ALT";
  }

  /** `*name` appends one jump to the block named by the stripped text. */
  lemma JumpLine(b: Builder, name: string)
    ensures ParseLine(b, ['*'] + name) == Append(b, [JumpTo(Strip(name))])
  {
    var line := ['*'] + name;
    DirectiveLine(b, line);
    JumpRows(name);
  }

  lemma JumpRows(name: string)
    ensures DirectiveRows(['*'] + name) == Ok([JumpTo(Strip(name))])
  {
    var line := ['*'] + name;
    assert line[0] == '*' && line[1..] == name;
  }

  /** A command of a `? c0 c1` line (a piece of the line split at spaces,
      so without spaces) is read as `DirectiveRows` reads the same text:
      the same rows or the same error. The one exception is a text starting
      with `H`, which `HALT` makes a directive but not a command. */
  lemma CommandAgrees(text: string)
    requires |text| > 0 && text[0] != 'H' && ' ' !in text
    ensures Command(text) == DirectiveRows(text)
  {
    var rest := text[1..];
    assert ' ' !in rest by {
      assert forall i :: 0 <= i < |rest| ==> rest[i] == text[i + 1];
    }
    StripNoSpace(rest);
    assert RemoveSpaces(Strip(rest)) == Strip(rest);
    if text[0] == '>' || text[0] == '<' {
      CountAgrees(text, Strip(rest));
    }
  }

  /** A move, write or jump command without spaces, written as a line of
      its own, appends the command's rows, or fails with the command's
      error. */
  lemma CommandLine(b: Builder, text: string)
    requires |text| > 0 && text[0] in ['>', '<', 'w', '*'] && ' ' !in text
    ensures Command(text).Ok? ==> ParseLine(b, text) == Append(b, Command(text).value)
    ensures Command(text).Err? ==> ParseLine(b, text) == Err(Command(text).error)
  {
    CommandAgrees(text);
    DirectiveLine(b, text);
  }

  /** The count of a `>n` or `<n` command is read from the same text as
      that of the line. */
  lemma CountAgrees(text: string, count: string)
    requires |text| > 0 && (text[0] == '>' || text[0] == '<')
    requires RemoveSpaces(Strip(text[1..])) == count && Strip(text[1..]) == count
    ensures Command(text) == DirectiveRows(text)
  {
  }

  /** A line that opens no block adds `Added(line)` to the open block, and
      nothing else to any block. */
  lemma LineAdds(b: Builder, line: string)
    requires ParseLine(b, line).Ok? && !Opens(line)
    ensures Grows(b, ParseLine(b, line).value)
    ensures b.current in b.labels ==>
      ParseLine(b, line).value.labels[b.current] == b.labels[b.current] + Added(line)
  {
    if Blank(line) || line[0] == '#' || line[0] == '&' {
    } else if line[0] == '?' {
      assert ParseLine(b, line) == ParseCondition(b, line);
    } else {
      assert ParseLine(b, line) == AddRows(b, line);
    }
  }

  /** A block other than the open one and the unnamed one ends with its
      closing row. */
  predicate Closed(b: Builder) {
    forall k :: k in b.labels && k != b.current && k != "" ==> EndsWith(b.labels[k], Closer(k))
  }

  predicate EndsWith(rows: seq<Instruction>, last: Instruction) {
    |rows| >= 1 && rows[|rows| - 1] == last
  }

  /** Adding rows to the open block keeps the other blocks closed. */
  lemma GrowsClosed(b: Builder, r: Builder)
    requires Closed(b) && Grows(b, r)
    ensures Closed(r)
  {
  }

  /** A `:name` line closes the block it leaves. */
  lemma OpensClosed(b: Builder, line: string)
    requires Closed(b) && Opens(line) && ParseLine(b, line).Ok?
    ensures Closed(ParseLine(b, line).value)
  {
    var r := OpenBlock(b, Strip(line[1..])).value;
    forall k | k in r.labels && k != r.current && k != ""
      ensures EndsWith(r.labels[k], Closer(k))
    {
      if k == b.current {
        assert r.labels[k] == b.labels[k] + [Closer(k)];
      }
    }
  }

  lemma ParseLineClosed(b: Builder, line: string)
    requires Valid(b) && Closed(b) && ParseLine(b, line).Ok?
    ensures Valid(ParseLine(b, line).value) && Closed(ParseLine(b, line).value)
  {
    ParseLineValid(b, line);
    if Opens(line) {
      OpensClosed(b, line);
    } else {
      GrowsClosed(b, ParseLine(b, line).value);
    }
  }

  lemma {:induction false} ParseFromClosed(b: Builder, lines: seq<string>)
    requires Valid(b) && Closed(b) && ParseFrom(b, lines).Ok?
    ensures Valid(ParseFrom(b, lines).value) && Closed(ParseFrom(b, lines).value)
    decreases |lines|
  {
    if |lines| > 0 {
      ParseLineClosed(b, lines[0]);
      ParseFromClosed(ParseLine(b, lines[0]).value, lines[1..]);
    }
  }

  /** After parsing, every named block ends with its closing row: a halt
      for `main`, a return for every other block. */
  lemma EveryBlockClosed(lines: seq<string>)
    requires Parse(lines).Ok?
    ensures var labels := Parse(lines).value.labels;
      forall k :: k in labels && k != "" ==>
        |labels[k]| >= 1 && labels[k][|labels[k]| - 1] == (if k == Entry then Stop() else Return())
  {
    ParseFromClosed(Start, lines);
    var b := ParseFrom(Start, lines).value;
    var labels := Parse(lines).value.labels;
    forall k | k in labels && k != ""
      ensures EndsWith(labels[k], Closer(k))
    {
      if k == b.current {
        assert labels[k] == b.labels[k] + [Closer(k)];
      }
    }
  }

  /** The tape a file describes: its `&` lines, in order, without spaces. */
  function TapeText(lines: seq<string>): (t: string)
    ensures ' ' !in t
  {
    if |lines| == 0 then "" else TapeLine(lines[0]) + TapeText(lines[1..])
  }

  lemma {:induction false} ParseFromTape(b: Builder, lines: seq<string>)
    requires ParseFrom(b, lines).Ok?
    ensures ParseFrom(b, lines).value.tape == b.tape + TapeText(lines)
    decreases |lines|
  {
    if |lines| == 0 {
      assert ParseFrom(b, lines) == Ok(b);
    } else {
      ParseFromFirst(b, lines);
      var b' := ParseLine(b, lines[0]).value;
      ParseFromTape(b', lines[1..]);
      TapeStep(b, b', lines, ParseFrom(b, lines).value.tape);
    }
  }

  lemma TapeStep(b: Builder, b': Builder, lines: seq<string>, t: string)
    requires |lines| > 0
    requires b'.tape == b.tape + TapeLine(lines[0])
    requires t == b'.tape + TapeText(lines[1..])
    ensures t == b.tape + TapeText(lines)
  {
    TapeTextFirst(lines);
    Associative(b.tape, TapeLine(lines[0]), TapeText(lines[1..]));
  }

  lemma TapeTextFirst(lines: seq<string>)
    requires |lines| > 0
    ensures TapeText(lines) == TapeLine(lines[0]) + TapeText(lines[1..])
  {
  }

  lemma Associative(a: string, x: string, y: string)
    ensures a + x + y == a + (x + y)
  {
  }

  /** The parsed tape is the `&` lines' text, concatenated in order. */
  lemma ParseTape(lines: seq<string>)
    requires Parse(lines).Ok?
    ensures Parse(lines).value.tape == TapeText(lines)
    ensures ' ' !in Parse(lines).value.tape
  {
    ParseFromTape(Start, lines);
  }
}
