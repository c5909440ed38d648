/** Where the linked table's gotos go (lines 80-104 and 319-322). When every
    block is non-empty and each of its non-halting outcomes moves by `+k` to
    a row of the same block, returns, or jumps to a block, then every
    non-halting outcome of the linked table names one of the table's rows. */
module LinkRange {
  import opened Results
  import opened Instructions
  import opened Linker
  import opened LinkLayout

  /** Every block is non-empty and stays within itself. */
  predicate WellFormed(labels: Labels) {
    forall name :: name in labels ==>
      |labels[name]| > 0 && RowsWithin(labels[name], |labels[name]|, true)
  }

  /** A linked outcome halts or goes to a row in `[lo, hi)`; with `ret`, the
      row after `caller` is allowed as well. */
  predicate Lands(p: Partial, lo: nat, hi: nat, caller: nat, ret: bool) {
    p.move == Halt || (p.goto.Abs? && (lo <= p.goto.row < hi || (ret && p.goto.row == caller + 1)))
  }

  predicate AllLand(rows: seq<Instruction>, lo: nat, hi: nat, caller: nat, ret: bool) {
    forall j :: 0 <= j < |rows| ==>
      Lands(rows[j].read0, lo, hi, caller, ret) && Lands(rows[j].read1, lo, hi, caller, ret)
  }

  /** A wider range, or a return target that lies inside it, keeps rows landing. */
  lemma AllLandWiden(rows: seq<Instruction>, lo: nat, hi: nat, caller: nat, ret: bool,
                     lo': nat, hi': nat, caller': nat, ret': bool)
    requires AllLand(rows, lo, hi, caller, ret)
    requires lo' <= lo && hi <= hi'
    requires ret ==> (lo' <= caller + 1 < hi') || (ret' && caller' == caller)
    ensures AllLand(rows, lo', hi', caller', ret')
  {
  }

  lemma AllLandJoin(a: seq<Instruction>, b: seq<Instruction>, lo: nat, hi: nat, caller: nat, ret: bool)
    requires AllLand(a, lo, hi, caller, ret) && AllLand(b, lo, hi, caller, ret)
    ensures AllLand(a + b, lo, hi, caller, ret)
  {
    forall j | 0 <= j < |a + b|
      ensures Lands((a + b)[j].read0, lo, hi, caller, ret) && Lands((a + b)[j].read1, lo, hi, caller, ret)
    {
      if j < |a| { assert (a + b)[j] == a[j]; } else { assert (a + b)[j] == b[j - |a|]; }
    }
  }

  /** An outcome without a jump, rewritten at row `base + i` of a block of
      `n` rows that lies below `hi`, lands in `[base, hi)` or returns. */
  lemma OutcomeLands(p: Partial, q: Partial, i: nat, n: nat, base: nat, hi: nat, caller: nat, ret: bool)
    requires GotoWithin(p, i, n, ret) && !p.goto.Jump? && base + n <= hi
    requires q.move == p.move && Resolves(p.goto, q.goto, base + i, caller)
    ensures Lands(q, base, hi, caller, ret)
  {
  }

  /** A row of a block and the copies its jumps inline land in the block,
      in those copies, or (with `ret`) at the row after `caller`. */
  lemma StepLands(instr: Instruction, i: nat, n: nat, base: nat, caller: nat, next: nat,
                  labels: Labels, fuel: nat, ret: bool)
    requires i < n && base + n <= next && WellFormed(labels)
    requires GotoWithin(instr.read0, i, n, ret) && GotoWithin(instr.read1, i, n, ret)
    requires Step(instr, base + i, caller, next, labels, fuel).Ok?
    ensures var s := Step(instr, base + i, caller, next, labels, fuel).value;
      && Lands(s.row.read0, base, next + |s.rows|, caller, ret)
      && Lands(s.row.read1, base, next + |s.rows|, caller, ret)
      && AllLand(s.rows, base, next + |s.rows|, caller, ret)
    decreases fuel, 1, 2
  {
    var s := Step(instr, base + i, caller, next, labels, fuel).value;
    StepPlaces(instr, base + i, caller, next, labels, fuel);
    PlacedLands(instr, s.row, s.rows, i, n, base, caller, next, labels, fuel, ret);
  }

  /** The same for any row and copies that follow the placement rule. */
  lemma PlacedLands(instr: Instruction, row: Instruction, part: seq<Instruction>,
                    i: nat, n: nat, base: nat, caller: nat, next: nat,
                    labels: Labels, fuel: nat, ret: bool)
    requires i < n && base + n <= next && WellFormed(labels)
    requires GotoWithin(instr.read0, i, n, ret) && GotoWithin(instr.read1, i, n, ret)
    requires Corresponds(instr, row, base + i, caller)
    requires Placement(instr, row, base + i, next, labels, fuel, part)
    ensures && Lands(row.read0, base, next + |part|, caller, ret)
            && Lands(row.read1, base, next + |part|, caller, ret)
            && AllLand(part, base, next + |part|, caller, ret)
    decreases fuel, 1, 1
  {
    var at := base + i;
    var hi := next + |part|;
    var g0 := instr.read0.goto;
    var g1 := instr.read1.goto;
    if g0.Jump? && g0 == g1 {
      InlineLands(g0.name, next, at, labels, fuel);
      AllLandWiden(part, next, hi, at, true, base, hi, caller, ret);
    } else if g0.Jump? && g1.Jump? {
      TwoCopiesLand(g0.name, g1.name, part, at, base, caller, next, labels, fuel, ret);
    } else if g0.Jump? {
      InlineLands(g0.name, next, at, labels, fuel);
      AllLandWiden(part, next, hi, at, true, base, hi, caller, ret);
      OutcomeLands(instr.read1, row.read1, i, n, base, hi, caller, ret);
    } else if g1.Jump? {
      InlineLands(g1.name, next, at, labels, fuel);
      AllLandWiden(part, next, hi, at, true, base, hi, caller, ret);
      OutcomeLands(instr.read0, row.read0, i, n, base, hi, caller, ret);
    } else {
      OutcomeLands(instr.read0, row.read0, i, n, base, hi, caller, ret);
      OutcomeLands(instr.read1, row.read1, i, n, base, hi, caller, ret);
    }
  }

  /** Copies of two different blocks, placed one after the other, land in
      `part` or return to the row after `at`. */
  lemma TwoCopiesLand(name0: string, name1: string, part: seq<Instruction>, at: nat, base: nat,
                      caller: nat, next: nat, labels: Labels, fuel: nat, ret: bool)
    requires WellFormed(labels) && base <= at < next
    requires var first := Inline(name0, next, at, labels, fuel);
      && first.Ok? && |first.value| <= |part| && part[..|first.value|] == first.value
      && Inline(name1, next + |first.value|, at, labels, fuel) == Ok(part[|first.value|..])
    ensures var first := Inline(name0, next, at, labels, fuel).value;
      && |first| >= 1 && |part| > |first|
      && AllLand(part, base, next + |part|, caller, ret)
    decreases fuel, 1, 0
  {
    var hi := next + |part|;
    var first := Inline(name0, next, at, labels, fuel).value;
    var second := part[|first|..];
    InlineLands(name0, next, at, labels, fuel);
    InlineLands(name1, next + |first|, at, labels, fuel);
    assert part == first + second;
    AllLandWiden(first, next, next + |first|, at, true, base, hi, caller, ret);
    AllLandWiden(second, next + |first|, hi, at, true, base, hi, caller, ret);
    AllLandJoin(first, second, base, hi, caller, ret);
  }

  /** An inlined copy is non-empty, and its rows land in the copy or return
      to the row after `at`. */
  lemma InlineLands(name: string, next: nat, at: nat, labels: Labels, fuel: nat)
    requires WellFormed(labels) && Inline(name, next, at, labels, fuel).Ok?
    ensures var r := Inline(name, next, at, labels, fuel).value;
      |r| >= 1 && AllLand(r, next, next + |r|, at, true)
    decreases fuel, 0, 0
  {
    LinkFromLands(labels[name], [], [], next, at, labels, fuel - 1, true);
  }

  /** Adding a landing row to `own` and its copies to `tail` keeps both landing. */
  lemma ExtendLands(own: seq<Instruction>, tail: seq<Instruction>, s: Stepped,
                    base: nat, next: nat, caller: nat, ret: bool)
    requires AllLand(own, base, next, caller, ret) && AllLand(tail, base, next, caller, ret)
    requires Lands(s.row.read0, base, next + |s.rows|, caller, ret)
    requires Lands(s.row.read1, base, next + |s.rows|, caller, ret)
    requires AllLand(s.rows, base, next + |s.rows|, caller, ret)
    ensures AllLand(own + [s.row], base, next + |s.rows|, caller, ret)
    ensures AllLand(tail + s.rows, base, next + |s.rows|, caller, ret)
  {
    var hi := next + |s.rows|;
    AllLandWiden(own, base, next, caller, ret, base, hi, caller, ret);
    AllLandWiden(tail, base, next, caller, ret, base, hi, caller, ret);
    AllLandJoin(own, [s.row], base, hi, caller, ret);
    AllLandJoin(tail, s.rows, base, hi, caller, ret);
  }

  /** The loop of lines 82-103 keeps every row of its list landing in the list. */
  lemma LinkFromLands(block: seq<Instruction>, own: seq<Instruction>, tail: seq<Instruction>,
                      base: nat, caller: nat, labels: Labels, fuel: nat, ret: bool)
    requires |own| <= |block| && WellFormed(labels) && RowsWithin(block, |block|, ret)
    requires AllLand(own, base, base + |block| + |tail|, caller, ret)
    requires AllLand(tail, base, base + |block| + |tail|, caller, ret)
    requires LinkFrom(block, own, tail, base, caller, labels, fuel).Ok?
    ensures var r := LinkFrom(block, own, tail, base, caller, labels, fuel).value;
      AllLand(r, base, base + |r|, caller, ret)
    decreases fuel, 2, |block| - |own|
  {
    if |own| < |block| {
      var i := |own|;
      var next := base + |block| + |tail|;
      var s := Step(block[i], base + i, caller, next, labels, fuel).value;
      StepLands(block[i], i, |block|, base, caller, next, labels, fuel, ret);
      ExtendLands(own, tail, s, base, next, caller, ret);
      LinkFromStep(block, own, tail, base, caller, labels, fuel, s);
      LinkFromLands(block, own + [s.row], tail + s.rows, base, caller, labels, fuel, ret);
    } else {
      AllLandJoin(own, tail, base, base + |block| + |tail|, caller, ret);
    }
  }

  /** With well-formed blocks and a `main` that never returns, every
      non-halting outcome of the linked table goes to a row of the table:
      rows are numbered from `EntryBase`, one per row. */
  lemma ProgramLands(program: ParsedProgram, fuel: nat)
    requires WellFormed(program.labels)
    requires Entry in program.labels && RowsWithin(program.labels[Entry], |program.labels[Entry]|, false)
    requires LinkProgram(program, fuel).Ok?
    ensures var rows := LinkProgram(program, fuel).value.rows;
      forall j, read: bool :: 0 <= j < |rows| && Outcome(rows[j], read).move != Halt ==>
        Outcome(rows[j], read).goto.Abs? && EntryBase <= Outcome(rows[j], read).goto.row < EntryBase + |rows|
  {
    var main := program.labels[Entry];
    LinkFromLands(main, [], [], EntryBase, EntryCaller, program.labels, fuel, false);
  }

  /** Without the well-formedness the property fails: `main` jumping to an
      empty block gets a row whose goto is the row after the table's end. */
  lemma EmptyBlockLeaves()
    ensures var labels := map[Entry := [JumpTo(""), Stop()], "" := []];
      && !WellFormed(labels)
      && LinkProgram(ParsedProgram("", labels), 1)
         == Ok(FinalProgram("", [Instruction(Partial(false, Stay, Abs(4)), Partial(true, Stay, Abs(4))),
                                 Instruction(Partial(false, Halt, Abs(4)), Partial(false, Halt, Abs(4)))]))
      && EntryBase + 2 == 4
  {
    var labels := map[Entry := [JumpTo(""), Stop()], "" := []];
    var main := labels[Entry];
    var row0 := Instruction(Partial(false, Stay, Abs(4)), Partial(true, Stay, Abs(4)));
    var row1 := Instruction(Partial(false, Halt, Abs(4)), Partial(false, Halt, Abs(4)));
    assert Inline("", 4, 2, labels, 1) == Ok([]);
    assert Step(main[0], 2, 0, 4, labels, 1) == Ok(Stepped(row0, []));
    LinkFromStep(main, [], [], 2, 0, labels, 1, Stepped(row0, []));
    var none: seq<Instruction> := [];
    assert none + [row0] == [row0] && none + none == none;
    assert Step(main[1], 3, 0, 4, labels, 1) == Ok(Stepped(row1, []));
    LinkFromStep(main, [row0], [], 2, 0, labels, 1, Stepped(row1, []));
    assert [row0] + [row1] == [row0, row1] && [row0, row1] + [] == [row0, row1];
    assert LinkFrom(main, [row0, row1], [], 2, 0, labels, 1) == Ok([row0, row1]);
  }
}
