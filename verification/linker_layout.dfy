/** Where the linker puts every row, stated as a rule about the finished
    table rather than as the loop that builds it
    (turing_asm_transpiler.py:80-104):

    - rows `0 .. |block| - 1` are the block's own rows, in order, with the
      same writes and moves and with every goto rewritten (`Corresponds`);
    - after them come the callee copies, row by row of the block, each
      starting where the previous one ended (`IsLayout`'s `ends`), linked to
      start at its own first row and to return after the calling row
      (`Placement`).

    `LayoutIff` proves that `LinkBlock` succeeds with exactly the tables that
    obey this rule. */
module LinkLayout {
  import opened Results
  import opened Instructions
  import opened Linker

  /** Lines 83-90 for one goto of the row at absolute row `at`: `+k` becomes
      `at + k`, `return` becomes the row after `caller`, an absolute row is
      kept, a jump becomes some absolute row (fixed by `Placement`). */
  predicate Resolves(g: Goto, g': Goto, at: nat, caller: nat) {
    match g
    case Rel(k) => g' == Abs(at + k)
    case Ret => g' == Abs(caller + 1)
    case Abs(_) => g' == g
    case Jump(_) => g'.Abs?
  }

  /** `row` is `instr` with each outcome's goto rewritten independently. */
  predicate Corresponds(instr: Instruction, row: Instruction, at: nat, caller: nat) {
    && row.read0.write == instr.read0.write && row.read0.move == instr.read0.move
    && row.read1.write == instr.read1.write && row.read1.move == instr.read1.move
    && Resolves(instr.read0.goto, row.read0.goto, at, caller)
    && Resolves(instr.read1.goto, row.read1.goto, at, caller)
  }

  /** Lines 91-103 as a rule: the jumps of `instr` (at absolute row `at`) are
      served by the rows `part`, placed at absolute row `next`. Both outcomes
      naming one block share a single copy; two different blocks get one copy
      each, read0's first; every copy returns to the row after `at`. */
  predicate Placement(instr: Instruction, row: Instruction, at: nat, next: nat,
                      labels: Labels, fuel: nat, part: seq<Instruction>)
  {
    var g0 := instr.read0.goto;
    var g1 := instr.read1.goto;
    if g0.Jump? && g0 == g1 then
      && row.read0.goto == Abs(next) && row.read1.goto == Abs(next)
      && Inline(g0.name, next, at, labels, fuel) == Ok(part)
    else if g0.Jump? && g1.Jump? then
      var first := Inline(g0.name, next, at, labels, fuel);
      && first.Ok? && |first.value| <= |part| && part[..|first.value|] == first.value
      && row.read0.goto == Abs(next) && row.read1.goto == Abs(next + |first.value|)
      && Inline(g1.name, next + |first.value|, at, labels, fuel) == Ok(part[|first.value|..])
    else if g0.Jump? then
      row.read0.goto == Abs(next) && Inline(g0.name, next, at, labels, fuel) == Ok(part)
    else if g1.Jump? then
      row.read1.goto == Abs(next) && Inline(g1.name, next, at, labels, fuel) == Ok(part)
    else
      part == []
  }

  /** A rewritten outcome of a row without a jump is what `Localize` makes of it. */
  lemma CorrespondsLocal(p: Partial, q: Partial, at: nat, caller: nat)
    requires q.write == p.write && q.move == p.move && Resolves(p.goto, q.goto, at, caller)
    requires !p.goto.Jump?
    ensures q == Localize(p, at, caller)
  {
  }

  /** What `Step` computes satisfies the placement rule. */
  lemma StepPlaces(instr: Instruction, at: nat, caller: nat, next: nat, labels: Labels, fuel: nat)
    requires Step(instr, at, caller, next, labels, fuel).Ok?
    ensures var s := Step(instr, at, caller, next, labels, fuel).value;
      Corresponds(instr, s.row, at, caller) && Placement(instr, s.row, at, next, labels, fuel, s.rows)
  {
    var s := Step(instr, at, caller, next, labels, fuel).value;
    var g0 := instr.read0.goto;
    var g1 := instr.read1.goto;
    if g0.Jump? && g0 == g1 {
      var c := Inline(g0.name, next, at, labels, fuel);
      assert c.Ok? && s.rows == [] + [] + c.value;
      assert s.rows == c.value;
      assert c == Ok(c.value);
      assert c == Ok(s.rows);
      assert s.row.read0.goto == Abs(next) && s.row.read1.goto == Abs(next);
    } else if g0.Jump? && g1.Jump? {
      var a := Inline(g0.name, next, at, labels, fuel).value;
      var b := Inline(g1.name, next + |a|, at, labels, fuel).value;
      assert s.rows == a + b;
      assert (a + b)[..|a|] == a;
      assert (a + b)[|a|..] == b;
    } else if g0.Jump? {
      var c := Inline(g0.name, next, at, labels, fuel);
      assert c.Ok? && s.rows == c.value + [];
      assert s.rows == c.value;
      assert c == Ok(c.value);
      assert c == Ok(s.rows);
      assert s.row.read0.goto == Abs(next);
    } else if g1.Jump? {
      var c := Inline(g1.name, next, at, labels, fuel);
      assert c.Ok? && s.rows == [] + c.value;
      assert s.rows == c.value;
      assert c == Ok(c.value);
      assert c == Ok(s.rows);
      assert s.row.read1.goto == Abs(next);
    } else {
      assert s.rows == [] + [];
    }
  }

  /** A row and callee rows satisfying the placement rule are what `Step` computes. */
  lemma PlacementSteps(instr: Instruction, row: Instruction, part: seq<Instruction>,
                       at: nat, caller: nat, next: nat, labels: Labels, fuel: nat)
    requires Corresponds(instr, row, at, caller) && Placement(instr, row, at, next, labels, fuel, part)
    ensures Step(instr, at, caller, next, labels, fuel) == Ok(Stepped(row, part))
  {
    var g0 := instr.read0.goto;
    var g1 := instr.read1.goto;
    var p0 := Localize(instr.read0, at, caller);
    var p1 := Localize(instr.read1, at, caller);
    var r := Step(instr, at, caller, next, labels, fuel);
    if g0.Jump? && g0 == g1 {
      assert row.read0 == p0.(goto := Abs(next)) && row.read1 == p1.(goto := Abs(next));
      assert [] + [] + part == part;
      assert r.Ok? && r.value.rows == part;
      assert r.value.row.read0 == row.read0 && r.value.row.read1 == row.read1;
    } else if g0.Jump? && g1.Jump? {
      var a := Inline(g0.name, next, at, labels, fuel).value;
      assert part == a + part[|a|..];
      assert row.read0 == p0.(goto := Abs(next)) && row.read1 == p1.(goto := Abs(next + |a|));
      assert r.Ok? && r.value.rows == part;
      assert r.value.row.read0 == row.read0 && r.value.row.read1 == row.read1;
    } else if g0.Jump? {
      CorrespondsLocal(instr.read1, row.read1, at, caller);
      assert row.read0 == p0.(goto := Abs(next));
      assert part + [] == part;
      assert r.Ok? && r.value.rows == part;
      assert r.value.row.read0 == row.read0 && r.value.row.read1 == row.read1;
    } else if g1.Jump? {
      CorrespondsLocal(instr.read0, row.read0, at, caller);
      assert row.read1 == p1.(goto := Abs(next));
      assert [] + part == part;
      assert r.Ok? && r.value.rows == part;
      assert r.value.row.read0 == row.read0 && r.value.row.read1 == row.read1;
    } else {
      CorrespondsLocal(instr.read0, row.read0, at, caller);
      CorrespondsLocal(instr.read1, row.read1, at, caller);
      assert r.Ok? && r.value.rows == [] && r.value.row == row;
    }
  }

  /** The loop body of lines 83-103, written in the source's order, produces
      a row and callee rows exactly when they obey the placement rule. */
  lemma StepIffPlacement(instr: Instruction, row: Instruction, part: seq<Instruction>,
                         at: nat, caller: nat, next: nat, labels: Labels, fuel: nat)
    ensures Step(instr, at, caller, next, labels, fuel) == Ok(Stepped(row, part))
        <==> Corresponds(instr, row, at, caller) && Placement(instr, row, at, next, labels, fuel, part)
  {
    if Step(instr, at, caller, next, labels, fuel) == Ok(Stepped(row, part)) {
      StepPlaces(instr, at, caller, next, labels, fuel);
    }
    if Corresponds(instr, row, at, caller) && Placement(instr, row, at, next, labels, fuel, part) {
      PlacementSteps(instr, row, part, at, caller, next, labels, fuel);
    }
  }

  /** Row `i` of `block` is laid out as `own[i]`, and its callee copies are
      `tail[ends[i] - |block|..ends[i + 1] - |block|]` (`tail` starts at row
      `|block|`). */
  predicate RowLaid(block: seq<Instruction>, own: seq<Instruction>, tail: seq<Instruction>,
                    base: nat, caller: nat, labels: Labels, fuel: nat, ends: seq<nat>, i: nat)
    requires i < |own| <= |block| && |ends| == |own| + 1
  {
    && Corresponds(block[i], own[i], base + i, caller)
    && |block| <= ends[i] <= ends[i + 1] <= |block| + |tail|
    && Placement(block[i], own[i], base + i, base + ends[i], labels, fuel,
                 tail[ends[i] - |block|..ends[i + 1] - |block|])
  }

  /** The first `|own|` rows of `block` are laid out in `own`, their callee
      copies in `tail`, with copy boundaries `ends`. */
  predicate LaidOut(block: seq<Instruction>, own: seq<Instruction>, tail: seq<Instruction>,
                    base: nat, caller: nat, labels: Labels, fuel: nat, ends: seq<nat>)
  {
    && |own| <= |block|
    && |ends| == |own| + 1
    && ends[0] == |block|
    && ends[|own|] == |block| + |tail|
    && forall i :: 0 <= i < |own| ==> RowLaid(block, own, tail, base, caller, labels, fuel, ends, i)
  }

  /** Row `i` of the table `rows` is row `i` of `block` rewritten, and its
      callee copies occupy `rows[ends[i]..ends[i + 1]]`. */
  predicate RowPlaced(block: seq<Instruction>, rows: seq<Instruction>,
                      base: nat, caller: nat, labels: Labels, fuel: nat, ends: seq<nat>, i: nat)
    requires i < |block| <= |rows| && |ends| == |block| + 1
  {
    && Corresponds(block[i], rows[i], base + i, caller)
    && ends[i] <= ends[i + 1] <= |rows|
    && Placement(block[i], rows[i], base + i, base + ends[i], labels, fuel, rows[ends[i]..ends[i + 1]])
  }

  /** The rule for a whole linked table `rows` of `block`: every row placed,
      the callee copies following the block's own rows back to back from row
      `|block|`, and nothing else in the table. */
  predicate IsLayout(block: seq<Instruction>, rows: seq<Instruction>,
                     base: nat, caller: nat, labels: Labels, fuel: nat, ends: seq<nat>)
  {
    && |block| <= |rows|
    && |ends| == |block| + 1
    && ends[0] == |block|
    && ends[|block|] == |rows|
    && forall i :: 0 <= i < |block| ==> RowPlaced(block, rows, base, caller, labels, fuel, ends, i)
  }

  /** Laying out one more row keeps the rows laid out before it. */
  lemma RowLaidKept(block: seq<Instruction>, own: seq<Instruction>, tail: seq<Instruction>,
                    row: Instruction, added: seq<Instruction>,
                    base: nat, caller: nat, labels: Labels, fuel: nat, ends: seq<nat>, j: nat)
    requires |own| < |block| && |ends| == |own| + 1 && j < |own|
    requires RowLaid(block, own, tail, base, caller, labels, fuel, ends, j)
    ensures RowLaid(block, own + [row], tail + added, base, caller, labels, fuel,
                    ends + [|block| + |tail| + |added|], j)
  {
    var tail' := tail + added;
    assert tail'[ends[j] - |block|..ends[j + 1] - |block|] == tail[ends[j] - |block|..ends[j + 1] - |block|];
  }

  /** The placed table after all rows are laid out. */
  lemma RowPlacedAtEnd(block: seq<Instruction>, own: seq<Instruction>, tail: seq<Instruction>,
                       base: nat, caller: nat, labels: Labels, fuel: nat, ends: seq<nat>, j: nat)
    requires |own| == |block| && |ends| == |own| + 1 && j < |own|
    requires RowLaid(block, own, tail, base, caller, labels, fuel, ends, j)
    ensures RowPlaced(block, own + tail, base, caller, labels, fuel, ends, j)
  {
    var rows := own + tail;
    assert rows[j] == own[j];
    assert rows[ends[j]..ends[j + 1]] == tail[ends[j] - |block|..ends[j + 1] - |block|];
  }

  /** One more row laid out extends the layout of the rows before it. */
  lemma LaidOutStep(block: seq<Instruction>, own: seq<Instruction>, tail: seq<Instruction>,
                    base: nat, caller: nat, labels: Labels, fuel: nat, ends: seq<nat>, s: Stepped)
    requires LaidOut(block, own, tail, base, caller, labels, fuel, ends)
    requires |own| < |block|
    requires RowLaid(block, own + [s.row], tail + s.rows, base, caller, labels, fuel,
                     ends + [|block| + |tail| + |s.rows|], |own|)
    ensures LaidOut(block, own + [s.row], tail + s.rows, base, caller, labels, fuel,
                    ends + [|block| + |tail| + |s.rows|])
  {
    var i := |own|;
    var own' := own + [s.row];
    var tail' := tail + s.rows;
    var e := ends + [|block| + |tail'|];
    forall j | 0 <= j < |own'|
      ensures RowLaid(block, own', tail', base, caller, labels, fuel, e, j)
    {
      if j < i {
        RowLaidKept(block, own, tail, s.row, s.rows, base, caller, labels, fuel, ends, j);
      }
    }
  }

  /** The row `Step` lays out is placed where the copies so far end. */
  lemma RowLaidNew(block: seq<Instruction>, own: seq<Instruction>, tail: seq<Instruction>,
                   base: nat, caller: nat, labels: Labels, fuel: nat, ends: seq<nat>, s: Stepped)
    requires |own| < |block| && |ends| == |own| + 1 && ends[|own|] == |block| + |tail|
    requires Step(block[|own|], base + |own|, caller, base + |block| + |tail|, labels, fuel) == Ok(s)
    ensures RowLaid(block, own + [s.row], tail + s.rows, base, caller, labels, fuel,
                    ends + [|block| + |tail| + |s.rows|], |own|)
  {
    var i := |own|;
    StepPlaces(block[i], base + i, caller, base + |block| + |tail|, labels, fuel);
    var e := ends + [|block| + |tail| + |s.rows|];
    assert (tail + s.rows)[e[i] - |block|..e[i + 1] - |block|] == s.rows;
    assert (own + [s.row])[i] == s.row;
  }

  lemma {:induction false} LayoutFrom(block: seq<Instruction>, own: seq<Instruction>, tail: seq<Instruction>,
                                      base: nat, caller: nat, labels: Labels, fuel: nat, ends: seq<nat>)
    returns (ends': seq<nat>)
    requires LaidOut(block, own, tail, base, caller, labels, fuel, ends)
    requires LinkFrom(block, own, tail, base, caller, labels, fuel).Ok?
    ensures IsLayout(block, LinkFrom(block, own, tail, base, caller, labels, fuel).value,
                     base, caller, labels, fuel, ends')
    decreases |block| - |own|
  {
    var i := |own|;
    if i == |block| {
      assert LinkFrom(block, own, tail, base, caller, labels, fuel).value == own + tail;
      forall j | 0 <= j < |block|
        ensures RowPlaced(block, own + tail, base, caller, labels, fuel, ends, j)
      {
        RowPlacedAtEnd(block, own, tail, base, caller, labels, fuel, ends, j);
      }
      ends' := ends;
    } else {
      var s := Step(block[i], base + i, caller, base + |block| + |tail|, labels, fuel).value;
      assert LinkFrom(block, own, tail, base, caller, labels, fuel)
          == LinkFrom(block, own + [s.row], tail + s.rows, base, caller, labels, fuel);
      RowLaidNew(block, own, tail, base, caller, labels, fuel, ends, s);
      LaidOutStep(block, own, tail, base, caller, labels, fuel, ends, s);
      ends' := LayoutFrom(block, own + [s.row], tail + s.rows, base, caller, labels, fuel,
                          ends + [|block| + |tail| + |s.rows|]);
    }
  }

  /** One turn of the loop: a successful `Step` on the next row. */
  lemma LinkFromStep(block: seq<Instruction>, own: seq<Instruction>, tail: seq<Instruction>,
                     base: nat, caller: nat, labels: Labels, fuel: nat, s: Stepped)
    requires |own| < |block|
    requires Step(block[|own|], base + |own|, caller, base + |block| + |tail|, labels, fuel) == Ok(s)
    ensures LinkFrom(block, own, tail, base, caller, labels, fuel)
         == LinkFrom(block, own + [s.row], tail + s.rows, base, caller, labels, fuel)
  {
  }

  /** A placed row of a table is what `Step` computes for it. */
  lemma RowPlacedSteps(block: seq<Instruction>, rows: seq<Instruction>,
                       base: nat, caller: nat, labels: Labels, fuel: nat, ends: seq<nat>, i: nat)
    requires i < |block| <= |rows| && |ends| == |block| + 1
    requires RowPlaced(block, rows, base, caller, labels, fuel, ends, i)
    ensures Step(block[i], base + i, caller, base + ends[i], labels, fuel)
         == Ok(Stepped(rows[i], rows[ends[i]..ends[i + 1]]))
  {
    PlacementSteps(block[i], rows[i], rows[ends[i]..ends[i + 1]], base + i, caller, base + ends[i], labels, fuel);
  }

  lemma {:induction false} LinkFromLayout(block: seq<Instruction>, rows: seq<Instruction>,
                                          own: seq<Instruction>, tail: seq<Instruction>,
                                          base: nat, caller: nat, labels: Labels, fuel: nat, ends: seq<nat>)
    requires IsLayout(block, rows, base, caller, labels, fuel, ends)
    requires |own| <= |block| && own == rows[..|own|]
    requires |block| <= ends[|own|] <= |rows| && tail == rows[|block|..ends[|own|]]
    ensures LinkFrom(block, own, tail, base, caller, labels, fuel) == Ok(rows)
    decreases |block| - |own|
  {
    var i := |own|;
    if i == |block| {
      assert own + tail == rows;
    } else {
      assert RowPlaced(block, rows, base, caller, labels, fuel, ends, i);
      LayoutStep(block, rows, own, tail, base, caller, labels, fuel, ends);
      LinkFromLayout(block, rows, rows[..i + 1], rows[|block|..ends[i + 1]], base, caller, labels, fuel, ends);
    }
  }

  /** One turn of the loop over a table that obeys the layout rule: the
      next row and its callee copies are read off the table. */
  lemma LayoutStep(block: seq<Instruction>, rows: seq<Instruction>,
                   own: seq<Instruction>, tail: seq<Instruction>,
                   base: nat, caller: nat, labels: Labels, fuel: nat, ends: seq<nat>)
    requires |own| < |block| <= |rows| && |ends| == |block| + 1
    requires RowPlaced(block, rows, base, caller, labels, fuel, ends, |own|)
    requires own == rows[..|own|]
    requires |block| <= ends[|own|] <= |rows| && tail == rows[|block|..ends[|own|]]
    ensures |block| <= ends[|own| + 1] <= |rows|
    ensures LinkFrom(block, own, tail, base, caller, labels, fuel)
         == LinkFrom(block, rows[..|own| + 1], rows[|block|..ends[|own| + 1]], base, caller, labels, fuel)
  {
    var i := |own|;
    var part := rows[ends[i]..ends[i + 1]];
    RowPlacedSteps(block, rows, base, caller, labels, fuel, ends, i);
    LinkFromStep(block, own, tail, base, caller, labels, fuel, Stepped(rows[i], part));
    SlicesStep(rows, own, tail, |block|, ends[i], ends[i + 1]);
  }

  /** The rows read so far and the copies read so far, each extended by
      one more piece of the table. */
  lemma SlicesStep(rows: seq<Instruction>, own: seq<Instruction>, tail: seq<Instruction>,
                   start: nat, from: nat, to: nat)
    requires |own| < start <= from <= to <= |rows|
    requires own == rows[..|own|] && tail == rows[start..from]
    ensures own + [rows[|own|]] == rows[..|own| + 1]
    ensures tail + rows[from..to] == rows[start..to]
  {
  }

  /** `LinkBlock` produces `rows` exactly when `rows` obeys the layout rule:
      the block's own rows first, each rewritten in place, then the callee
      copies, back to back, in the order the block's rows call them. */
  lemma LayoutIff(block: seq<Instruction>, rows: seq<Instruction>,
                  base: nat, caller: nat, labels: Labels, fuel: nat)
    ensures LinkBlock(block, base, caller, labels, fuel) == Ok(rows)
        <==> exists ends :: IsLayout(block, rows, base, caller, labels, fuel, ends)
  {
    if LinkBlock(block, base, caller, labels, fuel) == Ok(rows) {
      var ends := LayoutFrom(block, [], [], base, caller, labels, fuel, [|block|]);
    }
    if ends :| IsLayout(block, rows, base, caller, labels, fuel, ends) {
      LinkFromLayout(block, rows, [], [], base, caller, labels, fuel, ends);
    }
  }

  /** `link_labels` lays `main` out by that rule from row `EntryBase`. */
  lemma ProgramLayout(program: ParsedProgram, fuel: nat)
    requires LinkProgram(program, fuel).Ok?
    ensures Entry in program.labels
    ensures exists ends :: IsLayout(program.labels[Entry], LinkProgram(program, fuel).value.rows,
                                    EntryBase, EntryCaller, program.labels, fuel, ends)
  {
    LayoutIff(program.labels[Entry], LinkProgram(program, fuel).value.rows,
              EntryBase, EntryCaller, program.labels, fuel);
  }
}
