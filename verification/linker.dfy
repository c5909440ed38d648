/** The label linker (`Label.link_lables` and `link_labels`): flattens the
    blocks reachable from `main` into one table, inlining a fresh copy of a
    block at every jump to it and rewriting every goto to an absolute row.

    The source keeps one list `instrs`: a copy of the block whose rows are
    rewritten in place, with callee rows appended at its end. Here that list
    is `own + block[|own|..] + tail`: `own` are the rows already rewritten and
    `tail` the callee rows appended so far. The source has no cycle guard;
    here every inlining consumes one unit of `fuel`. */
module Linker {
  import opened Results
  import opened Instructions

  datatype LinkError =
    | UnknownLabel(name: string)   // the source's KeyError on `all_labels[...]`
    | DepthExceeded(name: string)  // inlining `name` needed more fuel

  /** Row number given to the first row of `main`: the tape occupies output
      line 1, so row `n` is printed on output line `n`. */
  const EntryBase: nat := 2

  /** `called_from_line` passed for `main`; only a `return` in `main` reads it. */
  const EntryCaller: nat := 0

  /** An outcome after inlining: its partial and the callee rows it added. */
  datatype Placed = Placed(outcome: Partial, rows: seq<Instruction>)

  /** One row after linking: the rewritten row and the callee rows it added. */
  datatype Stepped = Stepped(row: Instruction, rows: seq<Instruction>)

  /** Lines 83-90: `+k` at row `at` becomes row `at + k`; `return` becomes
      the row after the caller. Jumps and absolute rows are left alone. */
  function Localize(p: Partial, at: nat, caller: nat): (q: Partial)
    ensures q.write == p.write && q.move == p.move
    ensures p.goto.Rel? ==> q.goto == Abs(at + p.goto.offset)
    ensures p.goto.Ret? ==> q.goto == Abs(caller + 1)
    ensures q.goto.Jump? <==> p.goto.Jump?
    ensures q.goto.Jump? ==> q.goto == p.goto
    ensures p.goto.Abs? ==> q == p
  {
    match p.goto
    case Rel(k) => p.(goto := Abs(at + k))
    case Ret => p.(goto := Abs(caller + 1))
    case _ => p
  }

  /** The body of the loop of lines 82-103 for the row `instr` at absolute
      row `at`, when the table under construction ends just before row `next`.
      Written in the source's order: read0's jump (line 91), read1's jump
      (line 95), then the shared jump of both outcomes (line 99). */
  function Step(instr: Instruction, at: nat, caller: nat, next: nat, labels: Labels, fuel: nat)
    : (r: Result<Stepped, LinkError>)
    ensures Resolved(instr) ==> r == Ok(Stepped(instr, []))
    ensures r.Ok? ==> Resolved(r.value.row) && AllResolved(r.value.rows)
    ensures r.Err? && r.error.UnknownLabel? ==> r.error.name !in labels
    ensures r.Err? && r.error.DepthExceeded? ==> r.error.name in labels
    decreases fuel, 1, 0
  {
    var p0 := Localize(instr.read0, at, caller);
    var p1 := Localize(instr.read1, at, caller);
    var a :-
      if p0.goto.Jump? && p0.goto != p1.goto then
        var part :- Inline(p0.goto.name, next, at, labels, fuel);
        Ok(Placed(p0.(goto := Abs(next)), part))
      else Ok(Placed(p0, []));
    var b :-
      if p1.goto.Jump? && a.outcome.goto != p1.goto then
        var part :- Inline(p1.goto.name, next + |a.rows|, at, labels, fuel);
        Ok(Placed(p1.(goto := Abs(next + |a.rows|)), part))
      else Ok(Placed(p1, []));
    if a.outcome.goto.Jump? && b.outcome.goto.Jump? && a.outcome.goto == b.outcome.goto then
      var shared := next + |a.rows| + |b.rows|;
      var part :- Inline(a.outcome.goto.name, shared, at, labels, fuel);
      Ok(Stepped(Instruction(a.outcome.(goto := Abs(shared)), b.outcome.(goto := Abs(shared))),
                 a.rows + b.rows + part))
    else
      assert Resolved(instr) ==> a == Placed(instr.read0, []) && b == Placed(instr.read1, []);
      assert Resolved(instr) ==> Instruction(a.outcome, b.outcome) == instr;
      assert Resolved(instr) ==> a.rows + b.rows == [];
      Ok(Stepped(Instruction(a.outcome, b.outcome), a.rows + b.rows))
  }

  /** The recursive call `all_labels[name].link_lables(next, at, all_labels)`:
      a fresh copy of block `name` linked to start at row `next`, returning
      to the row after `at`. */
  function Inline(name: string, next: nat, at: nat, labels: Labels, fuel: nat)
    : (r: Result<seq<Instruction>, LinkError>)
    ensures r.Ok? ==> name in labels && |r.value| >= |labels[name]|
    ensures r.Ok? ==> AllResolved(r.value)
    ensures r.Err? && r.error.UnknownLabel? ==> r.error.name !in labels
    ensures r.Err? && r.error.DepthExceeded? ==> r.error.name in labels
    decreases fuel, 0, 0
  {
    if name !in labels then Err(UnknownLabel(name))
    else if fuel == 0 then Err(DepthExceeded(name))
    else LinkFrom(labels[name], [], [], next, at, labels, fuel - 1)
  }

  /** The loop of lines 82-103 from row `|own|` of `block` on. */
  function LinkFrom(block: seq<Instruction>, own: seq<Instruction>, tail: seq<Instruction>,
                    base: nat, caller: nat, labels: Labels, fuel: nat)
    : (r: Result<seq<Instruction>, LinkError>)
    requires |own| <= |block|
    ensures r.Ok? ==> |r.value| >= |block| + |tail|
    ensures r.Ok? && AllResolved(own) && AllResolved(tail) ==> AllResolved(r.value)
    ensures r.Err? && r.error.UnknownLabel? ==> r.error.name !in labels
    ensures r.Err? && r.error.DepthExceeded? ==> r.error.name in labels
    decreases fuel, 2, |block| - |own|
  {
    if |own| == |block| then Ok(own + tail)
    else
      var i := |own|;
      var s :- Step(block[i], base + i, caller, base + |block| + |tail|, labels, fuel);
      LinkFrom(block, own + [s.row], tail + s.rows, base, caller, labels, fuel)
  }

  /** `Label.link_lables(base, caller, labels)` on the rows `block`: every row
      of the result carries an absolute goto, and the block's own rows come
      first. A failed lookup names a label that is not defined. */
  function LinkBlock(block: seq<Instruction>, base: nat, caller: nat, labels: Labels, fuel: nat)
    : (r: Result<seq<Instruction>, LinkError>)
    ensures r.Ok? ==> |r.value| >= |block| && AllResolved(r.value)
    ensures r.Err? && r.error.UnknownLabel? ==> r.error.name !in labels
    ensures r.Err? && r.error.DepthExceeded? ==> r.error.name in labels
  {
    LinkFrom(block, [], [], base, caller, labels, fuel)
  }

  /** `link_labels`: link `main` at row `EntryBase`, keeping the tape. */
  function LinkProgram(program: ParsedProgram, fuel: nat): (r: Result<FinalProgram, LinkError>)
    ensures Entry !in program.labels ==> r == Err(UnknownLabel(Entry))
    ensures r.Ok? ==> r.value.tape == program.tape && AllResolved(r.value.rows)
    ensures r.Ok? ==> |r.value.rows| >= |program.labels[Entry]|
    ensures r.Err? && r.error.UnknownLabel? ==> r.error.name !in program.labels
  {
    if Entry !in program.labels then Err(UnknownLabel(Entry))
    else
      var rows :- LinkBlock(program.labels[Entry], EntryBase, EntryCaller, program.labels, fuel);
      Ok(FinalProgram(program.tape, rows))
  }
}
