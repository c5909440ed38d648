/** How the linker's result depends on the recursion bound, and when it
    fails. The source recurses without a bound (lines 93, 97, 101); the
    model's `fuel` only decides whether the recursion is cut short:

    - a successful result is the same with more fuel (`LinkFromFuel`), so
      fuel is never a parameter of what a successful link produces;
    - when the labels can be ranked so that every jump goes to a lower rank
      (no cyclic references), enough fuel always succeeds (`InlineRanked`,
      `ProgramRanked`);
    - a jump to a label that is not defined makes linking fail, as the
      source's `KeyError` does (`MissingLabel`);
    - a block that jumps to itself fails for every fuel (`SelfReference`),
      where the source recurses until the interpreter gives up. */
module LinkFuel {
  import opened Results
  import opened Instructions
  import opened Linker

  /** More fuel does not change a successful inlining. */
  lemma {:induction false} InlineFuel(name: string, next: nat, at: nat, labels: Labels, fuel: nat, more: nat)
    requires Inline(name, next, at, labels, fuel).Ok? && fuel <= more
    ensures Inline(name, next, at, labels, more) == Inline(name, next, at, labels, fuel)
    decreases fuel, 0, 0
  {
    LinkFromFuel(labels[name], [], [], next, at, labels, fuel - 1, more - 1);
  }

  /** More fuel does not change a successful row. */
  lemma {:induction false} StepFuel(instr: Instruction, at: nat, caller: nat, next: nat,
                                    labels: Labels, fuel: nat, more: nat)
    requires Step(instr, at, caller, next, labels, fuel).Ok? && fuel <= more
    ensures Step(instr, at, caller, next, labels, more) == Step(instr, at, caller, next, labels, fuel)
    decreases fuel, 1, 0
  {
    var g0 := instr.read0.goto;
    var g1 := instr.read1.goto;
    if g0.Jump? && g0 == g1 {
      InlineFuel(g0.name, next, at, labels, fuel, more);
    } else if g0.Jump? && g1.Jump? {
      var a := Inline(g0.name, next, at, labels, fuel);
      InlineFuel(g0.name, next, at, labels, fuel, more);
      InlineFuel(g1.name, next + |a.value|, at, labels, fuel, more);
    } else if g0.Jump? {
      InlineFuel(g0.name, next, at, labels, fuel, more);
    } else if g1.Jump? {
      InlineFuel(g1.name, next, at, labels, fuel, more);
    }
  }

  /** More fuel does not change a successful link. */
  lemma {:induction false} LinkFromFuel(block: seq<Instruction>, own: seq<Instruction>, tail: seq<Instruction>,
                                        base: nat, caller: nat, labels: Labels, fuel: nat, more: nat)
    requires |own| <= |block|
    requires LinkFrom(block, own, tail, base, caller, labels, fuel).Ok? && fuel <= more
    ensures LinkFrom(block, own, tail, base, caller, labels, more) == LinkFrom(block, own, tail, base, caller, labels, fuel)
    decreases fuel, 2, |block| - |own|
  {
    if |own| < |block| {
      var i := |own|;
      var s := Step(block[i], base + i, caller, base + |block| + |tail|, labels, fuel);
      StepFuel(block[i], base + i, caller, base + |block| + |tail|, labels, fuel, more);
      LinkFromFuel(block, own + [s.value.row], tail + s.value.rows, base, caller, labels, fuel, more);
    }
  }

  /** The table of a program that links is the same for every larger bound. */
  lemma ProgramFuel(program: ParsedProgram, fuel: nat, more: nat)
    requires LinkProgram(program, fuel).Ok? && fuel <= more
    ensures LinkProgram(program, more) == LinkProgram(program, fuel)
  {
    LinkFromFuel(program.labels[Entry], [], [], EntryBase, EntryCaller, program.labels, fuel, more);
  }

  /** Every jump of the outcome `p` names a defined label of rank below `bound`. */
  predicate TargetBelow(p: Partial, labels: Labels, rank: map<string, nat>, bound: nat) {
    p.goto.Jump? ==> p.goto.name in labels && p.goto.name in rank && rank[p.goto.name] < bound
  }

  /** Every jump in `rows` names a defined label of rank below `bound`. */
  predicate JumpsBelow(rows: seq<Instruction>, labels: Labels, rank: map<string, nat>, bound: nat) {
    forall j :: 0 <= j < |rows| ==>
      TargetBelow(rows[j].read0, labels, rank, bound) && TargetBelow(rows[j].read1, labels, rank, bound)
  }

  /** `rank` orders the ranked blocks so that each only jumps to defined,
      ranked blocks of lower rank: among them the label graph has no cycle
      and no dangling jump. Blocks outside `rank` (those unreachable from
      the blocks that are ranked) are left unconstrained. */
  predicate Ranked(labels: Labels, rank: map<string, nat>) {
    forall name :: name in rank ==> name in labels && JumpsBelow(labels[name], labels, rank, rank[name])
  }

  /** With labels ranked, inlining a label succeeds once the fuel exceeds its rank. */
  lemma {:induction false} InlineRanked(name: string, next: nat, at: nat, labels: Labels,
                                        rank: map<string, nat>, fuel: nat)
    requires Ranked(labels, rank)
    requires name in labels && name in rank && rank[name] < fuel
    ensures Inline(name, next, at, labels, fuel).Ok?
    decreases fuel, 0, 0
  {
    LinkFromRanked(labels[name], [], [], next, at, labels, rank, fuel - 1);
  }

  /** With labels ranked, a row whose jumps go below the fuel links. */
  lemma {:induction false} StepRanked(instr: Instruction, at: nat, caller: nat, next: nat,
                                      labels: Labels, rank: map<string, nat>, fuel: nat)
    requires Ranked(labels, rank)
    requires TargetBelow(instr.read0, labels, rank, fuel) && TargetBelow(instr.read1, labels, rank, fuel)
    ensures Step(instr, at, caller, next, labels, fuel).Ok?
    decreases fuel, 1, 0
  {
    var g0 := instr.read0.goto;
    var g1 := instr.read1.goto;
    if g0.Jump? && g0 == g1 {
      InlineRanked(g0.name, next, at, labels, rank, fuel);
    } else if g0.Jump? && g1.Jump? {
      InlineRanked(g0.name, next, at, labels, rank, fuel);
      var a := Inline(g0.name, next, at, labels, fuel);
      InlineRanked(g1.name, next + |a.value|, at, labels, rank, fuel);
    } else if g0.Jump? {
      InlineRanked(g0.name, next, at, labels, rank, fuel);
    } else if g1.Jump? {
      InlineRanked(g1.name, next, at, labels, rank, fuel);
    }
  }

  /** With labels ranked, a block whose jumps go below the fuel links. */
  lemma {:induction false} LinkFromRanked(block: seq<Instruction>, own: seq<Instruction>, tail: seq<Instruction>,
                                          base: nat, caller: nat, labels: Labels, rank: map<string, nat>, fuel: nat)
    requires |own| <= |block|
    requires Ranked(labels, rank) && JumpsBelow(block, labels, rank, fuel)
    ensures LinkFrom(block, own, tail, base, caller, labels, fuel).Ok?
    decreases fuel, 2, |block| - |own|
  {
    if |own| < |block| {
      var i := |own|;
      StepRanked(block[i], base + i, caller, base + |block| + |tail|, labels, rank, fuel);
      var s := Step(block[i], base + i, caller, base + |block| + |tail|, labels, fuel).value;
      LinkFromRanked(block, own + [s.row], tail + s.rows, base, caller, labels, rank, fuel);
    }
  }

  /** A program without cyclic or dangling references links once the fuel
      reaches the rank of `main`. */
  lemma ProgramRanked(program: ParsedProgram, rank: map<string, nat>, fuel: nat)
    requires Entry in program.labels && Ranked(program.labels, rank)
    requires Entry in rank && rank[Entry] <= fuel
    ensures LinkProgram(program, fuel).Ok?
  {
    var main := program.labels[Entry];
    assert JumpsBelow(main, program.labels, rank, fuel);
    LinkFromRanked(main, [], [], EntryBase, EntryCaller, program.labels, rank, fuel);
  }

  /** The row `instr` has an outcome that jumps to `name`. */
  predicate JumpsTo(instr: Instruction, name: string) {
    instr.read0.goto == Jump(name) || instr.read1.goto == Jump(name)
  }

  /** A row that jumps to a label whose inlining fails, wherever it is
      placed, fails: every one of lines 93, 97 and 101 propagates the
      failure of the recursive call. */
  lemma StepFailsOnJump(instr: Instruction, name: string, at: nat, caller: nat, next: nat,
                        labels: Labels, fuel: nat)
    requires JumpsTo(instr, name)
    requires forall n: nat, a: nat :: Inline(name, n, a, labels, fuel).Err?
    ensures Step(instr, at, caller, next, labels, fuel).Err?
  {
    var g0 := instr.read0.goto;
    var g1 := instr.read1.goto;
    if g0.Jump? && g0 == g1 {
      assert Inline(g0.name, next, at, labels, fuel).Err?;
    } else if g0 == Jump(name) {
      assert Inline(g0.name, next, at, labels, fuel).Err?;
    } else if g0.Jump? {
      var a := Inline(g0.name, next, at, labels, fuel);
      if a.Ok? {
        assert Inline(name, next + |a.value|, at, labels, fuel).Err?;
      }
    } else {
      assert Inline(name, next, at, labels, fuel).Err?;
    }
  }

  /** A block fails to link when one of the rows still to be visited jumps
      to a label whose inlining fails. */
  lemma {:induction false} LinkFromFailsAt(block: seq<Instruction>, own: seq<Instruction>, tail: seq<Instruction>,
                                           base: nat, caller: nat, labels: Labels, fuel: nat,
                                           j: nat, name: string)
    requires |own| <= j < |block| && JumpsTo(block[j], name)
    requires forall n: nat, a: nat :: Inline(name, n, a, labels, fuel).Err?
    ensures LinkFrom(block, own, tail, base, caller, labels, fuel).Err?
    decreases |block| - |own|
  {
    var i := |own|;
    var s := Step(block[i], base + i, caller, base + |block| + |tail|, labels, fuel);
    if i == j {
      StepFailsOnJump(block[i], name, base + i, caller, base + |block| + |tail|, labels, fuel);
    } else if s.Ok? {
      LinkFromFailsAt(block, own + [s.value.row], tail + s.value.rows, base, caller, labels, fuel, j, name);
    }
  }

  /** Lines 93, 97, 101: a jump to a label that is not defined is a failed
      lookup, and the whole link fails, whatever the fuel. */
  lemma MissingLabel(block: seq<Instruction>, base: nat, caller: nat, labels: Labels, fuel: nat,
                     j: nat, name: string)
    requires j < |block| && JumpsTo(block[j], name) && name !in labels
    ensures LinkBlock(block, base, caller, labels, fuel).Err?
  {
    LinkFromFailsAt(block, [], [], base, caller, labels, fuel, j, name);
  }

  /** A block that jumps to itself is never linked: every inlining of it
      contains another, until the fuel runs out. */
  lemma {:induction false} SelfReference(name: string, next: nat, at: nat, labels: Labels, fuel: nat, j: nat)
    requires name in labels && j < |labels[name]| && JumpsTo(labels[name][j], name)
    ensures Inline(name, next, at, labels, fuel).Err?
    decreases fuel
  {
    if fuel > 0 {
      var less := fuel - 1;
      forall n: nat, a: nat
        ensures Inline(name, n, a, labels, less).Err?
      {
        SelfReference(name, n, a, labels, less, j);
      }
      LinkFromFailsAt(labels[name], [], [], next, at, labels, less, j, name);
    }
  }

  /** `main` jumping to itself makes the whole program fail to link. */
  lemma ProgramSelfReference(program: ParsedProgram, fuel: nat, j: nat)
    requires Entry in program.labels && j < |program.labels[Entry]|
    requires JumpsTo(program.labels[Entry][j], Entry)
    ensures LinkProgram(program, fuel).Err?
  {
    forall n: nat, a: nat
      ensures Inline(Entry, n, a, program.labels, fuel).Err?
    {
      SelfReference(Entry, n, a, program.labels, fuel, j);
    }
    LinkFromFailsAt(program.labels[Entry], [], [], EntryBase, EntryCaller, program.labels, fuel, j, Entry);
  }
}
