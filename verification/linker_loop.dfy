/** The linker's loop exactly as the source runs it. `for i, instr in
    enumerate(instrs)` (turing_asm_transpiler.py:82) iterates over a list that
    the loop body itself extends, so it also visits the callee rows appended
    at lines 93, 97 and 101. `Linker.LinkFrom` only visits the block's own rows;
    `AsWritten` proves the two agree: the appended rows are already resolved
    and no branch of the loop body fires on them. */
module LinkLoop {
  import opened Results
  import opened Instructions
  import opened Linker

  /** Number of rows that still carry a `+k`, `return` or `*name` goto. */
  function Pending(rows: seq<Instruction>): (n: nat)
    ensures n <= |rows|
    ensures n == 0 <==> AllResolved(rows)
  {
    if |rows| == 0 then 0
    else (if Resolved(rows[0]) then 0 else 1) + Pending(rows[1..])
  }

  lemma {:induction false} PendingAppend(a: seq<Instruction>, b: seq<Instruction>)
    ensures Pending(a + b) == Pending(a) + Pending(b)
    decreases |a|
  {
    if |a| == 0 {
      assert a + b == b;
    } else {
      PendingAppend(a[1..], b);
      assert (a + b)[0] == a[0];
      assert (a + b)[1..] == a[1..] + b;
    }
  }

  /** Rewriting row `i` into a resolved row and appending resolved rows
      removes row `i` from the pending count and adds nothing else. */
  lemma PendingAfterStep(rows: seq<Instruction>, i: nat, row: Instruction, added: seq<Instruction>)
    requires i < |rows| && Resolved(row) && AllResolved(added)
    ensures Pending(rows[i..]) == (if Resolved(rows[i]) then 0 else 1) + Pending((rows[i := row] + added)[i + 1..])
  {
    assert (rows[i := row] + added)[i + 1..] == rows[i + 1..] + added;
    PendingAppend(rows[i + 1..], added);
    assert rows[i..][1..] == rows[i + 1..];
  }

  /** Lines 82-103 as written: row `i` of the growing list `rows` is
      processed with the list's current length, and the loop goes on until
      it has visited every row, appended ones included. */
  function Enumerate(rows: seq<Instruction>, i: nat, base: nat, caller: nat, labels: Labels, fuel: nat)
    : (r: Result<seq<Instruction>, LinkError>)
    requires i <= |rows|
    decreases Pending(rows[i..]), |rows| - i
  {
    if i == |rows| then Ok(rows)
    else
      var s :- Step(rows[i], base + i, caller, base + |rows|, labels, fuel);
      PendingAfterStep(rows, i, s.row, s.rows);
      Enumerate(rows[i := s.row] + s.rows, i + 1, base, caller, labels, fuel)
  }

  /** Visiting rows that are already resolved changes nothing. */
  lemma {:induction false} EnumerateResolved(rows: seq<Instruction>, i: nat, base: nat, caller: nat, labels: Labels, fuel: nat)
    requires i <= |rows|
    requires forall j :: i <= j < |rows| ==> Resolved(rows[j])
    ensures Enumerate(rows, i, base, caller, labels, fuel) == Ok(rows)
    decreases |rows| - i
  {
    if i < |rows| {
      assert Step(rows[i], base + i, caller, base + |rows|, labels, fuel) == Ok(Stepped(rows[i], []));
      assert rows[i := rows[i]] + [] == rows;
      EnumerateResolved(rows, i + 1, base, caller, labels, fuel);
    }
  }

  /** After `|own|` iterations the source's list is `own + block[|own|..] + tail`,
      and the rest of the loop computes what `LinkFrom` computes. */
  lemma {:induction false} EnumerateFrom(block: seq<Instruction>, own: seq<Instruction>, tail: seq<Instruction>,
                                         base: nat, caller: nat, labels: Labels, fuel: nat)
    requires |own| <= |block|
    requires AllResolved(own) && AllResolved(tail)
    ensures Enumerate(own + block[|own|..] + tail, |own|, base, caller, labels, fuel)
         == LinkFrom(block, own, tail, base, caller, labels, fuel)
    decreases |block| - |own|
  {
    var rows := own + block[|own|..] + tail;
    var i := |own|;
    if i == |block| {
      assert rows == own + tail;
      EnumerateResolved(rows, i, base, caller, labels, fuel);
    } else {
      var r := Step(block[i], base + i, caller, base + |block| + |tail|, labels, fuel);
      if r.Ok? {
        var s := r.value;
        ResolvedAppend(own, [s.row]);
        ResolvedAppend(tail, s.rows);
        EnumerateFrom(block, own + [s.row], tail + s.rows, base, caller, labels, fuel);
        EnumerateStepCase(block, own, tail, base, caller, labels, fuel, s);
      } else {
        EnumerateErrCase(block, own, tail, base, caller, labels, fuel);
      }
    }
  }

  /** When row `|own|` links, the loop and `LinkFrom` both go on with the
      rewritten row and its callee rows. */
  lemma EnumerateStepCase(block: seq<Instruction>, own: seq<Instruction>, tail: seq<Instruction>,
                          base: nat, caller: nat, labels: Labels, fuel: nat, s: Stepped)
    requires |own| < |block|
    requires Step(block[|own|], base + |own|, caller, base + |block| + |tail|, labels, fuel) == Ok(s)
    requires Enumerate((own + [s.row]) + block[|own| + 1..] + (tail + s.rows), |own| + 1, base, caller, labels, fuel)
          == LinkFrom(block, own + [s.row], tail + s.rows, base, caller, labels, fuel)
    ensures Enumerate(own + block[|own|..] + tail, |own|, base, caller, labels, fuel)
         == LinkFrom(block, own, tail, base, caller, labels, fuel)
  {
    var rows := own + block[|own|..] + tail;
    assert rows[|own|] == block[|own|] && |rows| == |block| + |tail|;
    EnumerateOnce(rows, |own|, base, caller, labels, fuel);
    ListAfterStep(block, own, tail, s.row, s.rows);
    LinkFromOnce(block, own, tail, base, caller, labels, fuel, s);
  }

  /** When row `|own|` fails to link, the loop and `LinkFrom` fail alike. */
  lemma EnumerateErrCase(block: seq<Instruction>, own: seq<Instruction>, tail: seq<Instruction>,
                         base: nat, caller: nat, labels: Labels, fuel: nat)
    requires |own| < |block|
    requires Step(block[|own|], base + |own|, caller, base + |block| + |tail|, labels, fuel).Err?
    ensures Enumerate(own + block[|own|..] + tail, |own|, base, caller, labels, fuel)
         == LinkFrom(block, own, tail, base, caller, labels, fuel)
  {
    var rows := own + block[|own|..] + tail;
    assert rows[|own|] == block[|own|] && |rows| == |block| + |tail|;
    EnumerateOnce(rows, |own|, base, caller, labels, fuel);
  }

  lemma ResolvedAppend(a: seq<Instruction>, b: seq<Instruction>)
    requires AllResolved(a) && AllResolved(b)
    ensures AllResolved(a + b)
  {
    assert forall j :: |a| <= j < |a + b| ==> (a + b)[j] == b[j - |a|];
  }

  /** One iteration of `LinkFrom`. */
  lemma LinkFromOnce(block: seq<Instruction>, own: seq<Instruction>, tail: seq<Instruction>,
                     base: nat, caller: nat, labels: Labels, fuel: nat, s: Stepped)
    requires |own| < |block|
    requires Step(block[|own|], base + |own|, caller, base + |block| + |tail|, labels, fuel) == Ok(s)
    ensures LinkFrom(block, own, tail, base, caller, labels, fuel)
         == LinkFrom(block, own + [s.row], tail + s.rows, base, caller, labels, fuel)
  {
  }

  /** One iteration of the source's loop. */
  lemma EnumerateOnce(rows: seq<Instruction>, i: nat, base: nat, caller: nat, labels: Labels, fuel: nat)
    requires i < |rows|
    ensures Enumerate(rows, i, base, caller, labels, fuel)
         == match Step(rows[i], base + i, caller, base + |rows|, labels, fuel)
            case Err(e) => Err(e)
            case Ok(s) => Enumerate(rows[i := s.row] + s.rows, i + 1, base, caller, labels, fuel)
  {
  }

  /** The source's list after row `|own|` is rewritten and its callee rows appended. */
  lemma ListAfterStep(block: seq<Instruction>, own: seq<Instruction>, tail: seq<Instruction>,
                      row: Instruction, added: seq<Instruction>)
    requires |own| < |block|
    ensures (own + block[|own|..] + tail)[|own| := row] + added
         == (own + [row]) + block[|own| + 1..] + (tail + added)
  {
    var rows := own + block[|own|..] + tail;
    var lhs := rows[|own| := row] + added;
    var rhs := (own + [row]) + block[|own| + 1..] + (tail + added);
    assert |lhs| == |rhs|;
    forall j | 0 <= j < |lhs|
      ensures lhs[j] == rhs[j]
    {
      if j < |own| {
      } else if j == |own| {
      } else if j < |block| {
        assert lhs[j] == block[j];
      } else if j < |block| + |tail| {
        assert lhs[j] == tail[j - |block|];
      } else {
        assert lhs[j] == added[j - |block| - |tail|];
      }
    }
  }

  /** The source's loop, which also walks over the rows it appends, links
      a block exactly as `Linker.LinkBlock` does, failures included. */
  lemma AsWritten(block: seq<Instruction>, base: nat, caller: nat, labels: Labels, fuel: nat)
    ensures Enumerate(block, 0, base, caller, labels, fuel) == LinkBlock(block, base, caller, labels, fuel)
  {
    assert [] + block[0..] + [] == block;
    EnumerateFrom(block, [], [], base, caller, labels, fuel);
  }
}
