// Runs of a program: which rows they yield and when they stop.
module MachineRun {
  import opened Common
  import opened Values
  import opened Machine

  function RowAt(m: Machine): Row
    requires m.startRR + m.nRR <= |m.regs|
  {
    m.regs[m.startRR..m.startRR + m.nRR]
  }

  // The instructions that read or advance a cursor find it open and positioned.
  predicate CursorReady(op: Op, m: Machine) {
    op.code in {Op_Key, Op_Column, Op_IdxPKey, Op_Next, Op_Prev} ==> IsPositioned(m, op.p1)
  }

  // n turns of the fetch loop take m to m', yielding rows on the way; every cursor that
  // is read or advanced is positioned, and nothing undefined happens.
  ghost predicate Reaches(ops: seq<Op>, m: Machine, n: nat, rows: seq<Row>, m': Machine)
    decreases n
  {
    if n == 0 then m == m' && rows == []
    else
      && m.pc < |ops| && CursorReady(ops[m.pc], m)
      && match Step(ops, m)
         case Ok(m1) => Reaches(ops, m1, n - 1, rows, m')
         case Row(m1) =>
           && rows != [] && m1.startRR + m1.nRR <= |m1.regs| && rows[0] == RowAt(m1)
           && Reaches(ops, m1, n - 1, rows[1..], m')
         case _ => false
  }

  ghost predicate Runs(ops: seq<Op>, m: Machine, rows: seq<Row>, m': Machine) {
    exists n: nat :: Reaches(ops, m, n, rows, m')
  }

  lemma RunsNothing(ops: seq<Op>, m: Machine)
    ensures Runs(ops, m, [], m)
  {
    assert Reaches(ops, m, 0, [], m);
  }

  lemma RunsStep(ops: seq<Op>, m: Machine)
    requires m.pc < |ops| && CursorReady(ops[m.pc], m) && Step(ops, m).Ok?
    ensures Runs(ops, m, [], Step(ops, m).m)
  {
    assert Reaches(ops, Step(ops, m).m, 0, [], Step(ops, m).m);
    assert Reaches(ops, m, 1, [], Step(ops, m).m);
  }

  lemma RunsRow(ops: seq<Op>, m: Machine)
    requires m.pc < |ops| && CursorReady(ops[m.pc], m) && Step(ops, m).Row?
    requires Step(ops, m).m.startRR + Step(ops, m).m.nRR <= |Step(ops, m).m.regs|
    ensures Runs(ops, m, [RowAt(Step(ops, m).m)], Step(ops, m).m)
  {
    var m1 := Step(ops, m).m;
    assert Reaches(ops, m1, 0, [], m1);
    assert [RowAt(m1)][1..] == [];
    assert Reaches(ops, m, 1, [RowAt(m1)], m1);
  }

  lemma {:induction false} ReachesThen(ops: seq<Op>, a: Machine, n: nat, r1: seq<Row>, b: Machine,
                                       k: nat, r2: seq<Row>, c: Machine)
    requires Reaches(ops, a, n, r1, b) && Reaches(ops, b, k, r2, c)
    ensures Reaches(ops, a, n + k, r1 + r2, c)
    decreases n
  {
    hide Step, CursorReady, RowAt;
    if n == 0 {
      assert r1 + r2 == r2;
    } else {
      match Step(ops, a)
      case Ok(a1) => ReachesThen(ops, a1, n - 1, r1, b, k, r2, c);
      case Row(a1) =>
        ReachesThen(ops, a1, n - 1, r1[1..], b, k, r2, c);
        assert (r1 + r2)[1..] == r1[1..] + r2;
    }
  }

  lemma RunsThen(ops: seq<Op>, a: Machine, r1: seq<Row>, b: Machine, r2: seq<Row>, c: Machine)
    requires Runs(ops, a, r1, b) && Runs(ops, b, r2, c)
    ensures Runs(ops, a, r1 + r2, c)
  {
    var n: nat :| Reaches(ops, a, n, r1, b);
    var k: nat :| Reaches(ops, b, k, r2, c);
    ReachesThen(ops, a, n, r1, b, k, r2, c);
  }

  // Without rows on the first leg.
  lemma RunsOn(ops: seq<Op>, a: Machine, b: Machine, rows: seq<Row>, c: Machine)
    requires Runs(ops, a, [], b) && Runs(ops, b, rows, c)
    ensures Runs(ops, a, rows, c)
  {
    RunsThen(ops, a, [], b, rows, c);
    assert [] + rows == rows;
  }

  // k turns of the fetch loop, with no claim about them.
  ghost predicate Visits(ops: seq<Op>, m: Machine, k: nat, m': Machine)
    decreases k
  {
    if k == 0 then m == m'
    else m.pc < |ops| && (Step(ops, m).Ok? || Step(ops, m).Row?) && Visits(ops, Step(ops, m).m, k - 1, m')
  }

  // A program whose run stops is safe in every state it can reach: each cursor that is
  // read or advanced there is open and positioned, and the instruction is defined.
  lemma {:induction false} StoppingIsSafe(ops: seq<Op>, m: Machine, n: nat, rows: seq<Row>, end: Machine,
                                          k: nat, m': Machine)
    requires Reaches(ops, m, n, rows, end) && |ops| <= end.pc && Visits(ops, m, k, m')
    ensures k <= n
    ensures m'.pc < |ops| ==> CursorReady(ops[m'.pc], m') && (Step(ops, m').Ok? || Step(ops, m').Row?)
    ensures |ops| <= m'.pc ==> m' == end
    decreases k
  {
    hide Step, CursorReady, RowAt;
    if k != 0 {
      match Step(ops, m)
      case Ok(m1) => StoppingIsSafe(ops, m1, n - 1, rows, end, k - 1, m');
      case Row(m1) => StoppingIsSafe(ops, m1, n - 1, rows[1..], end, k - 1, m');
    }
  }

  // A bounded number of turns leads to the end of the program, the program counter never
  // leaves it, and every turn on the way is safe.
  ghost predicate StopsSafely(ops: seq<Op>, m: Machine) {
    exists bound: nat :: SafeWithin(ops, m, bound)
  }

  ghost predicate SafeWithin(ops: seq<Op>, m: Machine, bound: nat) {
    forall k: nat, m' :: Visits(ops, m, k, m') ==>
      && k <= bound && m'.pc <= |ops|
      && (m'.pc < |ops| ==> CursorReady(ops[m'.pc], m') && (Step(ops, m').Ok? || Step(ops, m').Row?))
  }

  lemma RunIsSafe(ops: seq<Op>, m: Machine, rows: seq<Row>, end: Machine)
    requires Runs(ops, m, rows, end) && end.pc == |ops|
    ensures StopsSafely(ops, m)
  {
    hide Reaches, Visits, Step, CursorReady;
    var n: nat :| Reaches(ops, m, n, rows, end);
    forall k: nat, m' | Visits(ops, m, k, m')
      ensures k <= n && m'.pc <= |ops|
      ensures m'.pc < |ops| ==> CursorReady(ops[m'.pc], m') && (Step(ops, m').Ok? || Step(ops, m').Row?)
    {
      StoppingIsSafe(ops, m, n, rows, end, k, m');
    }
    assert SafeWithin(ops, m, n);
  }
}
