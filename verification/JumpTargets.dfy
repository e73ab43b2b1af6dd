// Every jump of a compiled SELECT or CREATE INDEX stays inside the program, whatever the plan.
module JumpTargets {
  import opened Common
  import opened Sql
  import opened Values
  import opened Machine
  import opened Planner
  import opened Layout
  import opened JoinLayout
  import opened TableLayout
  import opened IndexLayout

  // The instructions whose second operand is an address.
  predicate IsJump(code: Opcode) {
    code in {Op_Rewind, Op_Next, Op_Prev, Op_Seek, Op_SeekGt, Op_SeekGe, Op_SeekLt, Op_SeekLe,
             Op_Eq, Op_Ne, Op_Lt, Op_Le, Op_Gt, Op_Ge}
  }

  ghost predicate JumpsWithin(ops: seq<Op>, n: nat) {
    forall i :: 0 <= i < |ops| && IsJump(ops[i].code) ==> 0 <= ops[i].p2 < n
  }

  lemma WithinBoth(a: seq<Op>, b: seq<Op>, n: nat)
    requires JumpsWithin(a, n) && JumpsWithin(b, n)
    ensures JumpsWithin(a + b, n)
  {
  }

  lemma {:induction false} ChecksWithin(c1: seq<Column>, c2: seq<Column>, cmps: seq<ResolvedCmp>, base: int, tmp: int, t: nat, n: nat)
    requires t < n
    ensures JumpsWithin(CheckAll(c1, c2, cmps, base, tmp, t), n)
  {
    if cmps != [] {
      ChecksWithin(c1, c2, cmps[..|cmps| - 1], base, tmp, t, n);
    }
  }

  lemma {:induction false} PairsWithin(c1: seq<Column>, c2: seq<Column>, pairs: seq<(nat, nat)>, ra: int, rb: int, t: nat, n: nat)
    requires t < n
    ensures JumpsWithin(CheckPairs(c1, c2, pairs, ra, rb, t), n)
  {
    if pairs != [] {
      PairsWithin(c1, c2, pairs[..|pairs| - 1], ra, rb, t, n);
    }
  }

  lemma LoadsWithin(c1: seq<Column>, c2: seq<Column>, cmps: seq<ResolvedCmp>, out: seq<RCol>, base: int, n: nat)
    ensures JumpsWithin(LoadLiterals(cmps, base), n) && JumpsWithin(LoadOutputs(c1, c2, out, base), n)
  {
    hide LoadRCol;
    forall rc: RCol, reg: int ensures !IsJump(LoadRCol(c1, c2, rc, reg).code) {
      LoadIsNoJump(c1, c2, rc, reg);
    }
  }

  lemma LoadIsNoJump(c1: seq<Column>, c2: seq<Column>, rc: RCol, reg: int)
    ensures !IsJump(LoadRCol(c1, c2, rc, reg).code)
  {
  }

  lemma SideWithin(s: Source, side: nat, r: SideRegs, tmp: int, die: nat, stop: nat, exit: nat, head: nat, n: nat)
    requires die < n && stop < n && exit < n && head < n
    ensures JumpsWithin(OpenSide(s, side, r), n) && JumpsWithin(SideLiterals(s, r), n) && JumpsWithin(PositionOnce(s, side, r, die), n)
    ensures JumpsWithin(StartLoop(s, side, r, exit), n) && JumpsWithin(FollowIndex(s, side, r, tmp, die, stop), n)
    ensures JumpsWithin(AdvanceLoop(s, side, head), n) && JumpsWithin(CloseSide(s, side), n)
  {
  }

  // The addresses of the map are inside the program.
  lemma AddressesInside(p: Plan)
    requires p.JoinPlan?
    ensures var a := JoinAddresses(p);
      |JoinCode(p)| == a.end && a.tail < a.end && a.advance1 < a.end && a.advance2 < a.end && a.done2 < a.end
      && a.head1 < a.end && a.head2 < a.end
  {
    hide JoinCode;
    PartLengths(p);
  }

  lemma JoinJumps(p: Plan)
    requires p.JoinPlan?
    ensures JumpsWithin(JoinCode(p), |JoinCode(p)|)
  {
    hide JoinAddresses, AllocateRegs, JumpsWithin, OpenSide, SideLiterals, PositionOnce, StartLoop, FollowIndex, AdvanceLoop, CloseSide,
      CheckAll, CheckPairs, LoadLiterals, LoadOutputs;
    var r, a := AllocateRegs(p), JoinAddresses(p);
    AddressesInside(p);
    PrologueJumps(p, a.end);
    OuterJumps(p, a.end);
    InnerJumps(p, a.end);
    TailJumps(p, a.end);
    WithinBoth(JoinPrologue(p), JoinOuter(p), a.end);
    WithinBoth(JoinPrologue(p) + JoinOuter(p), JoinInner(p), a.end);
    WithinBoth(JoinPrologue(p) + JoinOuter(p) + JoinInner(p), JoinTail(p), a.end);
  }

  lemma PrologueJumps(p: Plan, n: nat)
    requires p.JoinPlan? && n == JoinAddresses(p).end && JoinAddresses(p).tail < n
    ensures JumpsWithin(JoinPrologue(p), n)
  {
    hide JoinAddresses, AllocateRegs, JumpsWithin, OpenSide, SideLiterals, PositionOnce, LoadLiterals, LoadOutputs;
    var r, a := AllocateRegs(p), JoinAddresses(p);
    SideWithin(p.s1, 0, r.r1, 0, a.tail, a.tail, a.tail, a.tail, n);
    SideWithin(p.s2, 1, r.r2, 0, a.tail, a.tail, a.tail, a.tail, n);
    LoadsWithin([], [], p.s1.filter, [], r.lits, n);
    LoadsWithin([], [], p.s2.filter, [], r.lits + |p.s1.filter|, n);
    LoadsWithin([], [], p.top, [], r.lits + |p.s1.filter| + |p.s2.filter|, n);
    var opens := OpenSide(p.s1, 0, r.r1) + OpenSide(p.s2, 1, r.r2);
    var loads := opens + SideLiterals(p.s1, r.r1) + SideLiterals(p.s2, r.r2);
    var places := loads + PositionOnce(p.s1, 0, r.r1, a.tail) + PositionOnce(p.s2, 1, r.r2, a.tail);
    var f1, f2 := LoadLiterals(p.s1.filter, r.lits), LoadLiterals(p.s2.filter, r.lits + |p.s1.filter|);
    WithinBoth(OpenSide(p.s1, 0, r.r1), OpenSide(p.s2, 1, r.r2), n);
    WithinBoth(opens, SideLiterals(p.s1, r.r1), n);
    WithinBoth(opens + SideLiterals(p.s1, r.r1), SideLiterals(p.s2, r.r2), n);
    WithinBoth(loads, PositionOnce(p.s1, 0, r.r1, a.tail), n);
    WithinBoth(loads + PositionOnce(p.s1, 0, r.r1, a.tail), PositionOnce(p.s2, 1, r.r2, a.tail), n);
    WithinBoth(places, f1, n);
    WithinBoth(places + f1, f2, n);
    WithinBoth(places + f1 + f2, LoadLiterals(p.top, r.lits + |p.s1.filter| + |p.s2.filter|), n);
  }

  lemma OuterJumps(p: Plan, n: nat)
    requires p.JoinPlan? && n == JoinAddresses(p).end && JoinAddresses(p).tail < n && JoinAddresses(p).advance1 < n
    ensures JumpsWithin(JoinOuter(p), n)
  {
    hide JoinAddresses, AllocateRegs, JumpsWithin, StartLoop, FollowIndex, CheckAll;
    var r, a := AllocateRegs(p), JoinAddresses(p);
    SideWithin(p.s1, 0, r.r1, r.tmpA, a.tail, a.tail, a.tail, a.tail, n);
    ChecksWithin(p.s1.columns, p.s2.columns, p.s1.filter, r.lits, r.tmpA, a.advance1, n);
    var checks := CheckAll(p.s1.columns, p.s2.columns, p.s1.filter, r.lits, r.tmpA, a.advance1);
    WithinBoth(StartLoop(p.s1, 0, r.r1, a.tail), checks, n);
    WithinBoth(StartLoop(p.s1, 0, r.r1, a.tail) + checks, FollowIndex(p.s1, 0, r.r1, r.tmpA, a.tail, a.tail), n);
  }

  lemma RowIsNoJump(base: int, k: int, n: nat)
    ensures JumpsWithin([MakeOp(Op_ResultRow, base, k, 0)], n)
  {
  }

  lemma InnerJumps(p: Plan, n: nat)
    requires p.JoinPlan? && n == JoinAddresses(p).end && JoinAddresses(p).tail < n
    requires JoinAddresses(p).advance2 < n && JoinAddresses(p).done2 < n
    ensures JumpsWithin(JoinInner(p), n)
  {
    hide JoinAddresses, AllocateRegs, JumpsWithin, StartLoop, FollowIndex, CheckAll, CheckPairs, LoadOutputs;
    var r, a := AllocateRegs(p), JoinAddresses(p);
    var c1, c2 := p.s1.columns, p.s2.columns;
    SideWithin(p.s2, 1, r.r2, r.tmpA, a.tail, a.done2, a.done2, a.tail, n);
    PairsWithin(c1, c2, p.pairs, r.tmpA, r.tmpB, a.advance2, n);
    ChecksWithin(c1, c2, p.s2.filter, r.lits + |p.s1.filter|, r.tmpA, a.advance2, n);
    ChecksWithin(c1, c2, p.top, r.lits + |p.s1.filter| + |p.s2.filter|, r.tmpA, a.advance2, n);
    LoadsWithin(c1, c2, [], p.out, r.out, n);
    RowIsNoJump(r.out, |p.out|, n);
    var k1 := StartLoop(p.s2, 1, r.r2, a.done2) + FollowIndex(p.s2, 1, r.r2, r.tmpA, a.tail, a.done2);
    var k2 := k1 + CheckPairs(c1, c2, p.pairs, r.tmpA, r.tmpB, a.advance2);
    var k3 := k2 + CheckAll(c1, c2, p.s2.filter, r.lits + |p.s1.filter|, r.tmpA, a.advance2);
    var k4 := k3 + CheckAll(c1, c2, p.top, r.lits + |p.s1.filter| + |p.s2.filter|, r.tmpA, a.advance2);
    var k5 := k4 + LoadOutputs(c1, c2, p.out, r.out);
    WithinBoth(StartLoop(p.s2, 1, r.r2, a.done2), FollowIndex(p.s2, 1, r.r2, r.tmpA, a.tail, a.done2), n);
    WithinBoth(k1, CheckPairs(c1, c2, p.pairs, r.tmpA, r.tmpB, a.advance2), n);
    WithinBoth(k2, CheckAll(c1, c2, p.s2.filter, r.lits + |p.s1.filter|, r.tmpA, a.advance2), n);
    WithinBoth(k3, CheckAll(c1, c2, p.top, r.lits + |p.s1.filter| + |p.s2.filter|, r.tmpA, a.advance2), n);
    WithinBoth(k4, LoadOutputs(c1, c2, p.out, r.out), n);
    WithinBoth(k5, [MakeOp(Op_ResultRow, r.out, |p.out|, 0)], n);
  }

  lemma HaltIsNoJump(n: nat)
    ensures JumpsWithin([MakeOp(Op_Halt, 0, 0, 0)], n)
  {
  }

  lemma TailJumps(p: Plan, n: nat)
    requires p.JoinPlan? && n == JoinAddresses(p).end && JoinAddresses(p).head1 < n && JoinAddresses(p).head2 < n
    ensures JumpsWithin(JoinTail(p), n)
  {
    hide JoinAddresses, JumpsWithin, AdvanceLoop, CloseSide;
    var a, r := JoinAddresses(p), SideRegs(0, 0, 0, 0, 0);
    SideWithin(p.s1, 0, r, 0, a.head1, a.head1, a.head1, a.head1, n);
    SideWithin(p.s2, 1, r, 0, a.head2, a.head2, a.head2, a.head2, n);
    HaltIsNoJump(n);
    var k1 := AdvanceLoop(p.s2, 1, a.head2) + AdvanceLoop(p.s1, 0, a.head1);
    WithinBoth(AdvanceLoop(p.s2, 1, a.head2), AdvanceLoop(p.s1, 0, a.head1), n);
    WithinBoth(k1, CloseSide(p.s2, 1), n);
    WithinBoth(k1 + CloseSide(p.s2, 1), CloseSide(p.s1, 0), n);
    WithinBoth(k1 + CloseSide(p.s2, 1) + CloseSide(p.s1, 0), [MakeOp(Op_Halt, 0, 0, 0)], n);
  }

  // ---- one table, CREATE INDEX -----------------------------------------------------------------------

  lemma TableEndsWithin(s: Source, exit: nat, head: nat, skip: nat, stop: nat, n: nat)
    requires exit < n && head < n && skip < n && stop < n
    ensures JumpsWithin(OpenTable(s), n) && JumpsWithin(StartTable(s, exit), n) && JumpsWithin(FollowTable(s, skip, stop), n)
    ensures JumpsWithin(AdvanceTable(s, head), n) && JumpsWithin(CloseTable(s), n)
  {
  }

  lemma TableLoadsWithin(s: Source, n: nat)
    ensures JumpsWithin(TableLiterals(s), n)
  {
    hide LoadLiterals;
    LoadsWithin([], [], s.filter, [], 1, n);
  }

  lemma TableJumps(p: Plan)
    requires p.TablePlan?
    ensures JumpsWithin(TableCode(p), |TableCode(p)|)
  {
    hide TableAddresses, AllocateTableRegs, JumpsWithin, OpenTable, TableLiterals, StartTable, FollowTable, AdvanceTable, CloseTable,
      CheckAll, LoadOutputs, CodeAt;
    var r, a, s := AllocateTableRegs(p.s), TableAddresses(p), p.s;
    TablePieces(p);
    TableInside(p);
    var n := a.end;
    TableEndsWithin(s, a.tail, a.head, a.advance, a.tail, n);
    TableLoadsWithin(s, n);
    ChecksWithin(LeftColumns(s), RightColumns(s), s.filter, r.lits, r.tmp, a.advance, n);
    LoadsWithin(LeftColumns(s), RightColumns(s), [], TableOut(s, p.outIdx), r.out, n);
    RowIsNoJump(r.out, |p.outIdx|, n);
    var checks := CheckAll(LeftColumns(s), RightColumns(s), s.filter, r.lits, r.tmp, a.advance);
    var outs := LoadOutputs(LeftColumns(s), RightColumns(s), TableOut(s, p.outIdx), r.out);
    var follow := FollowTable(s, a.advance, a.tail);
    WithinBoth(follow, checks, n);
    WithinBoth(follow + checks, outs, n);
    WithinBoth(follow + checks + outs, [MakeOp(Op_ResultRow, r.out, |p.outIdx|, 0)], n);
    var k1 := OpenTable(s) + TableLiterals(s);
    WithinBoth(OpenTable(s), TableLiterals(s), n);
    WithinBoth(k1, StartTable(s, a.tail), n);
    WithinBoth(k1 + StartTable(s, a.tail), TableTurn(p), n);
    WithinBoth(k1 + StartTable(s, a.tail) + TableTurn(p), AdvanceTable(s, a.head), n);
    WithinBoth(k1 + StartTable(s, a.tail) + TableTurn(p) + AdvanceTable(s, a.head), CloseTable(s), n);
  }

  lemma TableInside(p: Plan)
    requires p.TablePlan?
    ensures var a := TableAddresses(p); a.tail < a.end && a.head < a.end && a.advance < a.end
  {
  }

  lemma IndexJumps(p: IndexPlan)
    ensures JumpsWithin(IndexCode(p), |IndexCode(p)|)
  {
  }
}
