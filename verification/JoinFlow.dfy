// The compiled join, whatever its plan and whatever the database: it halts, and Key, Column,
// IdxPKey, Next and Prev only ever execute on a positioned cursor.
module JoinFlow {
  import opened Common
  import opened Sql
  import opened Machine
  import opened Planner
  import opened Layout
  import opened JoinLayout
  import opened JumpTargets
  import opened ControlFlow

  // ---- plans ---------------------------------------------------------------------------------------

  // The comparisons are comparisons, and a table that is read through an index has no filter.
  predicate SourceShaped(s: Source) {
    && (forall i :: 0 <= i < |s.filter| ==> SeekOpcode(s.filter[i].op).Some?)
    && (HasUpper(s.access) ==> SeekOpcode(s.access.upper.value.op).Some?)
    && (!s.access.Scan? ==> s.filter == [])
  }

  predicate JoinShaped(p: Plan) {
    && p.JoinPlan? && SourceShaped(p.s1) && SourceShaped(p.s2)
    && forall i :: 0 <= i < |p.top| ==> SeekOpcode(p.top[i].op).Some?
  }

  // The filter of the left table, which runs before the right table is positioned, reads the
  // left table only.
  predicate LeftReadsLeft(p: Plan)
    requires p.JoinPlan?
  {
    forall i :: 0 <= i < |p.s1.filter| ==> p.s1.filter[i].col.side == 0
  }

  predicate Compares(cmps: seq<ResolvedCmp>) {
    forall i :: 0 <= i < |cmps| ==> SeekOpcode(cmps[i].op).Some?
  }

  // ---- forward jumps and untouched cursors ------------------------------------------------------------

  // Jumps go forward, at most to n, and the cursors fixed are not moved.
  ghost predicate Calm(code: seq<Op>, at: int, n: int, fixed: set<int>) {
    forall i :: 0 <= i < |code| ==>
      && (IsJump(code[i].code) ==> at + i < code[i].p2 <= n)
      && (MovesCursor(code[i].code) ==> code[i].p1 !in fixed)
  }

  lemma CalmBoth(a: seq<Op>, b: seq<Op>, at: int, n: int, fixed: set<int>)
    requires Calm(a, at, n, fixed) && Calm(b, at + |a|, n, fixed)
    ensures Calm(a + b, at, n, fixed)
  {
    forall i | 0 <= i < |a + b| ensures (a + b)[i] == if i < |a| then a[i] else b[i - |a|] {
    }
  }

  lemma {:induction false} ChecksCalm(c1: seq<Column>, c2: seq<Column>, cmps: seq<ResolvedCmp>, base: int, tmp: int, t: int,
                                      at: int, n: int, fixed: set<int>)
    requires Compares(cmps) && at + 2 * |cmps| <= t <= n
    ensures Calm(CheckAll(c1, c2, cmps, base, tmp, t), at, n, fixed)
  {
    if cmps != [] {
      var front := cmps[..|cmps| - 1];
      ChecksCalm(c1, c2, front, base, tmp, t, at, n, fixed);
      var last := CheckAll(c1, c2, cmps, base, tmp, t)[2 * |front|..];
      CalmBoth(CheckAll(c1, c2, front, base, tmp, t), last, at, n, fixed);
      assert CheckAll(c1, c2, cmps, base, tmp, t) == CheckAll(c1, c2, front, base, tmp, t) + last;
    }
  }

  lemma {:induction false} PairsCalm(c1: seq<Column>, c2: seq<Column>, pairs: seq<(nat, nat)>, ra: int, rb: int, t: int,
                                     at: int, n: int, fixed: set<int>)
    requires at + 3 * |pairs| <= t <= n
    ensures Calm(CheckPairs(c1, c2, pairs, ra, rb, t), at, n, fixed)
  {
    if pairs != [] {
      var front := pairs[..|pairs| - 1];
      PairsCalm(c1, c2, front, ra, rb, t, at, n, fixed);
      var last := CheckPairs(c1, c2, pairs, ra, rb, t)[3 * |front|..];
      CalmBoth(CheckPairs(c1, c2, front, ra, rb, t), last, at, n, fixed);
      assert CheckPairs(c1, c2, pairs, ra, rb, t) == CheckPairs(c1, c2, front, ra, rb, t) + last;
    }
  }

  lemma LoadsCalm(c1: seq<Column>, c2: seq<Column>, cmps: seq<ResolvedCmp>, out: seq<RCol>, base: int, at: int, n: int, fixed: set<int>)
    ensures Calm(LoadLiterals(cmps, base), at, n, fixed) && Calm(LoadOutputs(c1, c2, out, base), at, n, fixed)
  {
    hide LoadRCol;
    forall rc: RCol, reg: int ensures !IsJump(LoadRCol(c1, c2, rc, reg).code) && !MovesCursor(LoadRCol(c1, c2, rc, reg).code) {
      RColMovesNothing(c1, c2, rc, reg);
    }
  }

  lemma RColMovesNothing(c1: seq<Column>, c2: seq<Column>, rc: RCol, reg: int)
    ensures !IsJump(LoadRCol(c1, c2, rc, reg).code) && !MovesCursor(LoadRCol(c1, c2, rc, reg).code)
  {
  }

  lemma OpensCalm(s: Source, side: nat, r: SideRegs, die: int, at: int, n: int)
    requires at + |PositionOnce(s, side, r, die)| <= die <= n
    ensures Calm(OpenSide(s, side, r), at, n, {}) && Calm(SideLiterals(s, r), at, n, {}) && Calm(PositionOnce(s, side, r, die), at, n, {})
  {
  }

  lemma StartCalm(s: Source, side: nat, r: SideRegs, exit: int, at: int, n: int, fixed: set<int>)
    requires at < exit <= n && DriverCursor(s.access, side) !in fixed
    ensures Calm(StartLoop(s, side, r, exit), at, n, fixed)
  {
  }

  lemma FollowCalm(s: Source, side: nat, r: SideRegs, tmp: int, die: int, stop: int, at: int, n: int, fixed: set<int>)
    requires SourceShaped(s) && (s.access.RangeSeek? ==> side !in fixed)
    requires at + |FollowIndex(s, side, r, tmp, die, stop)| <= die <= n && at + |FollowIndex(s, side, r, tmp, die, stop)| <= stop <= n
    ensures Calm(FollowIndex(s, side, r, tmp, die, stop), at, n, fixed)
  {
  }

  lemma CloseCalm(s: Source, side: nat, at: int, n: int)
    ensures Calm(CloseSide(s, side), at, n, {}) && Calm([MakeOp(Op_Halt, 0, 0, 0)], at, n, {})
  {
  }

  lemma RowCalm(base: int, k: int, at: int, n: int, fixed: set<int>)
    ensures Calm([MakeOp(Op_ResultRow, base, k, 0)], at, n, fixed)
  {
  }

  // ---- the parts of the join --------------------------------------------------------------------------

  // The order of the addresses.
  lemma AddressOrder(p: Plan)
    requires p.JoinPlan?
    ensures var a, r := JoinAddresses(p), AllocateRegs(p);
      && a.once1 <= a.once2 <= a.filters <= a.start1 <= a.head1 <= a.start2 <= a.head2 <= a.pairs <= a.checks2 <= a.checksTop
      && a.checksTop <= a.outs <= a.row < a.advance2 == a.row + 1 && a.advance2 <= a.done2 == a.advance1 <= a.tail < a.end
      && a.done2 == a.advance2 + B2N(Loops(p.s2)) && a.tail == a.done2 + B2N(Loops(p.s1))
      && a.head1 == a.start1 + B2N(Loops(p.s1)) && a.head2 == a.start2 + B2N(Loops(p.s2))
      && |JoinPrologue(p)| == a.start1 && |JoinPrologue(p)| + |JoinOuter(p)| == a.start2
      && |JoinPrologue(p)| + |JoinOuter(p)| + |JoinInner(p)| == a.advance2 && |JoinCode(p)| == a.end
  {
    hide JoinPrologue, JoinOuter, JoinInner, JoinCode, AllocateRegs;
    PartLengths(p);
  }

  // The cursor that drives the outer loop, if there is one.
  function OuterCursor(p: Plan): set<int>
    requires p.JoinPlan?
  {
    if Loops(p.s1) then {DriverCursor(p.s1.access, 0)} else {}
  }

  function InnerCursor(p: Plan): set<int>
    requires p.JoinPlan?
  {
    if Loops(p.s2) then {DriverCursor(p.s2.access, 1)} else {}
  }

  // What follows the instruction that starts a loop.
  function OuterBody(p: Plan): seq<Op>
    requires p.JoinPlan?
  {
    var r, a := AllocateRegs(p), JoinAddresses(p);
    CheckAll(p.s1.columns, p.s2.columns, p.s1.filter, r.lits, r.tmpA, a.advance1) + FollowIndex(p.s1, 0, r.r1, r.tmpA, a.tail, a.tail)
  }

  function RowTests(p: Plan): seq<Op>
    requires p.JoinPlan?
  {
    var r, a := AllocateRegs(p), JoinAddresses(p);
    CheckPairs(p.s1.columns, p.s2.columns, p.pairs, r.tmpA, r.tmpB, a.advance2)
    + CheckAll(p.s1.columns, p.s2.columns, p.s2.filter, r.lits + |p.s1.filter|, r.tmpA, a.advance2)
    + CheckAll(p.s1.columns, p.s2.columns, p.top, r.lits + |p.s1.filter| + |p.s2.filter|, r.tmpA, a.advance2)
  }

  function RowOut(p: Plan): seq<Op>
    requires p.JoinPlan?
  {
    var r := AllocateRegs(p);
    LoadOutputs(p.s1.columns, p.s2.columns, p.out, r.out) + [MakeOp(Op_ResultRow, r.out, |p.out|, 0)]
  }

  function InnerBody(p: Plan): seq<Op>
    requires p.JoinPlan?
  {
    var r, a := AllocateRegs(p), JoinAddresses(p);
    FollowIndex(p.s2, 1, r.r2, r.tmpA, a.tail, a.done2) + RowTests(p) + RowOut(p)
  }

  lemma StartLength(s: Source, side: nat, r: SideRegs, exit: int)
    ensures |StartLoop(s, side, r, exit)| == B2N(Loops(s))
  {
  }

  lemma BodiesAre(p: Plan)
    requires p.JoinPlan?
    ensures var r, a := AllocateRegs(p), JoinAddresses(p);
      && JoinOuter(p) == StartLoop(p.s1, 0, r.r1, a.tail) + OuterBody(p)
      && JoinInner(p) == StartLoop(p.s2, 1, r.r2, a.done2) + InnerBody(p)
      && |StartLoop(p.s1, 0, r.r1, a.tail)| == B2N(Loops(p.s1)) && |StartLoop(p.s2, 1, r.r2, a.done2)| == B2N(Loops(p.s2))
      && a.head1 + |OuterBody(p)| == a.start2 && a.head2 + |InnerBody(p)| == a.advance2
  {
    hide AllocateRegs, JoinAddresses, CheckAll, CheckPairs, LoadOutputs, FollowIndex, StartLoop, JoinPrologue, JoinCode;
    var r, a := AllocateRegs(p), JoinAddresses(p);
    AddressOrder(p);
    StartLength(p.s1, 0, r.r1, a.tail);
    StartLength(p.s2, 1, r.r2, a.done2);
    assert JoinOuter(p) == StartLoop(p.s1, 0, r.r1, a.tail) + OuterBody(p);
    assert JoinInner(p) == StartLoop(p.s2, 1, r.r2, a.done2) + InnerBody(p);
  }

  lemma PrologueCalm(p: Plan)
    requires p.JoinPlan?
    ensures Calm(JoinPrologue(p), 0, JoinAddresses(p).end, {})
  {
    hide JoinAddresses, AllocateRegs, OpenSide, SideLiterals, PositionOnce, LoadLiterals, Calm, JoinCode, JoinOuter, JoinInner;
    var r, a, n := AllocateRegs(p), JoinAddresses(p), JoinAddresses(p).end;
    AddressOrder(p);
    PrologueLength(p);
    var o1, o2, l1, l2 := OpenSide(p.s1, 0, r.r1), OpenSide(p.s2, 1, r.r2), SideLiterals(p.s1, r.r1), SideLiterals(p.s2, r.r2);
    var p1, p2 := PositionOnce(p.s1, 0, r.r1, a.tail), PositionOnce(p.s2, 1, r.r2, a.tail);
    var f1, f2 := LoadLiterals(p.s1.filter, r.lits), LoadLiterals(p.s2.filter, r.lits + |p.s1.filter|);
    var f3 := LoadLiterals(p.top, r.lits + |p.s1.filter| + |p.s2.filter|);
    OpensCalm(p.s1, 0, r.r1, a.tail, 0, n);
    OpensCalm(p.s2, 1, r.r2, a.tail, |o1|, n);
    OpensCalm(p.s1, 0, r.r1, a.tail, |o1 + o2|, n);
    OpensCalm(p.s2, 1, r.r2, a.tail, |o1 + o2 + l1|, n);
    OpensCalm(p.s1, 0, r.r1, a.tail, |o1 + o2 + l1 + l2|, n);
    OpensCalm(p.s2, 1, r.r2, a.tail, |o1 + o2 + l1 + l2 + p1|, n);
    LoadsCalm([], [], p.s1.filter, [], r.lits, |o1 + o2 + l1 + l2 + p1 + p2|, n, {});
    LoadsCalm([], [], p.s2.filter, [], r.lits + |p.s1.filter|, |o1 + o2 + l1 + l2 + p1 + p2 + f1|, n, {});
    LoadsCalm([], [], p.top, [], r.lits + |p.s1.filter| + |p.s2.filter|, |o1 + o2 + l1 + l2 + p1 + p2 + f1 + f2|, n, {});
    CalmBoth(o1, o2, 0, n, {});
    CalmBoth(o1 + o2, l1, 0, n, {});
    CalmBoth(o1 + o2 + l1, l2, 0, n, {});
    CalmBoth(o1 + o2 + l1 + l2, p1, 0, n, {});
    CalmBoth(o1 + o2 + l1 + l2 + p1, p2, 0, n, {});
    CalmBoth(o1 + o2 + l1 + l2 + p1 + p2, f1, 0, n, {});
    CalmBoth(o1 + o2 + l1 + l2 + p1 + p2 + f1, f2, 0, n, {});
    CalmBoth(o1 + o2 + l1 + l2 + p1 + p2 + f1 + f2, f3, 0, n, {});
  }

  // No piece of the prologue reaches beyond it.
  lemma PrologueLength(p: Plan)
    requires p.JoinPlan?
    ensures var r, a := AllocateRegs(p), JoinAddresses(p);
      |OpenSide(p.s1, 0, r.r1)| + |OpenSide(p.s2, 1, r.r2)| + |SideLiterals(p.s1, r.r1)| + |SideLiterals(p.s2, r.r2)|
      + |PositionOnce(p.s1, 0, r.r1, a.tail)| + |PositionOnce(p.s2, 1, r.r2, a.tail)|
      + |p.s1.filter| + |p.s2.filter| + |p.top| == |JoinPrologue(p)|
  {
    hide JoinAddresses, AllocateRegs, OpenSide, SideLiterals, PositionOnce;
  }

  lemma OuterCalm(p: Plan)
    requires JoinShaped(p)
    ensures var r, a := AllocateRegs(p), JoinAddresses(p);
      Calm(StartLoop(p.s1, 0, r.r1, a.tail), a.start1, a.end, {}) && Calm(OuterBody(p), a.head1, a.end, OuterCursor(p))
  {
    hide JoinAddresses, AllocateRegs, StartLoop, FollowIndex, CheckAll, Calm;
    var r, a, n, fixed := AllocateRegs(p), JoinAddresses(p), JoinAddresses(p).end, OuterCursor(p);
    AddressOrder(p);
    BodiesAre(p);
    StartCalm(p.s1, 0, r.r1, a.tail, a.start1, n, {});
    ChecksCalm(p.s1.columns, p.s2.columns, p.s1.filter, r.lits, r.tmpA, a.advance1, a.head1, n, fixed);
    FollowCalm(p.s1, 0, r.r1, r.tmpA, a.tail, a.tail, a.head1 + 2 * |p.s1.filter|, n, fixed);
    CalmBoth(CheckAll(p.s1.columns, p.s2.columns, p.s1.filter, r.lits, r.tmpA, a.advance1),
      FollowIndex(p.s1, 0, r.r1, r.tmpA, a.tail, a.tail), a.head1, n, fixed);
  }

  lemma TestsCalm(p: Plan, fixed: set<int>)
    requires JoinShaped(p)
    ensures Calm(RowTests(p) + RowOut(p), JoinAddresses(p).pairs, JoinAddresses(p).end, fixed)
    ensures JoinAddresses(p).pairs + |RowTests(p)| + |RowOut(p)| == JoinAddresses(p).advance2
  {
    hide AllocateRegs, CheckAll, CheckPairs, LoadOutputs, Calm, OpenSide, SideLiterals, PositionOnce, CloseSide, FollowIndex;
    var r, a, n := AllocateRegs(p), JoinAddresses(p), JoinAddresses(p).end;
    var c1, c2 := p.s1.columns, p.s2.columns;
    AddressOrder(p);
    var t1 := CheckPairs(c1, c2, p.pairs, r.tmpA, r.tmpB, a.advance2);
    var t2 := CheckAll(c1, c2, p.s2.filter, r.lits + |p.s1.filter|, r.tmpA, a.advance2);
    var t3 := CheckAll(c1, c2, p.top, r.lits + |p.s1.filter| + |p.s2.filter|, r.tmpA, a.advance2);
    var t4, t5 := LoadOutputs(c1, c2, p.out, r.out), [MakeOp(Op_ResultRow, r.out, |p.out|, 0)];
    PairsCalm(c1, c2, p.pairs, r.tmpA, r.tmpB, a.advance2, a.pairs, n, fixed);
    ChecksCalm(c1, c2, p.s2.filter, r.lits + |p.s1.filter|, r.tmpA, a.advance2, a.checks2, n, fixed);
    ChecksCalm(c1, c2, p.top, r.lits + |p.s1.filter| + |p.s2.filter|, r.tmpA, a.advance2, a.checksTop, n, fixed);
    LoadsCalm(c1, c2, [], p.out, r.out, a.outs, n, fixed);
    RowCalm(r.out, |p.out|, a.row, n, fixed);
    CalmBoth(t1, t2, a.pairs, n, fixed);
    CalmBoth(t1 + t2, t3, a.pairs, n, fixed);
    CalmBoth(t4, t5, a.outs, n, fixed);
    CalmBoth(t1 + t2 + t3, t4 + t5, a.pairs, n, fixed);
  }

  lemma InnerCalm(p: Plan)
    requires JoinShaped(p)
    ensures var r, a := AllocateRegs(p), JoinAddresses(p);
      && Calm(StartLoop(p.s2, 1, r.r2, a.done2), a.start2, a.end, OuterCursor(p))
      && Calm(InnerBody(p), a.head2, a.end, OuterCursor(p) + InnerCursor(p))
  {
    hide JoinAddresses, AllocateRegs, StartLoop, FollowIndex, RowTests, RowOut, Calm;
    var r, a, n, fixed := AllocateRegs(p), JoinAddresses(p), JoinAddresses(p).end, OuterCursor(p) + InnerCursor(p);
    AddressOrder(p);
    BodiesAre(p);
    TestsCalm(p, fixed);
    StartCalm(p.s2, 1, r.r2, a.done2, a.start2, n, OuterCursor(p));
    var f := FollowIndex(p.s2, 1, r.r2, r.tmpA, a.tail, a.done2);
    FollowCalm(p.s2, 1, r.r2, r.tmpA, a.tail, a.done2, a.head2, n, fixed);
    CalmBoth(f, RowTests(p) + RowOut(p), a.head2, n, fixed);
    assert InnerBody(p) == f + (RowTests(p) + RowOut(p));
  }

  // ---- the loops of the join --------------------------------------------------------------------------

  function OuterLoopOf(p: Plan): Loop
    requires p.JoinPlan?
  {
    Loop(JoinAddresses(p).head1, JoinAddresses(p).advance1, DriverCursor(p.s1.access, 0))
  }

  function InnerLoopOf(p: Plan): Loop
    requires p.JoinPlan?
  {
    Loop(JoinAddresses(p).head2, JoinAddresses(p).advance2, DriverCursor(p.s2.access, 1))
  }

  function LoopsOf(p: Plan): Nest
    requires p.JoinPlan?
  {
    if Loops(p.s1) then (if Loops(p.s2) then TwoLoops(OuterLoopOf(p), InnerLoopOf(p)) else OneLoop(OuterLoopOf(p)))
    else if Loops(p.s2) then OneLoop(InnerLoopOf(p)) else NoLoop
  }

  // Calm code inside a program.
  ghost predicate CalmFrom(ops: seq<Op>, lo: int, hi: int, fixed: set<int>) {
    && 0 <= lo <= hi <= |ops|
    && forall i :: lo <= i < hi ==>
         && (IsJump(ops[i].code) ==> i < ops[i].p2 <= |ops|)
         && (MovesCursor(ops[i].code) ==> ops[i].p1 !in fixed)
  }

  lemma CalmAt(ops: seq<Op>, at: nat, code: seq<Op>, fixed: set<int>)
    requires CodeAt(ops, at, code) && Calm(code, at, |ops|, fixed)
    ensures CalmFrom(ops, at, at + |code|, fixed)
  {
    forall i | at <= i < at + |code| ensures ops[i] == code[i - at] {
      assert ops[at + (i - at)] == code[i - at];
    }
  }

  lemma AdvancesAt(p: Plan)
    requires p.JoinPlan?
    ensures var ops, a := JoinCode(p), JoinAddresses(p);
      && a.advance2 < |ops| && a.advance1 < |ops| && |ops| == a.end
      && (Loops(p.s2) ==> ops[a.advance2] == MakeOp(AdvanceOf(p.s2.access), DriverCursor(p.s2.access, 1), a.head2, 0))
      && (Loops(p.s1) ==> ops[a.advance1] == MakeOp(AdvanceOf(p.s1.access), DriverCursor(p.s1.access, 0), a.head1, 0))
  {
    hide JoinCode, JoinAddresses, CodeAt, CloseSide, AdvanceOf, DriverCursor;
    var ops, a := JoinCode(p), JoinAddresses(p);
    TailLayout(p);
    AddressOrder(p);
    if Loops(p.s2) { FirstAt(ops, a.advance2, AdvanceLoop(p.s2, 1, a.head2)); }
    if Loops(p.s1) { FirstAt(ops, a.advance1, AdvanceLoop(p.s1, 0, a.head1)); }
  }

  // What lies behind the advance instructions.
  lemma EndsCalm(p: Plan)
    requires p.JoinPlan?
    ensures var a := JoinAddresses(p);
      |JoinCode(p)| == a.end && CalmFrom(JoinCode(p), a.tail, a.end, {})
  {
    hide JoinCode, JoinAddresses, CodeAt, Calm, CalmFrom, CloseSide, AdvanceLoop, AllocateRegs;
    var ops, a := JoinCode(p), JoinAddresses(p);
    TailLayout(p);
    EndLength(p);
    var c2, c1, h := CloseSide(p.s2, 1), CloseSide(p.s1, 0), [MakeOp(Op_Halt, 0, 0, 0)];
    TailLength(p);
    CloseCalm(p.s2, 1, a.tail, a.end);
    CloseCalm(p.s1, 0, a.tail + |c2|, a.end);
    CloseCalm(p.s1, 0, a.end - 1, a.end);
    CalmAt(ops, a.tail, c2, {});
    CalmAt(ops, a.tail + |c2|, c1, {});
    CalmAt(ops, a.end - 1, h, {});
    CalmJoins(ops, a.tail, a.tail + |c2|, a.tail + |c2| + |c1|, {});
    CalmJoins(ops, a.tail, a.end - 1, a.end, {});
  }

  lemma EndLength(p: Plan)
    requires p.JoinPlan?
    ensures |JoinCode(p)| == JoinAddresses(p).end && 0 <= JoinAddresses(p).tail
  {
    hide JoinCode, JoinAddresses;
    AddressOrder(p);
    AdvancesAt(p);
  }

  lemma TailLength(p: Plan)
    requires p.JoinPlan?
    ensures JoinAddresses(p).end == JoinAddresses(p).tail + |CloseSide(p.s2, 1)| + |CloseSide(p.s1, 0)| + 1
  {
    hide AllocateRegs, OpenSide, SideLiterals, PositionOnce, FollowIndex;
  }

  lemma FirstAt(ops: seq<Op>, at: nat, code: seq<Op>)
    requires CodeAt(ops, at, code) && code != []
    ensures at < |ops| && ops[at] == code[0]
  {
    assert ops[at + 0] == code[0];
  }

  lemma CalmJoins(ops: seq<Op>, lo: int, mid: int, hi: int, fixed: set<int>)
    requires CalmFrom(ops, lo, mid, fixed) && CalmFrom(ops, mid, hi, fixed)
    ensures CalmFrom(ops, lo, hi, fixed)
  {
  }

  // The whole program, part by part.
  lemma PartsCalm(p: Plan)
    requires JoinShaped(p)
    ensures var ops, a := JoinCode(p), JoinAddresses(p);
      && CalmFrom(ops, 0, a.head1, {}) && CalmFrom(ops, a.head1, a.head2, OuterCursor(p))
      && CalmFrom(ops, a.head2, a.advance2, OuterCursor(p) + InnerCursor(p)) && CalmFrom(ops, a.tail, a.end, {}) && |ops| == a.end
  {
    hide JoinCode, JoinAddresses, CodeAt, Calm, CalmFrom, AllocateRegs, JoinPrologue, JoinOuter, JoinInner, JoinTail, StartLoop,
      OuterBody, InnerBody, OuterCursor, InnerCursor;
    var ops, r, a := JoinCode(p), AllocateRegs(p), JoinAddresses(p);
    AddressOrder(p);
    JoinParts(p);
    BodiesAre(p);
    EndsCalm(p);
    PrologueCalm(p);
    OuterCalm(p);
    InnerCalm(p);
    var s1, s2 := StartLoop(p.s1, 0, r.r1, a.tail), StartLoop(p.s2, 1, r.r2, a.done2);
    CodeSplits(ops, a.start1, s1, OuterBody(p));
    CodeSplits(ops, a.start2, s2, InnerBody(p));
    CalmAt(ops, 0, JoinPrologue(p), {});
    CalmAt(ops, a.start1, s1, {});
    CalmAt(ops, a.head1, OuterBody(p), OuterCursor(p));
    CalmAt(ops, a.start2, s2, OuterCursor(p));
    CalmAt(ops, a.head2, InnerBody(p), OuterCursor(p) + InnerCursor(p));
    CalmJoins(ops, 0, a.start1, a.head1, {});
    CalmJoins(ops, a.head1, a.start2, a.head2, OuterCursor(p));
  }

  // Code that does not move a cursor.
  ghost predicate Untouched(ops: seq<Op>, lo: int, hi: int, c: int) {
    forall i :: lo <= i < hi && 0 <= i < |ops| ==> !(MovesCursor(ops[i].code) && ops[i].p1 == c)
  }

  lemma CalmUntouched(ops: seq<Op>, lo: int, hi: int, fixed: set<int>, c: int)
    requires CalmFrom(ops, lo, hi, fixed) && c in fixed
    ensures Untouched(ops, lo, hi, c)
  {
    hide IsJump, MovesCursor;
  }

  lemma UntouchedLoop(ops: seq<Op>, l: Loop)
    requires l.head <= l.last < |ops| && ops[l.last].code in {Op_Next, Op_Prev} && ops[l.last].p1 == l.cursor && ops[l.last].p2 == l.head
    requires Untouched(ops, l.head, l.last, l.cursor)
    ensures LoopOf(ops, l)
  {
    hide MovesCursor;
  }

  lemma CursorsOf(p: Plan)
    requires p.JoinPlan?
    ensures Loops(p.s1) ==> DriverCursor(p.s1.access, 0) in OuterCursor(p) && OuterLoopOf(p).cursor == DriverCursor(p.s1.access, 0)
    ensures Loops(p.s2) ==> DriverCursor(p.s2.access, 1) in InnerCursor(p) && InnerLoopOf(p).cursor == DriverCursor(p.s2.access, 1)
    ensures Loops(p.s1) && Loops(p.s2) ==> DriverCursor(p.s1.access, 0) != DriverCursor(p.s2.access, 1)
    ensures AdvanceOf(p.s1.access) in {Op_Next, Op_Prev} && AdvanceOf(p.s2.access) in {Op_Next, Op_Prev}
  {
    hide JoinAddresses;
  }

  lemma OuterIsLoop(p: Plan)
    requires p.JoinPlan? && JoinShaped(p) && Loops(p.s1)
    ensures LoopOf(JoinCode(p), OuterLoopOf(p))
  {
    hide JoinCode, JoinAddresses, JoinShaped, IsJump, MovesCursor, CalmFrom, LoopOf, AdvanceOf, DriverCursor, OuterCursor, InnerCursor;
    var ops, a, c := JoinCode(p), JoinAddresses(p), DriverCursor(p.s1.access, 0);
    AddressOrder(p);
    PartsCalm(p);
    AdvancesAt(p);
    CursorsOf(p);
    CalmUntouched(ops, a.head1, a.head2, OuterCursor(p), c);
    CalmUntouched(ops, a.head2, a.advance2, OuterCursor(p) + InnerCursor(p), c);
    assert Untouched(ops, a.head1, a.advance1, c);
    UntouchedLoop(ops, OuterLoopOf(p));
  }

  lemma InnerIsLoop(p: Plan)
    requires p.JoinPlan? && JoinShaped(p) && Loops(p.s2)
    ensures LoopOf(JoinCode(p), InnerLoopOf(p))
  {
    hide JoinCode, JoinAddresses, JoinShaped, IsJump, MovesCursor, CalmFrom, LoopOf, AdvanceOf, DriverCursor, OuterCursor, InnerCursor;
    var ops, a, c := JoinCode(p), JoinAddresses(p), DriverCursor(p.s2.access, 1);
    AddressOrder(p);
    PartsCalm(p);
    AdvancesAt(p);
    CursorsOf(p);
    CalmUntouched(ops, a.head2, a.advance2, OuterCursor(p) + InnerCursor(p), c);
    UntouchedLoop(ops, InnerLoopOf(p));
  }

  // Every jump but that of an advance instruction goes forward.
  lemma ElseForward(p: Plan)
    requires p.JoinPlan? && JoinShaped(p)
    ensures var ops, a := JoinCode(p), JoinAddresses(p);
      forall i :: 0 <= i < |ops| && IsJump(ops[i].code) && !(Loops(p.s1) && i == a.advance1) && !(Loops(p.s2) && i == a.advance2)
        ==> i < ops[i].p2 <= |ops|
  {
    hide JoinCode, JoinAddresses, JoinShaped, SourceShaped, IsJump, MovesCursor;
    AddressOrder(p);
    PartsCalm(p);
  }

  lemma JoinNested(p: Plan)
    requires p.JoinPlan? && JoinShaped(p)
    ensures WellNested(JoinCode(p), LoopsOf(p))
  {
    hide JoinCode, JoinAddresses, JoinShaped, LoopOf, IsJump;
    ElseForward(p);
    LoopsNest(p);
    if Loops(p.s1) { OuterIsLoop(p); }
    if Loops(p.s2) { InnerIsLoop(p); }
  }

  lemma LoopsNest(p: Plan)
    requires p.JoinPlan?
    ensures OuterLoopOf(p).last == JoinAddresses(p).advance1 && InnerLoopOf(p).last == JoinAddresses(p).advance2
    ensures OuterLoopOf(p).head <= InnerLoopOf(p).head && (Loops(p.s2) ==> InnerLoopOf(p).last < OuterLoopOf(p).last)
  {
    hide JoinCode, JoinAddresses;
    AddressOrder(p);
  }

  // Every join program whose comparisons are comparisons halts, on every database.
  lemma JoinHalts(p: Plan, m: Machine)
    requires p.JoinPlan? && JoinShaped(p) && m.pc == 0
    ensures Halts(JoinCode(p), m)
  {
    hide JoinCode, WellNested, Halts, JoinShaped, LoopsOf;
    JoinNested(p);
    NestedHalts(JoinCode(p), m, LoopsOf(p));
  }
}
