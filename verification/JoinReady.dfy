// The cursors of a compiled join: whatever the plan and the database, each is positioned
// wherever the program reads or advances it. A walk that fails to start goes behind its loop,
// where nothing needs its cursor.
module JoinReady {
  import opened Sql
  import opened Machine
  import opened Planner
  import opened Layout
  import opened JumpTargets
  import opened ControlFlow
  import opened CursorFlow
  import opened JoinFlow

  // ---- pieces --------------------------------------------------------------------------------------

  // No jump leads into a piece of code, or what it needs is there at every target inside.
  ghost predicate Covered(at: int, n: nat, a: set<int>, marks: map<int, set<int>>) {
    forall t :: t in marks && at <= t < at + n ==> a <= marks[t]
  }

  lemma QuietFlows(code: seq<Op>, at: int, a: set<int>, marks: map<int, set<int>>)
    requires forall i :: 0 <= i < |code| ==> !Needs(code[i].code) && !IsJump(code[i].code) && !MovesCursor(code[i].code)
    requires Covered(at, |code|, a, marks)
    ensures FlowsFrom(code, at, a, a, marks)
  {
    FlowsEvenly(code, at, a, marks);
  }

  lemma LoadsFlow(cmps: seq<ResolvedCmp>, base: int, at: int, a: set<int>, marks: map<int, set<int>>)
    requires Covered(at, |cmps|, a, marks)
    ensures FlowsFrom(LoadLiterals(cmps, base), at, a, a, marks)
  {
    QuietFlows(LoadLiterals(cmps, base), at, a, marks);
  }

  lemma OpensFlow(s: Source, side: nat, r: SideRegs, at: int, marks: map<int, set<int>>)
    requires Covered(at, |OpenSide(s, side, r)|, {}, marks)
    ensures FlowsFrom(OpenSide(s, side, r), at, {}, {}, marks)
  {
    FlowsEvenly(OpenSide(s, side, r), at, {}, marks);
  }

  lemma SideLiteralsFlow(s: Source, r: SideRegs, at: int, marks: map<int, set<int>>)
    requires Covered(at, |SideLiterals(s, r)|, {}, marks)
    ensures FlowsFrom(SideLiterals(s, r), at, {}, {}, marks)
  {
    QuietFlows(SideLiterals(s, r), at, {}, marks);
  }

  // The cursors through which a side's row is read, and the one that drives its walk.
  function SideCursors(s: Source, side: int): set<int> {
    if s.access.Scan? then {side} else {side, side + 2}
  }

  function OnceCursors(s: Source, side: int): set<int> {
    if s.access.EqSeek? then SideCursors(s, side) else {}
  }

  lemma OnceFlows(s: Source, side: nat, r: SideRegs, die: int, at: int, a: set<int>, marks: map<int, set<int>>)
    requires die in marks && marks[die] == {}
    requires forall t :: t in marks ==> !(at <= t < at + |PositionOnce(s, side, r, die)|)
    ensures FlowsFrom(PositionOnce(s, side, r, die), at, a, a + OnceCursors(s, side), marks)
  {
    var code := PositionOnce(s, side, r, die);
    if s.access.EqSeek? {
      var lives := [a, a + {side + 2}, a + {side + 2}, a + {side + 2, side}];
      assert Flows(code, at, lives, marks);
    } else {
      FlowsNothing(at, a, marks);
      assert a + OnceCursors(s, side) == a;
    }
  }

  lemma StartFlows(s: Source, side: nat, r: SideRegs, exit: int, at: int, a: set<int>, marks: map<int, set<int>>)
    requires Loops(s) ==> exit in marks && marks[exit] <= a - {side} && Covered(at, 1, a, marks)
    ensures FlowsFrom(StartLoop(s, side, r, exit), at, a, if Loops(s) then a + {DriverCursor(s.access, side)} else a, marks)
  {
    if Loops(s) {
      var op := StartLoop(s, side, r, exit)[0];
      FlowsOne(op, at, a, a + {DriverCursor(s.access, side)}, marks);
      assert [op] == StartLoop(s, side, r, exit);
    } else {
      FlowsNothing(at, a, marks);
    }
  }

  lemma FollowFlows(s: Source, side: nat, r: SideRegs, tmp: int, die: int, stop: int, at: int, a: set<int>, marks: map<int, set<int>>)
    requires SourceShaped(s) && (s.access.RangeSeek? ==> Covered(at, 1, a, marks))
    requires s.access.RangeSeek? ==> side + 2 in a && die in marks && stop in marks && marks[die] == {} && marks[stop] <= a
    requires forall t :: t in marks ==> !(at + 1 <= t < at + |FollowIndex(s, side, r, tmp, die, stop)|)
    ensures FlowsFrom(FollowIndex(s, side, r, tmp, die, stop), at, a, if s.access.RangeSeek? then a + {side} else a, marks)
  {
    hide OpFlows;
    var code, b := FollowIndex(s, side, r, tmp, die, stop), a + {side};
    if s.access.RangeSeek? {
      KeyFlows(side, r, die, a, marks);
      if HasUpper(s.access) {
        UpperFlows(s, side, r, tmp, stop, b, marks);
        assert Flows(code, at, [a, a, b, b, b], marks);
      } else {
        assert Flows(code, at, [a, a, b], marks);
      }
    } else {
      FlowsNothing(at, a, marks);
    }
  }

  lemma KeyFlows(side: nat, r: SideRegs, die: int, a: set<int>, marks: map<int, set<int>>)
    requires side + 2 in a && die in marks && marks[die] == {}
    ensures OpFlows(MakeOp(Op_IdxPKey, side + 2, r.pkey, 0), a, a, marks)
    ensures OpFlows(MakeOp(Op_Seek, side, die, r.pkey), a, a + {side}, marks)
  {
  }

  lemma UpperFlows(s: Source, side: nat, r: SideRegs, tmp: int, stop: int, b: set<int>, marks: map<int, set<int>>)
    requires SourceShaped(s) && HasUpper(s.access) && side in b && stop in marks && marks[stop] <= b
    ensures OpFlows(LoadColumn(s.columns, side, s.access.upper.value.col.idx, tmp), b, b, marks)
    ensures OpFlows(MakeOp(s.access.upper.value.op, r.upper, stop, tmp), b, b, marks)
  {
  }

  lemma RColFlows(c1: seq<Column>, c2: seq<Column>, rc: RCol, reg: int, a: set<int>, marks: map<int, set<int>>)
    requires (if rc.side == 0 then 0 else 1) in a
    ensures OpFlows(LoadRCol(c1, c2, rc, reg), a, a, marks)
  {
  }

  predicate ReadsWithin(rc: RCol, a: set<int>) {
    (if rc.side == 0 then 0 else 1) in a
  }

  // Code that needs and keeps the cursors a throughout.
  ghost predicate Even(code: seq<Op>, a: set<int>, marks: map<int, set<int>>) {
    forall i :: 0 <= i < |code| ==> OpFlows(code[i], a, a, marks)
  }

  lemma EvenBoth(code1: seq<Op>, code2: seq<Op>, a: set<int>, marks: map<int, set<int>>)
    requires Even(code1, a, marks) && Even(code2, a, marks)
    ensures Even(code1 + code2, a, marks)
  {
  }

  lemma JumpFlows(code: Opcode, p1: int, t: int, p3: int, a: set<int>, marks: map<int, set<int>>)
    requires code in {Op_Ne, Op_Le, Op_Lt, Op_Ge, Op_Gt} && t in marks && marks[t] <= a
    ensures OpFlows(MakeOp(code, p1, t, p3), a, a, marks)
  {
  }

  lemma {:induction false} ChecksFlow(c1: seq<Column>, c2: seq<Column>, cmps: seq<ResolvedCmp>, base: int, tmp: int, t: int,
                                      a: set<int>, marks: map<int, set<int>>)
    requires JoinFlow.Compares(cmps) && t in marks && marks[t] <= a && forall i :: 0 <= i < |cmps| ==> ReadsWithin(cmps[i].col, a)
    ensures Even(CheckAll(c1, c2, cmps, base, tmp, t), a, marks)
  {
    hide LoadRCol, OpFlows;
    if cmps != [] {
      var n := |cmps| - 1;
      ChecksFlow(c1, c2, cmps[..n], base, tmp, t, a, marks);
      RColFlows(c1, c2, cmps[n].col, tmp, a, marks);
      JumpFlows(cmps[n].op, base + n, t, tmp, a, marks);
      EvenBoth(CheckAll(c1, c2, cmps[..n], base, tmp, t),
        [LoadRCol(c1, c2, cmps[n].col, tmp), MakeOp(cmps[n].op, base + n, t, tmp)], a, marks);
    }
  }

  lemma {:induction false} PairsFlow(c1: seq<Column>, c2: seq<Column>, pairs: seq<(nat, nat)>, ra: int, rb: int, t: int,
                                     a: set<int>, marks: map<int, set<int>>)
    requires t in marks && marks[t] <= a && 0 in a && 1 in a
    ensures Even(CheckPairs(c1, c2, pairs, ra, rb, t), a, marks)
  {
    hide LoadRCol, OpFlows;
    if pairs != [] {
      var n := |pairs| - 1;
      PairsFlow(c1, c2, pairs[..n], ra, rb, t, a, marks);
      RColFlows(c1, c2, RCol(0, pairs[n].0), ra, a, marks);
      RColFlows(c1, c2, RCol(1, pairs[n].1), rb, a, marks);
      JumpFlows(Op_Ne, ra, t, rb, a, marks);
      EvenBoth(CheckPairs(c1, c2, pairs[..n], ra, rb, t),
        [LoadRCol(c1, c2, RCol(0, pairs[n].0), ra), LoadRCol(c1, c2, RCol(1, pairs[n].1), rb), MakeOp(Op_Ne, ra, t, rb)], a, marks);
    }
  }

  lemma OutputsFlow(c1: seq<Column>, c2: seq<Column>, out: seq<RCol>, base: int, a: set<int>, marks: map<int, set<int>>)
    requires 0 in a && 1 in a
    ensures Even(LoadOutputs(c1, c2, out, base) + [MakeOp(Op_ResultRow, base, |out|, 0)], a, marks)
  {
    hide LoadRCol;
    forall i | 0 <= i < |out| ensures OpFlows(LoadRCol(c1, c2, out[i], base + i), a, a, marks) {
      RColFlows(c1, c2, out[i], base + i, a, marks);
    }
  }

  // ---- the join --------------------------------------------------------------------------------------

  // The cursors that are positioned where the walk of a side goes on.
  function HeadCursors(s: Source, side: nat): set<int> {
    {DriverCursor(s.access, side)}
  }

  // Positioned before the loops; in the outer loop; in the inner loop.
  function Before(p: Plan): set<int>
    requires p.JoinPlan?
  {
    OnceCursors(p.s1, 0) + OnceCursors(p.s2, 1)
  }

  function Outside(p: Plan): set<int>
    requires p.JoinPlan?
  {
    SideCursors(p.s1, 0) + OnceCursors(p.s2, 1)
  }

  function Within(p: Plan): set<int>
    requires p.JoinPlan?
  {
    SideCursors(p.s1, 0) + SideCursors(p.s2, 1)
  }

  function AtDone(p: Plan): set<int>
    requires p.JoinPlan?
  {
    if Loops(p.s1) then Outside(p) else {}
  }

  function AtAdvance(p: Plan): set<int>
    requires p.JoinPlan?
  {
    if Loops(p.s2) then Within(p) else AtDone(p)
  }

  function AtHead1(p: Plan): set<int>
    requires p.JoinPlan?
  {
    OnceCursors(p.s2, 1) + HeadCursors(p.s1, 0)
  }

  function AtHead2(p: Plan): set<int>
    requires p.JoinPlan?
  {
    Outside(p) + HeadCursors(p.s2, 1)
  }

  // The targets of the jumps, and what is positioned there.
  function Targets(p: Plan): set<int>
    requires p.JoinPlan?
  {
    var a := JoinAddresses(p);
    {a.advance2 as int, a.done2, a.tail} + (if Loops(p.s1) then {a.head1 as int} else {}) + (if Loops(p.s2) then {a.head2 as int} else {})
  }

  function MarkAt(p: Plan, t: int): set<int>
    requires p.JoinPlan?
  {
    var a := JoinAddresses(p);
    if t == a.tail then {}
    else if t == a.done2 then AtDone(p)
    else if t == a.advance2 then AtAdvance(p)
    else if t == a.head2 && Loops(p.s2) then AtHead2(p)
    else AtHead1(p)
  }

  function JoinMarks(p: Plan): map<int, set<int>>
    requires p.JoinPlan?
  {
    map t | t in Targets(p) :: MarkAt(p, t)
  }

  lemma MarksAre(p: Plan)
    requires p.JoinPlan?
    ensures var a, marks := JoinAddresses(p), JoinMarks(p);
      && a.tail in marks && marks[a.tail] == {} && a.done2 in marks && marks[a.done2] == AtDone(p)
      && a.advance2 in marks && marks[a.advance2] == AtAdvance(p)
      && (Loops(p.s1) ==> a.head1 in marks && marks[a.head1] == AtHead1(p))
      && (Loops(p.s2) ==> a.head2 in marks && marks[a.head2] == AtHead2(p))
      && forall t :: t in marks ==> (t == a.head1 && Loops(p.s1)) || (t == a.head2 && Loops(p.s2)) || a.advance2 <= t <= a.tail
  {
    hide JoinAddresses, AtHead1, AtHead2, Outside, Within, JoinCode, JoinPrologue, JoinOuter, JoinInner, AllocateRegs;
    AddressOrder(p);
  }

  lemma EvenFlows(code: seq<Op>, at: int, a: set<int>, marks: map<int, set<int>>)
    requires Even(code, a, marks) && Covered(at, |code|, a, marks)
    ensures FlowsFrom(code, at, a, a, marks)
  {
    hide OpFlows;
    FlowsEvenly(code, at, a, marks);
  }

  // Before the first head nothing is a target.
  lemma NothingEarly(p: Plan, at: int, n: nat, a: set<int>)
    requires p.JoinPlan? && at + n <= JoinAddresses(p).start1 + 1
    ensures Covered(at, n, a, JoinMarks(p))
    ensures forall t :: t in JoinMarks(p) ==> !(at <= t < at + n)
  {
    hide JoinAddresses, JoinMarks, AllocateRegs, JoinCode, JoinPrologue, JoinOuter, JoinInner;
    MarksAre(p);
    AddressOrder(p);
  }

  lemma PrologueFlows(p: Plan)
    requires p.JoinPlan?
    ensures FlowsFrom(JoinPrologue(p), 0, {}, Before(p), JoinMarks(p))
  {
    hide JoinAddresses, AllocateRegs, OpenSide, SideLiterals, PositionOnce, LoadLiterals, FlowsFrom, Covered, JoinMarks, JoinCode, JoinOuter,
      JoinInner, SideCursors, OnceCursors;
    var r, a, marks := AllocateRegs(p), JoinAddresses(p), JoinMarks(p);
    AddressOrder(p);
    PrologueLength(p);
    MarksAre(p);
    var o1, o2, l1, l2 := OpenSide(p.s1, 0, r.r1), OpenSide(p.s2, 1, r.r2), SideLiterals(p.s1, r.r1), SideLiterals(p.s2, r.r2);
    var p1, p2 := PositionOnce(p.s1, 0, r.r1, a.tail), PositionOnce(p.s2, 1, r.r2, a.tail);
    var k2, k3, k4, k5 := o1 + o2, o1 + o2 + l1, o1 + o2 + l1 + l2, o1 + o2 + l1 + l2 + p1;
    var e1, e2 := OnceCursors(p.s1, 0), OnceCursors(p.s2, 1);
    NothingEarly(p, 0, |o1|, {});
    OpensFlow(p.s1, 0, r.r1, 0, marks);
    NothingEarly(p, |o1|, |o2|, {});
    OpensFlow(p.s2, 1, r.r2, |o1|, marks);
    FlowsThen(o1, o2, 0, {}, {}, {}, marks);
    NothingEarly(p, |k2|, |l1|, {});
    SideLiteralsFlow(p.s1, r.r1, |k2|, marks);
    FlowsThen(k2, l1, 0, {}, {}, {}, marks);
    NothingEarly(p, |k3|, |l2|, {});
    SideLiteralsFlow(p.s2, r.r2, |k3|, marks);
    FlowsThen(k3, l2, 0, {}, {}, {}, marks);
    NothingEarly(p, |k4|, |p1|, {});
    OnceFlows(p.s1, 0, r.r1, a.tail, |k4|, {}, marks);
    assert {} + e1 == e1;
    FlowsThen(k4, p1, 0, {}, {}, e1, marks);
    NothingEarly(p, |k5|, |p2|, {});
    OnceFlows(p.s2, 1, r.r2, a.tail, |k5|, e1, marks);
    FlowsThen(k5, p2, 0, {}, e1, Before(p), marks);
    LiteralsFlow(p, k5 + p2);
  }

  lemma LiteralsFlow(p: Plan, k6: seq<Op>)
    requires p.JoinPlan? && FlowsFrom(k6, 0, {}, Before(p), JoinMarks(p))
    requires |k6| + |p.s1.filter| + |p.s2.filter| + |p.top| == JoinAddresses(p).start1
    ensures var r := AllocateRegs(p);
      FlowsFrom(k6 + LoadLiterals(p.s1.filter, r.lits) + LoadLiterals(p.s2.filter, r.lits + |p.s1.filter|)
                + LoadLiterals(p.top, r.lits + |p.s1.filter| + |p.s2.filter|), 0, {}, Before(p), JoinMarks(p))
  {
    hide JoinAddresses, AllocateRegs, LoadLiterals, FlowsFrom, Covered, JoinMarks, Before;
    var r, b, marks := AllocateRegs(p), Before(p), JoinMarks(p);
    var f1, f2 := LoadLiterals(p.s1.filter, r.lits), LoadLiterals(p.s2.filter, r.lits + |p.s1.filter|);
    var f3 := LoadLiterals(p.top, r.lits + |p.s1.filter| + |p.s2.filter|);
    NothingEarly(p, |k6|, |f1|, b);
    LoadsFlow(p.s1.filter, r.lits, |k6|, b, marks);
    FlowsThen(k6, f1, 0, {}, b, b, marks);
    NothingEarly(p, |k6 + f1|, |f2|, b);
    LoadsFlow(p.s2.filter, r.lits + |p.s1.filter|, |k6 + f1|, b, marks);
    FlowsThen(k6 + f1, f2, 0, {}, b, b, marks);
    NothingEarly(p, |k6 + f1 + f2|, |f3|, b);
    LoadsFlow(p.top, r.lits + |p.s1.filter| + |p.s2.filter|, |k6 + f1 + f2|, b, marks);
    FlowsThen(k6 + f1 + f2, f3, 0, {}, b, b, marks);
  }

  // ---- the outer loop ---------------------------------------------------------------------------------

  lemma OuterStartFlows(p: Plan)
    requires p.JoinPlan?
    ensures var r, a := AllocateRegs(p), JoinAddresses(p);
      FlowsFrom(StartLoop(p.s1, 0, r.r1, a.tail), a.start1, Before(p), if Loops(p.s1) then AtHead1(p) else Outside(p), JoinMarks(p))
  {
    hide JoinAddresses, AllocateRegs, StartLoop, FlowsFrom, Covered, JoinMarks, JoinCode, JoinOuter, JoinInner, JoinPrologue, DriverCursor;
    var r, a := AllocateRegs(p), JoinAddresses(p);
    MarksAre(p);
    NothingEarly(p, a.start1, 1, Before(p));
    StartFlows(p.s1, 0, r.r1, a.tail, a.start1, Before(p), JoinMarks(p));
    assert Loops(p.s1) ==> Before(p) + {DriverCursor(p.s1.access, 0)} == AtHead1(p);
    assert !Loops(p.s1) ==> Before(p) == Outside(p);
  }

  // The cursors at the head of a scan are those of its row.
  lemma ScanHeads(p: Plan)
    requires p.JoinPlan?
    ensures p.s1.access.Scan? ==> AtHead1(p) == Outside(p)
    ensures p.s2.access.Scan? ==> AtHead2(p) == Within(p)
    ensures p.s1.access.RangeSeek? ==> 2 in AtHead1(p) && AtHead1(p) + {0} == Outside(p)
    ensures p.s2.access.RangeSeek? ==> 3 in AtHead2(p) && AtHead2(p) + {1} == Within(p)
    ensures p.s1.access.EqSeek? ==> Before(p) == Outside(p)
    ensures p.s2.access.EqSeek? ==> Outside(p) == Within(p)
    ensures 0 in Outside(p) && 0 in Within(p) && 1 in Within(p) && Outside(p) <= Within(p)
    ensures Loops(p.s1) ==> DriverCursor(p.s1.access, 0) in Outside(p)
    ensures Loops(p.s2) ==> DriverCursor(p.s2.access, 1) in Within(p) && 1 !in Outside(p)
  {
  }

  lemma OuterBodyFlows(p: Plan)
    requires JoinShaped(p) && p.JoinPlan? && LeftReadsLeft(p)
    ensures FlowsFrom(OuterBody(p), JoinAddresses(p).head1, if Loops(p.s1) then AtHead1(p) else Outside(p), Outside(p), JoinMarks(p))
  {
    hide JoinAddresses, AllocateRegs, FlowsFrom, JoinMarks, JoinCode, JoinOuter, JoinInner, JoinPrologue, DriverCursor,
      AtHead1, AtHead2, Outside, Within, CheckAll, FollowIndex, Even, AtAdvance, OuterBody;
    var r, a, marks := AllocateRegs(p), JoinAddresses(p), JoinMarks(p);
    MarksAre(p);
    ScanHeads(p);
    AddressOrder(p);
    BodiesAre(p);
    var checks := CheckAll(p.s1.columns, p.s2.columns, p.s1.filter, r.lits, r.tmpA, a.advance1);
    var follow := FollowIndex(p.s1, 0, r.r1, r.tmpA, a.tail, a.tail);
    assert OuterBody(p) == checks + follow by { BodyIs(p); }
    if p.s1.access.Scan? {
      ChecksFlow(p.s1.columns, p.s2.columns, p.s1.filter, r.lits, r.tmpA, a.advance1, Outside(p), marks);
      EvenFlows(checks, a.head1, Outside(p), marks);
      NoFollow(p.s1, 0, r.r1, r.tmpA, a.tail, a.tail);
      assert checks + follow == checks;
    } else {
      assert checks == [] by { NoChecks(p.s1.columns, p.s2.columns, r.lits, r.tmpA, a.advance1); }
      assert checks + follow == follow;
      FollowFlows(p.s1, 0, r.r1, r.tmpA, a.tail, a.tail, a.head1, if Loops(p.s1) then AtHead1(p) else Outside(p), marks);
    }
  }

  lemma BodyIs(p: Plan)
    requires p.JoinPlan?
    ensures var r, a := AllocateRegs(p), JoinAddresses(p);
      OuterBody(p) == CheckAll(p.s1.columns, p.s2.columns, p.s1.filter, r.lits, r.tmpA, a.advance1)
                      + FollowIndex(p.s1, 0, r.r1, r.tmpA, a.tail, a.tail)
  {
  }

  lemma NoFollow(s: Source, side: nat, r: SideRegs, tmp: int, die: int, stop: int)
    requires !s.access.RangeSeek?
    ensures FollowIndex(s, side, r, tmp, die, stop) == []
  {
  }

  lemma NoChecks(c1: seq<Column>, c2: seq<Column>, base: int, tmp: int, t: int)
    ensures CheckAll(c1, c2, [], base, tmp, t) == []
  {
  }

  // ---- the inner loop ---------------------------------------------------------------------------------

  // Where the heads of the loops lie.
  lemma HeadsLie(p: Plan)
    requires p.JoinPlan?
    ensures var a := JoinAddresses(p);
      && (p.s1.access.RangeSeek? ==> a.head1 < a.start2) && (p.s2.access.RangeSeek? ==> a.head2 < a.pairs)
      && (!p.s2.access.RangeSeek? ==> a.head2 == a.pairs) && (p.s1.access.Scan? || p.s1.access.EqSeek? || p.s1.access.RangeSeek?)
  {
    hide AllocateRegs, OpenSide, SideLiterals, PositionOnce, CloseSide;
  }

  lemma InnerStartFlows(p: Plan)
    requires p.JoinPlan?
    ensures var r, a := AllocateRegs(p), JoinAddresses(p);
      FlowsFrom(StartLoop(p.s2, 1, r.r2, a.done2), a.start2, Outside(p), if Loops(p.s2) then AtHead2(p) else Within(p), JoinMarks(p))
  {
    hide JoinAddresses, AllocateRegs, StartLoop, FlowsFrom, JoinMarks, JoinCode, JoinOuter, JoinInner, JoinPrologue, DriverCursor,
      Outside, Within, AtHead1;
    var r, a := AllocateRegs(p), JoinAddresses(p);
    MarksAre(p);
    ScanHeads(p);
    HeadsLie(p);
    AddressOrder(p);
    assert Loops(p.s2) ==> Covered(a.start2, 1, Outside(p), JoinMarks(p));
    StartFlows(p.s2, 1, r.r2, a.done2, a.start2, Outside(p), JoinMarks(p));
  }

  lemma TestsFlow(p: Plan)
    requires JoinShaped(p) && p.JoinPlan?
    ensures Even(RowTests(p) + RowOut(p), Within(p), JoinMarks(p))
  {
    hide JoinAddresses, AllocateRegs, JoinMarks, CheckAll, CheckPairs, LoadOutputs, Even, Within, AtDone;
    var r, a, marks, w := AllocateRegs(p), JoinAddresses(p), JoinMarks(p), Within(p);
    var c1, c2 := p.s1.columns, p.s2.columns;
    MarksAre(p);
    ScanHeads(p);
    DoneIsLess(p);
    var t1 := CheckPairs(c1, c2, p.pairs, r.tmpA, r.tmpB, a.advance2);
    var t2 := CheckAll(c1, c2, p.s2.filter, r.lits + |p.s1.filter|, r.tmpA, a.advance2);
    var t3 := CheckAll(c1, c2, p.top, r.lits + |p.s1.filter| + |p.s2.filter|, r.tmpA, a.advance2);
    PairsFlow(c1, c2, p.pairs, r.tmpA, r.tmpB, a.advance2, w, marks);
    ChecksFlow(c1, c2, p.s2.filter, r.lits + |p.s1.filter|, r.tmpA, a.advance2, w, marks);
    ChecksFlow(c1, c2, p.top, r.lits + |p.s1.filter| + |p.s2.filter|, r.tmpA, a.advance2, w, marks);
    OutputsFlow(c1, c2, p.out, r.out, w, marks);
    EvenBoth(t1, t2, w, marks);
    EvenBoth(t1 + t2, t3, w, marks);
    EvenBoth(t1 + t2 + t3, RowOut(p), w, marks);
  }

  lemma DoneIsLess(p: Plan)
    requires p.JoinPlan?
    ensures AtDone(p) <= Outside(p) <= Within(p) && AtAdvance(p) <= Within(p)
  {
  }

  lemma InnerBodyFlows(p: Plan)
    requires JoinShaped(p) && p.JoinPlan?
    ensures FlowsFrom(InnerBody(p), JoinAddresses(p).head2, if Loops(p.s2) then AtHead2(p) else Within(p), Within(p), JoinMarks(p))
  {
    hide JoinAddresses, AllocateRegs, FlowsFrom, JoinMarks, JoinCode, JoinOuter, JoinInner, JoinPrologue, DriverCursor,
      AtHead1, AtHead2, Outside, Within, FollowIndex, Even, AtAdvance, AtDone, RowTests, RowOut;
    var r, a, marks := AllocateRegs(p), JoinAddresses(p), JoinMarks(p);
    MarksAre(p);
    ScanHeads(p);
    HeadsLie(p);
    AddressOrder(p);
    DoneIsLess(p);
    BodiesAre(p);
    TestsCalm(p, {});
    TestsFlow(p);
    var follow, tests := FollowIndex(p.s2, 1, r.r2, r.tmpA, a.tail, a.done2), RowTests(p) + RowOut(p);
    assert InnerBody(p) == follow + tests;
    assert Covered(a.pairs, |tests|, Within(p), marks);
    EvenFlows(tests, a.pairs, Within(p), marks);
    if p.s2.access.RangeSeek? {
      DoneAtHead(p);
      FollowFlows(p.s2, 1, r.r2, r.tmpA, a.tail, a.done2, a.head2, AtHead2(p), marks);
      assert |follow| == a.pairs - a.head2;
      FlowsThen(follow, tests, a.head2, AtHead2(p), Within(p), Within(p), marks);
    } else {
      NoFollow(p.s2, 1, r.r2, r.tmpA, a.tail, a.done2);
      assert follow + tests == tests;
    }
  }

  lemma DoneAtHead(p: Plan)
    requires p.JoinPlan?
    ensures AtDone(p) <= AtHead2(p)
  {
  }

  // ---- the end ------------------------------------------------------------------------------------------

  lemma FlowsLess(code: seq<Op>, at: int, a: set<int>, b: set<int>, b': set<int>, marks: map<int, set<int>>)
    requires FlowsFrom(code, at, a, b, marks) && b' <= b
    ensures FlowsFrom(code, at, a, b', marks)
  {
    hide Flows;
  }

  lemma AdvancesFlow(p: Plan)
    requires p.JoinPlan?
    ensures var a := JoinAddresses(p);
      && FlowsFrom(AdvanceLoop(p.s2, 1, a.head2), a.advance2, Within(p), Outside(p), JoinMarks(p))
      && FlowsFrom(AdvanceLoop(p.s1, 0, a.head1), a.done2, Outside(p), {}, JoinMarks(p))
  {
    hide JoinAddresses, FlowsFrom, JoinMarks, Outside, Within, AtHead1, AtHead2;
    var a, marks := JoinAddresses(p), JoinMarks(p);
    MarksAre(p);
    ScanHeads(p);
    HeadsWithin(p);
    if Loops(p.s2) {
      FlowsOne(AdvanceLoop(p.s2, 1, a.head2)[0], a.advance2, Within(p), Outside(p), marks);
      assert AdvanceLoop(p.s2, 1, a.head2) == [AdvanceLoop(p.s2, 1, a.head2)[0]];
    } else {
      FlowsNothing(a.advance2, Within(p), marks);
    }
    if Loops(p.s1) {
      FlowsOne(AdvanceLoop(p.s1, 0, a.head1)[0], a.done2, Outside(p), {}, marks);
      assert AdvanceLoop(p.s1, 0, a.head1) == [AdvanceLoop(p.s1, 0, a.head1)[0]];
    } else {
      FlowsNothing(a.done2, Outside(p), marks);
      FlowsLess([], a.done2, Outside(p), Outside(p), {}, marks);
    }
  }

  lemma HeadsWithin(p: Plan)
    requires p.JoinPlan?
    ensures AtHead1(p) <= Outside(p) && AtHead2(p) <= Within(p)
  {
  }

  lemma CloseFlows(p: Plan)
    requires p.JoinPlan?
    ensures FlowsFrom(CloseSide(p.s2, 1) + CloseSide(p.s1, 0) + [MakeOp(Op_Halt, 0, 0, 0)], JoinAddresses(p).tail, {}, {}, JoinMarks(p))
  {
    hide JoinAddresses, JoinMarks;
    var code := CloseSide(p.s2, 1) + CloseSide(p.s1, 0) + [MakeOp(Op_Halt, 0, 0, 0)];
    FlowsEvenly(code, JoinAddresses(p).tail, {}, JoinMarks(p));
  }

  lemma TailFlows(p: Plan)
    requires p.JoinPlan?
    ensures FlowsFrom(JoinTail(p), JoinAddresses(p).advance2, Within(p), {}, JoinMarks(p))
  {
    hide JoinAddresses, FlowsFrom, JoinMarks, AdvanceLoop, CloseSide, Outside, Within, JoinCode, JoinOuter, JoinInner, JoinPrologue;
    var a, marks := JoinAddresses(p), JoinMarks(p);
    AddressOrder(p);
    AdvancesFlow(p);
    CloseFlows(p);
    AdvanceLengths(p);
    var v2, v1, c := AdvanceLoop(p.s2, 1, a.head2), AdvanceLoop(p.s1, 0, a.head1),
      CloseSide(p.s2, 1) + CloseSide(p.s1, 0) + [MakeOp(Op_Halt, 0, 0, 0)];
    FlowsThen(v2, v1, a.advance2, Within(p), Outside(p), {}, marks);
    FlowsThen(v2 + v1, c, a.advance2, Within(p), {}, {}, marks);
    assert JoinTail(p) == v2 + v1 + c;
  }

  lemma AdvanceLengths(p: Plan)
    requires p.JoinPlan?
    ensures var a := JoinAddresses(p);
      |AdvanceLoop(p.s2, 1, a.head2)| == B2N(Loops(p.s2)) && |AdvanceLoop(p.s1, 0, a.head1)| == B2N(Loops(p.s1))
  {
    hide JoinAddresses;
  }

  lemma JoinFlows(p: Plan)
    requires p.JoinPlan? && JoinShaped(p) && LeftReadsLeft(p)
    ensures FlowsFrom(JoinCode(p), 0, {}, {}, JoinMarks(p))
  {
    hide JoinAddresses, AllocateRegs, FlowsFrom, JoinMarks, JoinPrologue, JoinOuter, JoinInner, JoinTail, Before, Outside, Within, AtHead1,
      AtHead2, StartLoop, OuterBody, InnerBody, JoinShaped, LeftReadsLeft;
    var r, a, marks := AllocateRegs(p), JoinAddresses(p), JoinMarks(p);
    AddressOrder(p);
    BodiesAre(p);
    PrologueFlows(p);
    OuterStartFlows(p);
    OuterBodyFlows(p);
    InnerStartFlows(p);
    InnerBodyFlows(p);
    TailFlows(p);
    var h1, h2 := if Loops(p.s1) then AtHead1(p) else Outside(p), if Loops(p.s2) then AtHead2(p) else Within(p);
    FlowsThen(StartLoop(p.s1, 0, r.r1, a.tail), OuterBody(p), a.start1, Before(p), h1, Outside(p), marks);
    FlowsThen(StartLoop(p.s2, 1, r.r2, a.done2), InnerBody(p), a.start2, Outside(p), h2, Within(p), marks);
    FlowsThen(JoinPrologue(p), JoinOuter(p), 0, {}, Before(p), Outside(p), marks);
    FlowsThen(JoinPrologue(p) + JoinOuter(p), JoinInner(p), 0, {}, Outside(p), Within(p), marks);
    FlowsThen(JoinPrologue(p) + JoinOuter(p) + JoinInner(p), JoinTail(p), 0, {}, Within(p), {}, marks);
  }

  // For every plan whose comparisons are comparisons and whose left filter reads the left table,
  // and for every database.
  lemma JoinCursorsReady(p: Plan, m: Machine)
    requires p.JoinPlan? && JoinShaped(p) && LeftReadsLeft(p) && m.pc == 0
    ensures CursorsReady(JoinCode(p), m)
  {
    hide JoinCode, JoinAddresses, JoinMarks, CursorsReady, FlowsFrom, JoinShaped;
    JoinFlows(p);
    AddressOrder(p);
    MarksAre(p);
    FlowIsReady(JoinCode(p), m, JoinMarks(p));
  }
}
