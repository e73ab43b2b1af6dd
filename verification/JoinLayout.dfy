// The pieces of the join program are where the address map says.
module JoinLayout {
  import opened Common
  import opened Sql
  import opened Values
  import opened Machine
  import opened Planner
  import opened Layout

  lemma CodeSplits(ops: seq<Op>, at: nat, a: seq<Op>, b: seq<Op>)
    requires CodeAt(ops, at, a + b)
    ensures CodeAt(ops, at, a) && CodeAt(ops, at + |a|, b)
  {
    forall i | 0 <= i < |a| ensures ops[at + i] == a[i] {
      assert (a + b)[i] == a[i];
    }
    forall i | 0 <= i < |b| ensures ops[at + |a| + i] == b[i] {
      assert (a + b)[|a| + i] == b[i];
      assert ops[at + (|a| + i)] == (a + b)[|a| + i];
    }
  }

  // The four parts of the program.
  lemma JoinParts(p: Plan)
    requires p.JoinPlan?
    ensures var ops, n1, n2, n3 := JoinCode(p), |JoinPrologue(p)|, |JoinOuter(p)|, |JoinInner(p)|;
      && CodeAt(ops, 0, JoinPrologue(p)) && CodeAt(ops, n1, JoinOuter(p))
      && CodeAt(ops, n1 + n2, JoinInner(p)) && CodeAt(ops, n1 + n2 + n3, JoinTail(p))
  {
    hide JoinPrologue, JoinOuter, JoinInner, JoinTail;
    var ops := JoinCode(p);
    CodeSplits(ops, 0, JoinPrologue(p) + JoinOuter(p) + JoinInner(p), JoinTail(p));
    CodeSplits(ops, 0, JoinPrologue(p) + JoinOuter(p), JoinInner(p));
    CodeSplits(ops, 0, JoinPrologue(p), JoinOuter(p));
  }

  lemma OnceLength(s: Source, side: nat, r: SideRegs, die: int)
    ensures |PositionOnce(s, side, r, die)| == |PositionOnce(s, side, r, 0)|
  {
  }

  lemma FollowLength(s: Source, side: nat, r: SideRegs, tmp: int, die: int, stop: int)
    ensures |FollowIndex(s, side, r, tmp, die, stop)| == |FollowIndex(s, side, r, 0, 0, 0)|
  {
  }

  // Lengths of the parts in terms of the address map.
  lemma PartLengths(p: Plan)
    requires p.JoinPlan?
    ensures var a := JoinAddresses(p);
      && |JoinPrologue(p)| == a.start1
      && |JoinPrologue(p)| + |JoinOuter(p)| == a.start2
      && |JoinPrologue(p)| + |JoinOuter(p)| + |JoinInner(p)| == a.advance2
      && |JoinCode(p)| == a.end
  {
    hide AllocateRegs, OpenSide, SideLiterals, PositionOnce, FollowIndex, CloseSide, CheckAll, CheckPairs;
    var r, a := AllocateRegs(p), JoinAddresses(p);
    OnceLength(p.s1, 0, r.r1, a.tail);
    OnceLength(p.s2, 1, r.r2, a.tail);
    FollowLength(p.s1, 0, r.r1, r.tmpA, a.tail, a.tail);
    FollowLength(p.s2, 1, r.r2, r.tmpA, a.tail, a.done2);
  }

  lemma PrologueLayout(p: Plan)
    requires p.JoinPlan?
    ensures var ops, r, a := JoinCode(p), AllocateRegs(p), JoinAddresses(p);
      && CodeAt(ops, 0, OpenSide(p.s1, 0, r.r1))
      && CodeAt(ops, |OpenSide(p.s1, 0, r.r1)|, OpenSide(p.s2, 1, r.r2))
      && CodeAt(ops, a.lits, SideLiterals(p.s1, r.r1))
      && CodeAt(ops, a.lits + |SideLiterals(p.s1, r.r1)|, SideLiterals(p.s2, r.r2))
      && CodeAt(ops, a.once1, PositionOnce(p.s1, 0, r.r1, a.tail))
      && CodeAt(ops, a.once2, PositionOnce(p.s2, 1, r.r2, a.tail))
      && CodeAt(ops, a.filters, LoadLiterals(p.s1.filter, r.lits))
      && CodeAt(ops, a.filters + |p.s1.filter|, LoadLiterals(p.s2.filter, r.lits + |p.s1.filter|))
      && CodeAt(ops, a.filters + |p.s1.filter| + |p.s2.filter|,
                LoadLiterals(p.top, r.lits + |p.s1.filter| + |p.s2.filter|))
  {
    hide CodeAt, JoinCode, JoinOuter, JoinInner, JoinTail, CheckAll, CheckPairs, AllocateRegs;
    hide OpenSide, SideLiterals, PositionOnce, FollowIndex, CloseSide;
    var ops, r, a := JoinCode(p), AllocateRegs(p), JoinAddresses(p);
    OnceLength(p.s1, 0, r.r1, a.tail);
    OnceLength(p.s2, 1, r.r2, a.tail);
    JoinParts(p);
    var c1, c2 := OpenSide(p.s1, 0, r.r1), OpenSide(p.s2, 1, r.r2);
    var c3, c4 := SideLiterals(p.s1, r.r1), SideLiterals(p.s2, r.r2);
    var c5, c6 := PositionOnce(p.s1, 0, r.r1, a.tail), PositionOnce(p.s2, 1, r.r2, a.tail);
    var c7 := LoadLiterals(p.s1.filter, r.lits);
    var c8 := LoadLiterals(p.s2.filter, r.lits + |p.s1.filter|);
    var c9 := LoadLiterals(p.top, r.lits + |p.s1.filter| + |p.s2.filter|);
    NinePieces(ops, JoinPrologue(p), c1, c2, c3, c4, c5, c6, c7, c8, c9);
  }

  lemma NinePieces(ops: seq<Op>, code: seq<Op>, c1: seq<Op>, c2: seq<Op>, c3: seq<Op>, c4: seq<Op>, c5: seq<Op>,
                   c6: seq<Op>, c7: seq<Op>, c8: seq<Op>, c9: seq<Op>)
    requires code == c1 + c2 + c3 + c4 + c5 + c6 + c7 + c8 + c9 && CodeAt(ops, 0, code)
    ensures CodeAt(ops, 0, c1) && CodeAt(ops, |c1|, c2) && CodeAt(ops, |c1| + |c2|, c3)
    ensures CodeAt(ops, |c1| + |c2| + |c3|, c4) && CodeAt(ops, |c1| + |c2| + |c3| + |c4|, c5)
    ensures CodeAt(ops, |c1| + |c2| + |c3| + |c4| + |c5|, c6)
    ensures CodeAt(ops, |c1| + |c2| + |c3| + |c4| + |c5| + |c6|, c7)
    ensures CodeAt(ops, |c1| + |c2| + |c3| + |c4| + |c5| + |c6| + |c7|, c8)
    ensures CodeAt(ops, |c1| + |c2| + |c3| + |c4| + |c5| + |c6| + |c7| + |c8|, c9)
  {
    hide CodeAt;
    CodeSplits(ops, 0, c1 + c2 + c3 + c4 + c5 + c6 + c7 + c8, c9);
    CodeSplits(ops, 0, c1 + c2 + c3 + c4 + c5 + c6 + c7, c8);
    CodeSplits(ops, 0, c1 + c2 + c3 + c4 + c5 + c6, c7);
    CodeSplits(ops, 0, c1 + c2 + c3 + c4 + c5, c6);
    CodeSplits(ops, 0, c1 + c2 + c3 + c4, c5);
    CodeSplits(ops, 0, c1 + c2 + c3, c4);
    CodeSplits(ops, 0, c1 + c2, c3);
    CodeSplits(ops, 0, c1, c2);
  }

  lemma OuterLayout(p: Plan)
    requires p.JoinPlan?
    ensures var ops, r, a := JoinCode(p), AllocateRegs(p), JoinAddresses(p);
      && CodeAt(ops, a.start1, StartLoop(p.s1, 0, r.r1, a.tail))
      && CodeAt(ops, a.head1, CheckAll(p.s1.columns, p.s2.columns, p.s1.filter, r.lits, r.tmpA, a.advance1))
      && CodeAt(ops, a.head1 + 2 * |p.s1.filter|, FollowIndex(p.s1, 0, r.r1, r.tmpA, a.tail, a.tail))
  {
    hide CodeAt, JoinCode, JoinPrologue, JoinInner, JoinTail, CheckAll, CheckPairs;
    var ops, r, a := JoinCode(p), AllocateRegs(p), JoinAddresses(p);
    JoinParts(p);
    PartLengths(p);
    var c1 := StartLoop(p.s1, 0, r.r1, a.tail);
    var c2 := CheckAll(p.s1.columns, p.s2.columns, p.s1.filter, r.lits, r.tmpA, a.advance1);
    var c3 := FollowIndex(p.s1, 0, r.r1, r.tmpA, a.tail, a.tail);
    ThreePieces(ops, a.start1, JoinOuter(p), c1, c2, c3);
  }

  lemma ThreePieces(ops: seq<Op>, at: nat, code: seq<Op>, c1: seq<Op>, c2: seq<Op>, c3: seq<Op>)
    requires code == c1 + c2 + c3 && CodeAt(ops, at, code)
    ensures CodeAt(ops, at, c1) && CodeAt(ops, at + |c1|, c2) && CodeAt(ops, at + |c1| + |c2|, c3)
  {
    hide CodeAt;
    CodeSplits(ops, at, c1 + c2, c3);
    CodeSplits(ops, at, c1, c2);
  }

  lemma InnerLayout(p: Plan)
    requires p.JoinPlan?
    ensures var ops, r, a := JoinCode(p), AllocateRegs(p), JoinAddresses(p);
      && CodeAt(ops, a.start2, StartLoop(p.s2, 1, r.r2, a.done2))
      && CodeAt(ops, a.head2, FollowIndex(p.s2, 1, r.r2, r.tmpA, a.tail, a.done2))
      && CodeAt(ops, a.pairs, CheckPairs(p.s1.columns, p.s2.columns, p.pairs, r.tmpA, r.tmpB, a.advance2))
      && CodeAt(ops, a.checks2, CheckAll(p.s1.columns, p.s2.columns, p.s2.filter, r.lits + |p.s1.filter|, r.tmpA, a.advance2))
      && CodeAt(ops, a.checksTop,
                CheckAll(p.s1.columns, p.s2.columns, p.top, r.lits + |p.s1.filter| + |p.s2.filter|, r.tmpA, a.advance2))
      && CodeAt(ops, a.outs, LoadOutputs(p.s1.columns, p.s2.columns, p.out, r.out))
      && CodeAt(ops, a.row, [MakeOp(Op_ResultRow, r.out, |p.out|, 0)])
  {
    hide CodeAt, JoinCode, JoinPrologue, JoinOuter, JoinTail, CheckAll, CheckPairs, AllocateRegs;
    hide OpenSide, SideLiterals, PositionOnce, FollowIndex, CloseSide;
    var ops, r, a := JoinCode(p), AllocateRegs(p), JoinAddresses(p);
    FollowLength(p.s2, 1, r.r2, r.tmpA, a.tail, a.done2);
    JoinParts(p);
    PartLengths(p);
    var c1 := StartLoop(p.s2, 1, r.r2, a.done2);
    var c2 := FollowIndex(p.s2, 1, r.r2, r.tmpA, a.tail, a.done2);
    var c3 := CheckPairs(p.s1.columns, p.s2.columns, p.pairs, r.tmpA, r.tmpB, a.advance2);
    var c4 := CheckAll(p.s1.columns, p.s2.columns, p.s2.filter, r.lits + |p.s1.filter|, r.tmpA, a.advance2);
    var c5 := CheckAll(p.s1.columns, p.s2.columns, p.top, r.lits + |p.s1.filter| + |p.s2.filter|, r.tmpA, a.advance2);
    var c6 := LoadOutputs(p.s1.columns, p.s2.columns, p.out, r.out);
    var c7 := [MakeOp(Op_ResultRow, r.out, |p.out|, 0)];
    SevenPieces(ops, a.start2, JoinInner(p), c1, c2, c3, c4, c5, c6, c7);
  }

  lemma SevenPieces(ops: seq<Op>, at: nat, code: seq<Op>, c1: seq<Op>, c2: seq<Op>, c3: seq<Op>, c4: seq<Op>,
                    c5: seq<Op>, c6: seq<Op>, c7: seq<Op>)
    requires code == c1 + c2 + c3 + c4 + c5 + c6 + c7 && CodeAt(ops, at, code)
    ensures CodeAt(ops, at, c1) && CodeAt(ops, at + |c1|, c2) && CodeAt(ops, at + |c1| + |c2|, c3)
    ensures CodeAt(ops, at + |c1| + |c2| + |c3|, c4)
    ensures CodeAt(ops, at + |c1| + |c2| + |c3| + |c4|, c5)
    ensures CodeAt(ops, at + |c1| + |c2| + |c3| + |c4| + |c5|, c6)
    ensures CodeAt(ops, at + |c1| + |c2| + |c3| + |c4| + |c5| + |c6|, c7)
  {
    hide CodeAt;
    CodeSplits(ops, at, c1 + c2 + c3 + c4 + c5 + c6, c7);
    CodeSplits(ops, at, c1 + c2 + c3 + c4 + c5, c6);
    CodeSplits(ops, at, c1 + c2 + c3 + c4, c5);
    CodeSplits(ops, at, c1 + c2 + c3, c4);
    CodeSplits(ops, at, c1 + c2, c3);
    CodeSplits(ops, at, c1, c2);
  }

  lemma TailLayout(p: Plan)
    requires p.JoinPlan?
    ensures var ops, a := JoinCode(p), JoinAddresses(p);
      && CodeAt(ops, a.advance2, AdvanceLoop(p.s2, 1, a.head2))
      && CodeAt(ops, a.advance1, AdvanceLoop(p.s1, 0, a.head1))
      && CodeAt(ops, a.tail, CloseSide(p.s2, 1))
      && CodeAt(ops, a.tail + |CloseSide(p.s2, 1)|, CloseSide(p.s1, 0))
      && CodeAt(ops, a.end - 1, [MakeOp(Op_Halt, 0, 0, 0)]) && |ops| == a.end
  {
    hide CodeAt, JoinCode, JoinPrologue, JoinOuter, JoinInner, CheckAll, CheckPairs, AllocateRegs;
    hide OpenSide, SideLiterals, PositionOnce, FollowIndex, CloseSide;
    var ops, a := JoinCode(p), JoinAddresses(p);
    JoinParts(p);
    PartLengths(p);
    var c1, c2 := AdvanceLoop(p.s2, 1, a.head2), AdvanceLoop(p.s1, 0, a.head1);
    var c3, c4, c5 := CloseSide(p.s2, 1), CloseSide(p.s1, 0), [MakeOp(Op_Halt, 0, 0, 0)];
    FivePieces(ops, a.advance2, JoinTail(p), c1, c2, c3, c4, c5);
  }

  lemma FivePieces(ops: seq<Op>, at: nat, code: seq<Op>, c1: seq<Op>, c2: seq<Op>, c3: seq<Op>, c4: seq<Op>, c5: seq<Op>)
    requires code == c1 + c2 + c3 + c4 + c5 && CodeAt(ops, at, code)
    ensures CodeAt(ops, at, c1) && CodeAt(ops, at + |c1|, c2) && CodeAt(ops, at + |c1| + |c2|, c3)
    ensures CodeAt(ops, at + |c1| + |c2| + |c3|, c4)
    ensures CodeAt(ops, at + |c1| + |c2| + |c3| + |c4|, c5)
  {
    hide CodeAt;
    CodeSplits(ops, at, c1 + c2 + c3 + c4, c5);
    CodeSplits(ops, at, c1 + c2 + c3, c4);
    CodeSplits(ops, at, c1 + c2, c3);
    CodeSplits(ops, at, c1, c2);
  }
}
