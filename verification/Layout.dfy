// The programs the code generator emits for SELECT, as functions of the plan: which
// registers are used, where each piece of code goes, and where every jump leads.
module Layout {
  import opened Common
  import opened Sql
  import opened Values
  import opened Machine
  import opened Planner

  function MakeOp(code: Opcode, p1: int, p2: int, p3: int): Op {
    Op(code, p1, p2, p3, [])
  }

  // ---- small pieces ----------------------------------------------------------------------

  function LoadLiteral(lit: Literal, reg: int): Op {
    match LiteralValue(lit)
    case Int(i) => MakeOp(Op_Integer, i, reg, 0)
    case Str(s) => Op(Op_String, |s|, reg, 0, s)
    case _ => Op(Op_String, 0, reg, 0, [])
  }

  // The current value of column idx of the table under a cursor.
  function LoadColumn(columns: seq<Column>, cursor: int, idx: nat, reg: int): Op {
    if idx < |columns| && columns[idx].primaryKey then MakeOp(Op_Key, cursor, reg, 0)
    else MakeOp(Op_Column, cursor, idx, reg)
  }

  function LoadRCol(c1: seq<Column>, c2: seq<Column>, rc: RCol, reg: int): Op {
    if rc.side == 0 then LoadColumn(c1, 0, rc.idx, reg) else LoadColumn(c2, 1, rc.idx, reg)
  }

  function LoadLiterals(cmps: seq<ResolvedCmp>, base: int): (code: seq<Op>)
    ensures |code| == |cmps|
    ensures forall i :: 0 <= i < |cmps| ==> code[i] == LoadLiteral(cmps[i].lit, base + i)
  {
    seq(|cmps|, i requires 0 <= i < |cmps| => LoadLiteral(cmps[i].lit, base + i))
  }

  // Per conjunct: load the column, jump away when the conjunct does not hold.
  function CheckAll(c1: seq<Column>, c2: seq<Column>, cmps: seq<ResolvedCmp>, base: int, tmp: int, target: int): (code: seq<Op>)
    ensures |code| == 2 * |cmps|
  {
    if cmps == [] then []
    else CheckAll(c1, c2, cmps[..|cmps| - 1], base, tmp, target)
         + [LoadRCol(c1, c2, cmps[|cmps| - 1].col, tmp),
            MakeOp(cmps[|cmps| - 1].op, base + |cmps| - 1, target, tmp)]
  }

  // Per shared column: load both sides, jump away when they differ.
  function CheckPairs(c1: seq<Column>, c2: seq<Column>, pairs: seq<(nat, nat)>, ra: int, rb: int, target: int): (code: seq<Op>)
    ensures |code| == 3 * |pairs|
  {
    if pairs == [] then []
    else CheckPairs(c1, c2, pairs[..|pairs| - 1], ra, rb, target)
         + [LoadRCol(c1, c2, RCol(0, pairs[|pairs| - 1].0), ra),
            LoadRCol(c1, c2, RCol(1, pairs[|pairs| - 1].1), rb),
            MakeOp(Op_Ne, ra, target, rb)]
  }

  function LoadOutputs(c1: seq<Column>, c2: seq<Column>, out: seq<RCol>, base: int): (code: seq<Op>)
    ensures |code| == |out|
    ensures forall i :: 0 <= i < |out| ==> code[i] == LoadRCol(c1, c2, out[i], base + i)
  {
    seq(|out|, i requires 0 <= i < |out| => LoadRCol(c1, c2, out[i], base + i))
  }

  function SeekOf(cmp: ResolvedCmp): Opcode {
    match SeekOpcode(cmp.op)
    case Some(code) => code
    case None => Op_Seek
  }

  function AdvanceOf(access: Access): Opcode {
    if access.RangeSeek? && !SeeksForward(SeekOf(access.cmp)) then Op_Prev else Op_Next
  }

  predicate HasUpper(access: Access) {
    access.RangeSeek? && access.upper.Some?
  }

  // ---- one table of a join ---------------------------------------------------------------

  // The registers one side uses; a register that is not used is -1.
  datatype SideRegs = SideRegs(idxRoot: int, root: int, lit: int, pkey: int, upper: int)

  datatype JoinRegs = JoinRegs(r1: SideRegs, r2: SideRegs, lits: nat, tmpA: nat, tmpB: nat, out: nat)

  function B2N(b: bool): nat { if b then 1 else 0 }

  function AllocateRegs(p: Plan): JoinRegs
    requires p.JoinPlan?
  {
    var i1, i2 := B2N(!p.s1.access.Scan?), B2N(!p.s2.access.Scan?);
    var u1, u2 := B2N(HasUpper(p.s1.access)), B2N(HasUpper(p.s2.access));
    var lit1 := i1 + i2 + 2;
    var lit2 := lit1 + 2 * i1 + u1;
    var lits := lit2 + 2 * i2 + u2;
    var tmpA := lits + |p.s1.filter| + |p.s2.filter| + |p.top|;
    JoinRegs(
      SideRegs(if i1 == 1 then 0 else -1, i1, if i1 == 1 then lit1 else -1, if i1 == 1 then lit1 + 1 else -1,
               if u1 == 1 then lit1 + 2 else -1),
      SideRegs(if i2 == 1 then i1 + 1 else -1, i1 + 1 + i2, if i2 == 1 then lit2 else -1,
               if i2 == 1 then lit2 + 1 else -1, if u2 == 1 then lit2 + 2 else -1),
      lits, tmpA, tmpA + 1, tmpA + 2)
  }

  // The table cursor of a side is its number; its index cursor is two further.
  function DriverCursor(access: Access, side: nat): nat {
    if access.Scan? then side else side + 2
  }

  function OpenSide(s: Source, side: nat, r: SideRegs): seq<Op> {
    (if s.access.Scan? then []
     else [MakeOp(Op_Integer, s.access.indexRoot, r.idxRoot, 0), MakeOp(Op_OpenRead, side + 2, r.idxRoot, 0)])
    + [MakeOp(Op_Integer, s.root, r.root, 0), MakeOp(Op_OpenRead, side, r.root, |s.columns|)]
  }

  function SideLiterals(s: Source, r: SideRegs): seq<Op> {
    (if s.access.Scan? then [] else [LoadLiteral(s.access.cmp.lit, r.lit)])
    + (if HasUpper(s.access) then [LoadLiteral(s.access.upper.value.lit, r.upper)] else [])
  }

  // An equality seek positions its side once, before any loop.
  function PositionOnce(s: Source, side: nat, r: SideRegs, die: int): seq<Op> {
    if !s.access.EqSeek? then []
    else [MakeOp(Op_Seek, side + 2, die, r.lit), MakeOp(Op_IdxPKey, side + 2, r.pkey, 0), MakeOp(Op_Seek, side, die, r.pkey)]
  }

  predicate Loops(s: Source) {
    !s.access.EqSeek?
  }

  // The instruction that starts a side's loop.
  function StartLoop(s: Source, side: nat, r: SideRegs, exit: int): seq<Op> {
    match s.access
    case Scan => [MakeOp(Op_Rewind, side, exit, 0)]
    case EqSeek(_, _) => []
    case RangeSeek(_, cmp, _) => [MakeOp(SeekOf(cmp), side + 2, exit, r.lit)]
  }

  // From an index entry to its table row; beyond the upper bound the walk stops.
  function FollowIndex(s: Source, side: nat, r: SideRegs, tmp: int, die: int, stop: int): seq<Op> {
    if !s.access.RangeSeek? then []
    else
      [MakeOp(Op_IdxPKey, side + 2, r.pkey, 0), MakeOp(Op_Seek, side, die, r.pkey)]
      + (match s.access.upper
         case None => []
         case Some(u) =>
           [LoadColumn(s.columns, side, u.col.idx, tmp), MakeOp(u.op, r.upper, stop, tmp)])
  }

  function AdvanceLoop(s: Source, side: nat, head: int): seq<Op> {
    if Loops(s) then [MakeOp(AdvanceOf(s.access), DriverCursor(s.access, side), head, 0)] else []
  }

  function CloseSide(s: Source, side: nat): seq<Op> {
    [MakeOp(Op_Close, side, 0, 0)] + (if s.access.Scan? then [] else [MakeOp(Op_Close, side + 2, 0, 0)])
  }

  // ---- the join program --------------------------------------------------------------------

  // Where the pieces of the join program start.
  datatype JoinMap = JoinMap(lits: nat, once1: nat, once2: nat, filters: nat,
    start1: nat, head1: nat, start2: nat, head2: nat, pairs: nat, checks2: nat, checksTop: nat, outs: nat, row: nat,
    advance2: nat, done2: nat, advance1: nat, tail: nat, end: nat)

  // Lengths of the pieces, which do not depend on the addresses.
  function JoinAddresses(p: Plan): JoinMap
    requires p.JoinPlan?
  {
    var r := AllocateRegs(p);
    var lits := |OpenSide(p.s1, 0, r.r1)| + |OpenSide(p.s2, 1, r.r2)|;
    var once1 := lits + |SideLiterals(p.s1, r.r1)| + |SideLiterals(p.s2, r.r2)|;
    var once2 := once1 + |PositionOnce(p.s1, 0, r.r1, 0)|;
    var filters := once2 + |PositionOnce(p.s2, 1, r.r2, 0)|;
    var start1 := filters + |p.s1.filter| + |p.s2.filter| + |p.top|;
    var head1 := start1 + B2N(Loops(p.s1));
    var start2 := head1 + 2 * |p.s1.filter| + |FollowIndex(p.s1, 0, r.r1, 0, 0, 0)|;
    var head2 := start2 + B2N(Loops(p.s2));
    var pairs := head2 + |FollowIndex(p.s2, 1, r.r2, 0, 0, 0)|;
    var checks2 := pairs + 3 * |p.pairs|;
    var checksTop := checks2 + 2 * |p.s2.filter|;
    var outs := checksTop + 2 * |p.top|;
    var row := outs + |p.out|;
    var advance2 := row + 1;
    var done2 := advance2 + B2N(Loops(p.s2));
    var tail := done2 + B2N(Loops(p.s1));
    JoinMap(lits, once1, once2, filters, start1, head1, start2, head2, pairs, checks2, checksTop, outs, row,
            advance2, done2, done2, tail, tail + |CloseSide(p.s1, 0)| + |CloseSide(p.s2, 1)| + 1)
  }

  // What runs before the loops.
  function JoinPrologue(p: Plan): seq<Op>
    requires p.JoinPlan?
  {
    var r, a := AllocateRegs(p), JoinAddresses(p);
    OpenSide(p.s1, 0, r.r1) + OpenSide(p.s2, 1, r.r2)
    + SideLiterals(p.s1, r.r1) + SideLiterals(p.s2, r.r2)
    + PositionOnce(p.s1, 0, r.r1, a.tail) + PositionOnce(p.s2, 1, r.r2, a.tail)
    + LoadLiterals(p.s1.filter, r.lits) + LoadLiterals(p.s2.filter, r.lits + |p.s1.filter|)
    + LoadLiterals(p.top, r.lits + |p.s1.filter| + |p.s2.filter|)
  }

  // The loop over the left table, down to where the loop over the right one starts.
  function JoinOuter(p: Plan): seq<Op>
    requires p.JoinPlan?
  {
    var r, a := AllocateRegs(p), JoinAddresses(p);
    StartLoop(p.s1, 0, r.r1, a.tail)
    + CheckAll(p.s1.columns, p.s2.columns, p.s1.filter, r.lits, r.tmpA, a.advance1)
    + FollowIndex(p.s1, 0, r.r1, r.tmpA, a.tail, a.tail)
  }

  // The loop over the right table, down to the row it may emit.
  function JoinInner(p: Plan): seq<Op>
    requires p.JoinPlan?
  {
    var r, a := AllocateRegs(p), JoinAddresses(p);
    StartLoop(p.s2, 1, r.r2, a.done2)
    + FollowIndex(p.s2, 1, r.r2, r.tmpA, a.tail, a.done2)
    + CheckPairs(p.s1.columns, p.s2.columns, p.pairs, r.tmpA, r.tmpB, a.advance2)
    + CheckAll(p.s1.columns, p.s2.columns, p.s2.filter, r.lits + |p.s1.filter|, r.tmpA, a.advance2)
    + CheckAll(p.s1.columns, p.s2.columns, p.top, r.lits + |p.s1.filter| + |p.s2.filter|, r.tmpA, a.advance2)
    + LoadOutputs(p.s1.columns, p.s2.columns, p.out, r.out)
    + [MakeOp(Op_ResultRow, r.out, |p.out|, 0)]
  }

  function JoinTail(p: Plan): seq<Op>
    requires p.JoinPlan?
  {
    var a := JoinAddresses(p);
    AdvanceLoop(p.s2, 1, a.head2) + AdvanceLoop(p.s1, 0, a.head1)
    + CloseSide(p.s2, 1) + CloseSide(p.s1, 0) + [MakeOp(Op_Halt, 0, 0, 0)]
  }

  function JoinCode(p: Plan): seq<Op>
    requires p.JoinPlan?
  {
    JoinPrologue(p) + JoinOuter(p) + JoinInner(p) + JoinTail(p)
  }

  // ---- where the pieces are ------------------------------------------------------------------

  ghost predicate CodeAt(ops: seq<Op>, at: nat, code: seq<Op>) {
    at + |code| <= |ops| && forall i :: 0 <= i < |code| ==> ops[at + i] == code[i]
  }
}
