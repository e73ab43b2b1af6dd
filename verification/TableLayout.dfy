// The program for a SELECT over one table: a full scan, or a walk over an index.
module TableLayout {
  import opened Common
  import opened Sql
  import opened Values
  import opened Machine
  import opened Planner
  import opened Layout
  import opened JoinLayout

  // An index path reads the index through cursor 0 and the table through cursor 1.
  function TableCursor(s: Source): nat {
    if s.access.Scan? then 0 else 1
  }

  // First literal register, the scratch register, and the first output register.
  datatype TableRegs = TableRegs(lits: nat, tmp: nat, out: nat)

  function AllocateTableRegs(s: Source): TableRegs {
    if s.access.Scan? then
      var tmp := 1 + |s.filter|;
      TableRegs(1, tmp, if s.filter == [] then 1 else tmp + 1)
    else TableRegs(2, 5, if HasUpper(s.access) then 6 else 4)
  }

  // Registers of an index path: key of the row at 3, upper bound at 4.
  const PKEY_REG: nat := 3
  const UPPER_REG: nat := 4

  // The cursor's own columns, as one of the two column lists of a register load.
  function LeftColumns(s: Source): seq<Column> {
    if TableCursor(s) == 0 then s.columns else []
  }

  function RightColumns(s: Source): seq<Column> {
    if TableCursor(s) == 1 then s.columns else []
  }

  function TableOut(s: Source, outIdx: seq<nat>): (r: seq<RCol>)
    ensures |r| == |outIdx| && forall k :: 0 <= k < |outIdx| ==> r[k] == RCol(TableCursor(s), outIdx[k])
  {
    seq(|outIdx|, k requires 0 <= k < |outIdx| => RCol(TableCursor(s), outIdx[k]))
  }

  function OpenTable(s: Source): seq<Op> {
    if s.access.Scan? then [MakeOp(Op_Integer, s.root, 0, 0), MakeOp(Op_OpenRead, 0, 0, |s.columns|)]
    else [MakeOp(Op_Integer, s.access.indexRoot, 0, 0), MakeOp(Op_OpenRead, 0, 0, 0),
          MakeOp(Op_Integer, s.root, 1, 0), MakeOp(Op_OpenRead, 1, 1, |s.columns|)]
  }

  function TableLiterals(s: Source): seq<Op> {
    if s.access.Scan? then LoadLiterals(s.filter, 1)
    else [LoadLiteral(s.access.cmp.lit, 2)]
         + (if HasUpper(s.access) then [LoadLiteral(s.access.upper.value.lit, UPPER_REG)] else [])
  }

  function StartTable(s: Source, exit: int): seq<Op> {
    if s.access.Scan? then [MakeOp(Op_Rewind, 0, exit, 0)] else [MakeOp(SeekOf(s.access.cmp), 0, exit, 2)]
  }

  function FollowTable(s: Source, skip: int, stop: int): seq<Op> {
    if s.access.Scan? then []
    else [MakeOp(Op_IdxPKey, 0, PKEY_REG, 0), MakeOp(Op_Seek, 1, skip, PKEY_REG)]
         + (if HasUpper(s.access)
            then [LoadColumn(s.columns, 1, s.access.upper.value.col.idx, 5),
                  MakeOp(s.access.upper.value.op, UPPER_REG, stop, 5)] else [])
  }

  function AdvanceTable(s: Source, head: int): seq<Op> {
    if Loops(s) then [MakeOp(AdvanceOf(s.access), 0, head, 0)] else []
  }

  function CloseTable(s: Source): seq<Op> {
    (if s.access.Scan? then [] else [MakeOp(Op_Close, 1, 0, 0)]) + [MakeOp(Op_Close, 0, 0, 0), MakeOp(Op_Halt, 0, 0, 0)]
  }

  datatype TableMap = TableMap(lits: nat, start: nat, head: nat, checks: nat, outs: nat, row: nat, advance: nat, tail: nat, end: nat)

  function TableAddresses(p: Plan): TableMap
    requires p.TablePlan?
  {
    var lits := |OpenTable(p.s)|;
    var start := lits + |TableLiterals(p.s)|;
    var checks := start + 1 + |FollowTable(p.s, 0, 0)|;
    var outs := checks + 2 * |p.s.filter|;
    var row := outs + |p.outIdx|;
    var tail := row + 1 + B2N(Loops(p.s));
    TableMap(lits, start, start + 1, checks, outs, row, row + 1, tail, tail + |CloseTable(p.s)|)
  }

  // One row: reach it, check it, yield it.
  function TableTurn(p: Plan): seq<Op>
    requires p.TablePlan?
  {
    var r, a := AllocateTableRegs(p.s), TableAddresses(p);
    FollowTable(p.s, a.advance, a.tail)
    + CheckAll(LeftColumns(p.s), RightColumns(p.s), p.s.filter, r.lits, r.tmp, a.advance)
    + LoadOutputs(LeftColumns(p.s), RightColumns(p.s), TableOut(p.s, p.outIdx), r.out)
    + [MakeOp(Op_ResultRow, r.out, |p.outIdx|, 0)]
  }

  function TableCode(p: Plan): seq<Op>
    requires p.TablePlan?
  {
    var a := TableAddresses(p);
    OpenTable(p.s) + TableLiterals(p.s) + StartTable(p.s, a.tail)
    + TableTurn(p) + AdvanceTable(p.s, a.head) + CloseTable(p.s)
  }

  // Every piece is where the address map says.
  lemma TablePieces(p: Plan)
    requires p.TablePlan?
    ensures var ops, a := TableCode(p), TableAddresses(p);
      && CodeAt(ops, 0, OpenTable(p.s)) && CodeAt(ops, a.lits, TableLiterals(p.s))
      && CodeAt(ops, a.start, StartTable(p.s, a.tail)) && CodeAt(ops, a.head, TableTurn(p))
      && CodeAt(ops, a.advance, AdvanceTable(p.s, a.head)) && CodeAt(ops, a.tail, CloseTable(p.s)) && |ops| == a.end
  {
    hide CodeAt, OpenTable, TableLiterals, CheckAll, LoadOutputs, CloseTable, AllocateTableRegs;
    var ops, a := TableCode(p), TableAddresses(p);
    var c1, c2, c3 := OpenTable(p.s), TableLiterals(p.s), StartTable(p.s, a.tail);
    var c4, c5, c6 := TableTurn(p), AdvanceTable(p.s, a.head), CloseTable(p.s);
    WholeAt(ops);
    CodeSplits(ops, 0, c1 + c2 + c3 + c4 + c5, c6);
    CodeSplits(ops, 0, c1 + c2 + c3 + c4, c5);
    CodeSplits(ops, 0, c1 + c2 + c3, c4);
    CodeSplits(ops, 0, c1 + c2, c3);
    CodeSplits(ops, 0, c1, c2);
  }

  lemma WholeAt(ops: seq<Op>)
    ensures CodeAt(ops, 0, ops)
  {
  }

  lemma TurnPieces(p: Plan)
    requires p.TablePlan?
    ensures var ops, r, a := TableCode(p), AllocateTableRegs(p.s), TableAddresses(p);
      && CodeAt(ops, a.head, FollowTable(p.s, a.advance, a.tail))
      && CodeAt(ops, a.checks, CheckAll(LeftColumns(p.s), RightColumns(p.s), p.s.filter, r.lits, r.tmp, a.advance))
      && CodeAt(ops, a.outs, LoadOutputs(LeftColumns(p.s), RightColumns(p.s), TableOut(p.s, p.outIdx), r.out))
      && a.row < |ops| && ops[a.row] == MakeOp(Op_ResultRow, r.out, |p.outIdx|, 0)
  {
    hide CodeAt, TableCode, CheckAll, LoadOutputs, OpenTable, TableLiterals, CloseTable, AllocateTableRegs;
    var ops, r, a := TableCode(p), AllocateTableRegs(p.s), TableAddresses(p);
    TablePieces(p);
    var c1 := FollowTable(p.s, a.advance, a.tail);
    var c2 := CheckAll(LeftColumns(p.s), RightColumns(p.s), p.s.filter, r.lits, r.tmp, a.advance);
    var c3 := LoadOutputs(LeftColumns(p.s), RightColumns(p.s), TableOut(p.s, p.outIdx), r.out);
    var c4 := [MakeOp(Op_ResultRow, r.out, |p.outIdx|, 0)];
    CodeSplits(ops, a.head, c1 + c2 + c3, c4);
    CodeSplits(ops, a.head, c1 + c2, c3);
    CodeSplits(ops, a.head, c1, c2);
    OneAt(ops, a.row, c4[0]);
  }

  lemma OneAt(ops: seq<Op>, at: nat, op: Op)
    requires CodeAt(ops, at, [op])
    ensures at < |ops| && ops[at] == op
  {
    assert ops[at + 0] == [op][0];
  }

  // ---- either kind of SELECT ---------------------------------------------------------------------

  function CodeOf(p: Plan): seq<Op> {
    if p.JoinPlan? then JoinCode(p) else TableCode(p)
  }

  function WidthOf(p: Plan): nat {
    if p.JoinPlan? then |p.out| else |p.outIdx|
  }
}
