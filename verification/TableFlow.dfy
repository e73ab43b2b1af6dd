// The compiled statement over one table and the CREATE INDEX program, whatever the plan and the
// database: they halt, and their cursors are positioned wherever they are read or advanced.
module TableFlow {
  import opened Machine
  import opened Planner
  import opened Layout
  import opened JoinLayout
  import opened TableLayout
  import opened IndexLayout
  import opened ControlFlow
  import opened CursorFlow
  import opened JoinFlow
  import opened JoinReady

  // A scan's filter reads the scanned table, as that of one table always does.
  predicate TableShaped(p: Plan) {
    && p.TablePlan? && SourceShaped(p.s)
    && forall i :: 0 <= i < |p.s.filter| ==> p.s.filter[i].col.side == 0
  }

  lemma TableOrder(p: Plan)
    requires p.TablePlan?
    ensures var a := TableAddresses(p);
      && a.start + 1 == a.head <= a.checks <= a.outs <= a.row < a.advance == a.row + 1 <= a.tail < a.end
      && a.tail == a.advance + B2N(Loops(p.s)) && a.checks == a.head + |FollowTable(p.s, 0, 0)|
      && a.outs == a.checks + 2 * |p.s.filter| && a.row == a.outs + |p.outIdx|
      && |OpenTable(p.s)| == a.lits && a.lits + |TableLiterals(p.s)| == a.start
      && |TableTurn(p)| == a.advance - a.head && |AdvanceTable(p.s, a.head)| == B2N(Loops(p.s)) && |TableCode(p)| == a.end
      && a.tail + |CloseTable(p.s)| == a.end
  {
    hide CheckAll, LoadOutputs, OpenTable, TableLiterals, AllocateTableRegs;
  }

  // ---- halting -----------------------------------------------------------------------------------------

  lemma TableEndsCalm(s: Source, exit: int, at: int, n: int)
    requires at < exit <= n
    ensures Calm(OpenTable(s), at, n, {}) && Calm(StartTable(s, exit), at, n, {}) && Calm(CloseTable(s), at, n, {})
  {
  }

  lemma TableLiteralsCalm(s: Source, at: int, n: int)
    ensures Calm(TableLiterals(s), at, n, {})
  {
    hide LoadLiterals;
    LoadsCalm([], [], s.filter, [], 1, at, n, {});
  }

  lemma FollowTableCalm(s: Source, skip: int, stop: int, at: int, n: int)
    requires SourceShaped(s) && at + |FollowTable(s, skip, stop)| <= skip <= n && at + |FollowTable(s, skip, stop)| <= stop <= n
    ensures Calm(FollowTable(s, skip, stop), at, n, {0})
  {
  }

  lemma TurnCalm(p: Plan)
    requires TableShaped(p)
    ensures Calm(TableTurn(p), TableAddresses(p).head, TableAddresses(p).end, {0})
  {
    hide TableAddresses, AllocateTableRegs, FollowTable, CheckAll, LoadOutputs, Calm, TableCode, OpenTable, TableLiterals, CloseTable;
    var r, a, s := AllocateTableRegs(p.s), TableAddresses(p), p.s;
    TableOrder(p);
    FollowTableLength(s, a.advance, a.tail);
    var follow := FollowTable(s, a.advance, a.tail);
    var checks := CheckAll(LeftColumns(s), RightColumns(s), s.filter, r.lits, r.tmp, a.advance);
    var outs := LoadOutputs(LeftColumns(s), RightColumns(s), TableOut(s, p.outIdx), r.out);
    FollowTableCalm(s, a.advance, a.tail, a.head, a.end);
    ChecksCalm(LeftColumns(s), RightColumns(s), s.filter, r.lits, r.tmp, a.advance, a.checks, a.end, {0});
    LoadsCalm(LeftColumns(s), RightColumns(s), [], TableOut(s, p.outIdx), r.out, a.outs, a.end, {0});
    RowCalm(r.out, |p.outIdx|, a.row, a.end, {0});
    CalmBoth(follow, checks, a.head, a.end, {0});
    CalmBoth(follow + checks, outs, a.head, a.end, {0});
    CalmBoth(follow + checks + outs, [MakeOp(Op_ResultRow, r.out, |p.outIdx|, 0)], a.head, a.end, {0});
  }

  lemma FollowTableLength(s: Source, skip: int, stop: int)
    ensures |FollowTable(s, skip, stop)| == |FollowTable(s, 0, 0)|
  {
  }

  lemma TablePartsCalm(p: Plan)
    requires TableShaped(p)
    ensures var ops, a := TableCode(p), TableAddresses(p);
      && CalmFrom(ops, 0, a.head, {}) && CalmFrom(ops, a.head, a.advance, {0}) && CalmFrom(ops, a.tail, a.end, {}) && |ops| == a.end
      && (Loops(p.s) ==> a.advance < |ops| && ops[a.advance] == MakeOp(AdvanceOf(p.s.access), 0, a.head, 0))
  {
    hide TableAddresses, TableCode, TableTurn, OpenTable, TableLiterals, CloseTable, Calm, CalmFrom, CodeAt, AdvanceOf;
    var ops, a := TableCode(p), TableAddresses(p);
    TablePieces(p);
    TableOrder(p);
    TableEndsCalm(p.s, a.tail, 0, a.end);
    TableEndsCalm(p.s, a.tail, a.start, a.end);
    TableEndsCalm(p.s, a.tail + 1, a.tail, a.end);
    TableLiteralsCalm(p.s, a.lits, a.end);
    TurnCalm(p);
    CalmAt(ops, 0, OpenTable(p.s), {});
    CalmAt(ops, a.lits, TableLiterals(p.s), {});
    CalmAt(ops, a.start, StartTable(p.s, a.tail), {});
    CalmAt(ops, a.head, TableTurn(p), {0});
    CalmAt(ops, a.tail, CloseTable(p.s), {});
    CalmJoins(ops, 0, a.lits, a.start, {});
    CalmJoins(ops, 0, a.start, a.head, {});
    if Loops(p.s) { FirstAt(ops, a.advance, AdvanceTable(p.s, a.head)); }
  }

  function TableNest(p: Plan): Nest
    requires p.TablePlan?
  {
    if Loops(p.s) then OneLoop(Loop(TableAddresses(p).head, TableAddresses(p).advance, 0)) else NoLoop
  }

  // Every program over one table whose comparisons are comparisons halts, on every database.
  lemma TableHalts(p: Plan, m: Machine)
    requires p.TablePlan? && TableShaped(p) && m.pc == 0
    ensures Halts(TableCode(p), m)
  {
    hide TableAddresses, TableCode, Halts, TableShaped;
    TableOrder(p);
    TablePartsCalm(p);
    assert WellNested(TableCode(p), TableNest(p));
    NestedHalts(TableCode(p), m, TableNest(p));
  }

  lemma IndexPartsCalm(p: IndexPlan)
    ensures var ops := IndexCode(p);
      && CalmFrom(ops, 0, LOOP, {}) && CalmFrom(ops, LOOP, 18, {1}) && CalmFrom(ops, AFTER, 22, {})
      && ops[18] == MakeOp(Op_Next, 1, LOOP, 0)
  {
    hide IndexCode, CodeAt, INDEX_WORD, Calm, CalmFrom, RegisterIndex, OpenIndexed, LoadColumn;
    var ops, row := IndexCode(p), [LoadColumn(p.columns, 1, p.col, 9), MakeOp(Op_Key, 1, 10, 0), MakeOp(Op_IdxInsert, 2, 9, 10)];
    IndexPieces(p);
    IndexCalm(p);
    assert EnterRow(p) == row + [MakeOp(Op_Next, 1, LOOP, 0)];
    CodeSplits(ops, LOOP, row, [MakeOp(Op_Next, 1, LOOP, 0)]);
    CalmAt(ops, 0, RegisterIndex(p), {});
    CalmAt(ops, 11, OpenIndexed(p), {});
    CalmAt(ops, 14, [MakeOp(Op_Rewind, 1, AFTER, 0)], {});
    CalmAt(ops, LOOP, row, {1});
    CalmAt(ops, AFTER, CloseIndexed(), {});
    CalmJoins(ops, 0, 11, 14, {});
    CalmJoins(ops, 0, 14, LOOP, {});
    FirstAt(ops, 18, [MakeOp(Op_Next, 1, LOOP, 0)]);
  }

  lemma IndexCalm(p: IndexPlan)
    ensures |RegisterIndex(p)| == 11 && |OpenIndexed(p)| == 3 && Calm(RegisterIndex(p), 0, 22, {}) && Calm(OpenIndexed(p), 11, 22, {})
    ensures Calm([MakeOp(Op_Rewind, 1, AFTER, 0)], 14, 22, {}) && Calm(CloseIndexed(), AFTER, 22, {})
    ensures Calm([LoadColumn(p.columns, 1, p.col, 9), MakeOp(Op_Key, 1, 10, 0), MakeOp(Op_IdxInsert, 2, 9, 10)], LOOP, 22, {1})
  {
    hide INDEX_WORD;
  }

  // The same for CREATE INDEX.
  lemma IndexHalts(p: IndexPlan, m: Machine)
    requires m.pc == 0
    ensures Halts(IndexCode(p), m)
  {
    hide Halts, IndexCode;
    IndexPartsCalm(p);
    assert WellNested(IndexCode(p), OneLoop(Loop(LOOP, 18, 1)));
    NestedHalts(IndexCode(p), m, OneLoop(Loop(LOOP, 18, 1)));
  }

  // ---- cursors -----------------------------------------------------------------------------------------

  function TableMarks(p: Plan): map<int, set<int>>
    requires p.TablePlan?
  {
    var a := TableAddresses(p);
    map t | t in {a.head as int, a.advance, a.tail} :: TableMark(a, t)
  }

  function TableMark(a: TableMap, t: int): set<int> {
    if t == a.tail then {} else {0}
  }

  function RowCursors(s: Source): set<int> {
    if s.access.Scan? then {0} else {0, 1}
  }

  lemma FollowTableFlows(s: Source, skip: int, stop: int, at: int, marks: map<int, set<int>>)
    requires SourceShaped(s) && skip in marks && stop in marks && marks[skip] <= {0} && marks[stop] == {}
    requires at in marks ==> {0} <= marks[at]
    requires forall t :: t in marks ==> !(at + 1 <= t < at + |FollowTable(s, skip, stop)|)
    ensures FlowsFrom(FollowTable(s, skip, stop), at, {0}, RowCursors(s), marks)
  {
    var code, b := FollowTable(s, skip, stop), {0, 1};
    if s.access.Scan? {
      FlowsNothing(at, {0}, marks);
    } else {
      var seek, upper := [MakeOp(Op_IdxPKey, 0, PKEY_REG, 0), MakeOp(Op_Seek, 1, skip, PKEY_REG)], code[2..];
      assert code == seek + upper;
      assert Flows(seek, at, [{0}, {0}, b], marks);
      UpperPartFlows(s, skip, stop, at + 2, marks);
      FlowsThen(seek, upper, at, {0}, b, b, marks);
    }
  }

  lemma UpperPartFlows(s: Source, skip: int, stop: int, at: int, marks: map<int, set<int>>)
    requires SourceShaped(s) && !s.access.Scan? && stop in marks && marks[stop] == {}
    requires forall t :: t in marks ==> !(at <= t < at + |FollowTable(s, skip, stop)| - 2)
    ensures FlowsFrom(FollowTable(s, skip, stop)[2..], at, {0, 1}, {0, 1}, marks)
  {
    hide FlowsFrom;
    if HasUpper(s.access) {
      TableUpperFlows(s, stop, marks);
    }
    EvenFlows(FollowTable(s, skip, stop)[2..], at, {0, 1}, marks);
  }

  lemma TableUpperFlows(s: Source, stop: int, marks: map<int, set<int>>)
    requires SourceShaped(s) && HasUpper(s.access) && stop in marks && marks[stop] == {}
    ensures OpFlows(LoadColumn(s.columns, 1, s.access.upper.value.col.idx, 5), {0, 1}, {0, 1}, marks)
    ensures OpFlows(MakeOp(s.access.upper.value.op, UPPER_REG, stop, 5), {0, 1}, {0, 1}, marks)
  {
  }

  lemma TableOutsFlow(p: Plan, marks: map<int, set<int>>)
    requires p.TablePlan?
    ensures var r := AllocateTableRegs(p.s);
      Even(LoadOutputs(LeftColumns(p.s), RightColumns(p.s), TableOut(p.s, p.outIdx), r.out) + [MakeOp(Op_ResultRow, r.out, |p.outIdx|, 0)],
           RowCursors(p.s), marks)
  {
    hide LoadRCol, AllocateTableRegs;
    var out := TableOut(p.s, p.outIdx);
    forall i, reg | 0 <= i < |out|
      ensures OpFlows(LoadRCol(LeftColumns(p.s), RightColumns(p.s), out[i], reg), RowCursors(p.s), RowCursors(p.s), marks)
    {
      RColFlows(LeftColumns(p.s), RightColumns(p.s), out[i], reg, RowCursors(p.s), marks);
    }
  }

  lemma TableChecksFlow(p: Plan)
    requires TableShaped(p)
    ensures var r, a := AllocateTableRegs(p.s), TableAddresses(p);
      Even(CheckAll(LeftColumns(p.s), RightColumns(p.s), p.s.filter, r.lits, r.tmp, a.advance), RowCursors(p.s), TableMarks(p))
  {
    hide AllocateTableRegs, TableAddresses, Even;
    var r, a := AllocateTableRegs(p.s), TableAddresses(p);
    ChecksFlow(LeftColumns(p.s), RightColumns(p.s), p.s.filter, r.lits, r.tmp, a.advance, RowCursors(p.s), TableMarks(p));
  }

  lemma TurnFlowsFrom(p: Plan)
    requires TableShaped(p)
    ensures FlowsFrom(TableTurn(p), TableAddresses(p).head, {0}, RowCursors(p.s), TableMarks(p))
  {
    hide AllocateTableRegs, TableAddresses, FollowTable, CheckAll, LoadOutputs, Even, FlowsFrom, TableCode, OpenTable, TableLiterals;
    var r, a, s, marks := AllocateTableRegs(p.s), TableAddresses(p), p.s, TableMarks(p);
    TableOrder(p);
    FollowTableLength(s, a.advance, a.tail);
    var follow := FollowTable(s, a.advance, a.tail);
    var checks := CheckAll(LeftColumns(s), RightColumns(s), s.filter, r.lits, r.tmp, a.advance);
    var outs := LoadOutputs(LeftColumns(s), RightColumns(s), TableOut(s, p.outIdx), r.out) + [MakeOp(Op_ResultRow, r.out, |p.outIdx|, 0)];
    FollowTableFlows(s, a.advance, a.tail, a.head, marks);
    TableChecksFlow(p);
    TableOutsFlow(p, marks);
    EvenBoth(checks, outs, RowCursors(s), marks);
    NoFollowTable(s, a.advance, a.tail);
    EvenFlows(checks + outs, a.checks, RowCursors(s), marks);
    FlowsThen(follow, checks + outs, a.head, {0}, RowCursors(s), RowCursors(s), marks);
    assert TableTurn(p) == follow + (checks + outs);
  }

  lemma NoFollowTable(s: Source, skip: int, stop: int)
    ensures !s.access.Scan? ==> 0 < |FollowTable(s, skip, stop)|
    ensures s.access.Scan? ==> RowCursors(s) == {0}
  {
  }

  lemma TableOpensFlow(s: Source, marks: map<int, set<int>>)
    requires forall t :: t in marks ==> |OpenTable(s)| + |TableLiterals(s)| <= t
    ensures FlowsFrom(OpenTable(s) + TableLiterals(s), 0, {}, {}, marks)
  {
    hide FlowsFrom, LoadLiterals, LoadLiteral;
    assert Even(OpenTable(s), {}, marks);
    TableLiteralsFlow(s, marks);
    EvenBoth(OpenTable(s), TableLiterals(s), {}, marks);
    EvenFlows(OpenTable(s) + TableLiterals(s), 0, {}, marks);
  }

  lemma TableLiteralsFlow(s: Source, marks: map<int, set<int>>)
    ensures Even(TableLiterals(s), {}, marks)
  {
  }

  lemma AdvanceTableFlows(s: Source, head: int, at: int, marks: map<int, set<int>>)
    requires Loops(s) ==> head in marks && marks[head] <= {0} && (at in marks ==> {0} <= marks[at])
    ensures FlowsFrom(AdvanceTable(s, head), at, {0}, {}, marks)
  {
    hide FlowsFrom;
    if Loops(s) {
      FlowsOne(MakeOp(AdvanceOf(s.access), 0, head, 0), at, {0}, {}, marks);
    } else {
      FlowsNothing(at, {0}, marks);
      FlowsLess([], at, {0}, {0}, {}, marks);
    }
  }

  lemma StartTableFlows(s: Source, exit: int, at: int, marks: map<int, set<int>>)
    requires exit in marks && marks[exit] == {}
    ensures FlowsFrom(StartTable(s, exit), at, {}, {0}, marks)
  {
    hide FlowsFrom;
    var op := StartTable(s, exit)[0];
    assert OpFlows(op, {}, {0}, marks);
    FlowsOne(op, at, {}, {0}, marks);
    assert StartTable(s, exit) == [op];
  }

  lemma TableEndsFlow(p: Plan)
    requires p.TablePlan?
    ensures var s, a, marks := p.s, TableAddresses(p), TableMarks(p);
      && FlowsFrom(OpenTable(s) + TableLiterals(s), 0, {}, {}, marks) && FlowsFrom(StartTable(s, a.tail), a.start, {}, {0}, marks)
      && FlowsFrom(AdvanceTable(s, a.head), a.advance, {0}, {}, marks) && FlowsFrom(CloseTable(s), a.tail, {}, {}, marks)
  {
    hide TableAddresses, OpenTable, TableLiterals, TableCode, TableTurn, AllocateTableRegs, FollowTable, FlowsFrom;
    var s, a, marks := p.s, TableAddresses(p), TableMarks(p);
    TableOrder(p);
    TableOpensFlow(s, marks);
    StartTableFlows(s, a.tail, a.start, marks);
    AdvanceTableFlows(s, a.head, a.advance, marks);
    FlowsEvenly(CloseTable(s), a.tail, {}, marks);
  }

  // For every plan over one table and every database.
  lemma TableCursorsReady(p: Plan, m: Machine)
    requires p.TablePlan? && TableShaped(p) && m.pc == 0
    ensures CursorsReady(TableCode(p), m)
  {
    hide TableAddresses, TableTurn, OpenTable, TableLiterals, StartTable, AdvanceTable, CloseTable, FlowsFrom, CursorsReady, TableShaped;
    var s, a, marks := p.s, TableAddresses(p), TableMarks(p);
    TableOrder(p);
    TableEndsFlow(p);
    TurnFlowsFrom(p);
    NoFollowTable(s, 0, 0);
    FlowsLess(TableTurn(p), a.head, {0}, RowCursors(s), {0}, marks);
    var k := OpenTable(s) + TableLiterals(s);
    StartTableLength(s, a.tail);
    FlowsThen(k, StartTable(s, a.tail), 0, {}, {}, {0}, marks);
    FlowsThen(k + StartTable(s, a.tail), TableTurn(p), 0, {}, {0}, {0}, marks);
    FlowsThen(k + StartTable(s, a.tail) + TableTurn(p), AdvanceTable(s, a.head), 0, {}, {0}, {}, marks);
    FlowsThen(k + StartTable(s, a.tail) + TableTurn(p) + AdvanceTable(s, a.head), CloseTable(s), 0, {}, {}, {}, marks);
    FlowIsReady(TableCode(p), m, marks);
  }

  lemma StartTableLength(s: Source, exit: int)
    ensures |StartTable(s, exit)| == 1
  {
  }

  // For every CREATE INDEX program and every database.
  lemma IndexCursorsReady(p: IndexPlan, m: Machine)
    requires m.pc == 0
    ensures CursorsReady(IndexCode(p), m)
  {
    hide CursorsReady, INDEX_WORD, LoadColumn;
    var marks: map<int, set<int>> := map[LOOP as int := {1}, AFTER as int := {}];
    IndexFlows(p, marks);
    FlowIsReady(IndexCode(p), m, marks);
  }

  lemma EnterRowFlows(p: IndexPlan, marks: map<int, set<int>>)
    requires marks == map[LOOP as int := {1}, AFTER as int := {}]
    ensures Even(EnterRow(p), {1}, marks) && |EnterRow(p)| == 4
  {
    assert OpFlows(LoadColumn(p.columns, 1, p.col, 9), {1}, {1}, marks);
  }

  lemma IndexPiecesFlow(p: IndexPlan, marks: map<int, set<int>>)
    requires marks == map[LOOP as int := {1}, AFTER as int := {}]
    ensures Even(RegisterIndex(p), {}, marks) && Even(OpenIndexed(p), {}, marks)
    ensures Even(CloseIndexed(), {}, marks) && OpFlows(MakeOp(Op_Rewind, 1, AFTER, 0), {}, {1}, marks)
    ensures |RegisterIndex(p)| == 11 && |OpenIndexed(p)| == 3
  {
    hide INDEX_WORD;
  }

  lemma IndexFlows(p: IndexPlan, marks: map<int, set<int>>)
    requires marks == map[LOOP as int := {1}, AFTER as int := {}]
    ensures FlowsFrom(IndexCode(p), 0, {}, {}, marks)
  {
    hide FlowsFrom, INDEX_WORD, Even, OpFlows, RegisterIndex, OpenIndexed, EnterRow, CloseIndexed;
    var k1, k2 := RegisterIndex(p) + OpenIndexed(p), [MakeOp(Op_Rewind, 1, AFTER, 0)];
    IndexPiecesFlow(p, marks);
    EnterRowFlows(p, marks);
    EvenBoth(RegisterIndex(p), OpenIndexed(p), {}, marks);
    EvenFlows(k1, 0, {}, marks);
    FlowsOne(k2[0], 14, {}, {1}, marks);
    EvenFlows(EnterRow(p), LOOP, {1}, marks);
    FlowsLess(EnterRow(p), LOOP, {1}, {1}, {}, marks);
    EvenFlows(CloseIndexed(), AFTER, {}, marks);
    FlowsThen(k1, k2, 0, {}, {}, {1}, marks);
    FlowsThen(k1 + k2, EnterRow(p), 0, {}, {1}, {}, marks);
    FlowsThen(k1 + k2 + EnterRow(p), CloseIndexed(), 0, {}, {}, {}, marks);
  }
}
