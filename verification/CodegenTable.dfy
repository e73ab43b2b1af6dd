// codegen_select over one table and codegen_select_indexed: the program of a single-table
// SELECT, emitted front to back and patched, is the program the plan stands for.
module CodegenTables {
  import opened Common
  import opened Sql
  import opened Values
  import opened Machine
  import opened Planner
  import opened Layout
  import opened JoinLayout
  import opened TableLayout
  import opened Dbms
  import opened Codegens
  import opened CodegenJoins

  // emit_output_columns
  method EmitTableOutputs(stmt: Stmt, pc: nat, s: Source, outIdx: seq<nat>, base: int) returns (next: nat)
    requires pc == |stmt.ops|
    modifies stmt`ops
    ensures next == |stmt.ops| == pc + |outIdx| + 1
    ensures stmt.ops == old(stmt.ops) + LoadOutputs(LeftColumns(s), RightColumns(s), TableOut(s, outIdx), base)
                        + [MakeOp(Op_ResultRow, base, |outIdx|, 0)]
  {
    next := pc;
    ghost var loads := LoadOutputs(LeftColumns(s), RightColumns(s), TableOut(s, outIdx), base);
    var addr;
    for i := 0 to |outIdx|
      invariant next == |stmt.ops| && stmt.ops == old(stmt.ops) + loads[..i]
    {
      if outIdx[i] < |s.columns| && s.columns[outIdx[i]].primaryKey {
        addr, next := Emit(stmt, next, Op_Key, TableCursor(s), base + i, 0, []);
      } else {
        addr, next := Emit(stmt, next, Op_Column, TableCursor(s), outIdx[i], base + i, []);
      }
    }
    addr, next := Emit(stmt, next, Op_ResultRow, base, |outIdx|, 0, []);
  }

  lemma OutputsContinue(ops: seq<Op>, p: Plan, holes: set<nat>)
    requires p.TablePlan? && |ops| == TableAddresses(p).outs && Agrees(ops, TableCode(p), holes)
    ensures Agrees(ops + LoadOutputs(LeftColumns(p.s), RightColumns(p.s), TableOut(p.s, p.outIdx), AllocateTableRegs(p.s).out)
                   + [MakeOp(Op_ResultRow, AllocateTableRegs(p.s).out, |p.outIdx|, 0)], TableCode(p), holes)
  {
    hide Agrees, CodeAt, TableCode, CheckAll, LoadOutputs, OpenTable, TableLiterals, CloseTable, AllocateTableRegs, FollowTable;
    TurnPieces(p);
    var code, out := TableCode(p), AllocateTableRegs(p.s).out;
    var loads := LoadOutputs(LeftColumns(p.s), RightColumns(p.s), TableOut(p.s, p.outIdx), out);
    Continues(ops, code, holes, loads);
    RowAtEnd(code, TableAddresses(p).row, MakeOp(Op_ResultRow, out, |p.outIdx|, 0));
    Continues(ops + loads, code, holes, [MakeOp(Op_ResultRow, out, |p.outIdx|, 0)]);
  }

  lemma RowAtEnd(code: seq<Op>, at: nat, op: Op)
    requires at < |code| && code[at] == op
    ensures CodeAt(code, at, [op])
  {
  }

  lemma StartTableBlank(s: Source, t: int, at: nat)
    ensures Blank(StartTable(s, -1), StartTable(s, t), at, {at}, t)
  {
  }

  // ---- a full scan -----------------------------------------------------------------------------

  method EmitScan(stmt: Stmt, p: Plan)
    requires p.TablePlan? && p.s.access.Scan? && SourceCompiled(p.s) && stmt.ops == []
    modifies stmt`ops
    ensures stmt.ops == TableCode(p)
  {
    hide Agrees, Lead, Within, Elems, TableCode, CheckAll, LoadOutputs, TableAddresses, Blank, CodeAt, LoadLiterals;
    ghost var code, a := TableCode(p), TableAddresses(p);
    ScanAddresses(p);
    var lits := 1;
    var tmp := lits + |p.s.filter|;
    var out := if |p.s.filter| == 0 then lits else tmp + 1;
    var addr, next := EmitScanStart(stmt, p);
    var loop := next;
    var patch := new nat[|p.s.filter| + 1];
    ghost var was, at := stmt.ops, next;
    TurnPieces(p);
    var npatch;
    next, npatch := EmitFilterChecks(stmt, next, p.s.filter, LeftColumns(p.s), RightColumns(p.s), lits, tmp, patch, 0);
    assert patch[..0] == [];
    LeadNone(code, a.advance);
    ChecksBlank(LeftColumns(p.s), RightColumns(p.s), p.s.filter, lits, tmp, a.advance, at);
    Pushes(was, code, {addr}, CheckAll(LeftColumns(p.s), RightColumns(p.s), p.s.filter, lits, tmp, -1),
      CheckAll(LeftColumns(p.s), RightColumns(p.s), p.s.filter, lits, tmp, a.advance), [], Jumps(at, 2, |p.s.filter|), a.advance);
    assert [] + Jumps(at, 2, |p.s.filter|) == Jumps(at, 2, |p.s.filter|);
    ghost var holes := {addr} + Elems(patch[..npatch]);
    was := stmt.ops;
    next := EmitTableOutputs(stmt, next, p.s, p.outIdx, out);
    OutputsContinue(was, p, holes);
    EmitScanEnd(stmt, next, p, addr, loop, patch, npatch, holes);
  }

  // The regular lengths of the scan program.
  lemma ScanAddresses(p: Plan)
    requires p.TablePlan? && p.s.access.Scan?
    ensures var a := TableAddresses(p);
      && a.head == a.start + 1 == a.checks && a.outs == a.checks + 2 * |p.s.filter| && a.advance == a.outs + |p.outIdx| + 1
      && a.tail == a.advance + 1
  {
  }

  method EmitScanStart(stmt: Stmt, p: Plan) returns (addr: nat, next: nat)
    requires p.TablePlan? && p.s.access.Scan? && SourceCompiled(p.s) && stmt.ops == []
    modifies stmt`ops
    ensures next == |stmt.ops| == TableAddresses(p).head && addr == TableAddresses(p).start
    ensures Agrees(stmt.ops, TableCode(p), {addr}) && Lead(TableCode(p), {addr}, TableAddresses(p).tail)
  {
    hide Agrees, Lead, TableCode, TableTurn, AdvanceTable, CloseTable, LoadLiterals, CodeAt, Blank;
    ghost var code, a := TableCode(p), TableAddresses(p);
    TablePieces(p);
    AgreesNothing(code);
    addr, next := Emit(stmt, 0, Op_Integer, p.s.root, 0, 0, []);
    addr, next := Emit(stmt, next, Op_OpenRead, 0, 0, |p.s.columns|, []);
    assert stmt.ops == [] + OpenTable(p.s);
    Continues([], code, {}, OpenTable(p.s));
    ghost var was := stmt.ops;
    next := EmitFilterLiterals(stmt, next, p.s.filter, 1);
    Continues(was, code, {}, TableLiterals(p.s));
    was := stmt.ops;
    addr, next := Emit(stmt, next, Op_Rewind, 0, -1, 0, []);
    StartTableBlank(p.s, a.tail, addr);
    Extends(was, code, {}, StartTable(p.s, -1), StartTable(p.s, a.tail), {addr}, a.tail);
    assert {} + {addr} == {addr};
  }

  method EmitScanEnd(stmt: Stmt, pc: nat, p: Plan, start: nat, loop: nat, patch: array<nat>, npatch: nat, ghost holes: set<nat>)
    requires p.TablePlan? && p.s.access.Scan? && npatch <= patch.Length && holes == {start} + Elems(patch[..npatch])
    requires pc == |stmt.ops| == TableAddresses(p).advance && loop == TableAddresses(p).head
    requires Agrees(stmt.ops, TableCode(p), holes)
    requires Lead(TableCode(p), Elems(patch[..npatch]), TableAddresses(p).advance) && Lead(TableCode(p), {start}, TableAddresses(p).tail)
    modifies stmt`ops
    ensures stmt.ops == TableCode(p)
  {
    hide Agrees, Lead, Within, Elems, TableCode, TableTurn, OpenTable, TableLiterals, CodeAt;
    ghost var code, a := TableCode(p), TableAddresses(p);
    TablePieces(p);
    ghost var was := stmt.ops;
    var addr, next := Emit(stmt, pc, Op_Next, 0, loop, 0, []);
    Continues(was, code, holes, AdvanceTable(p.s, a.head));
    HolesWithin(stmt.ops, code, holes, Elems(patch[..npatch]));
    HolesWithin(stmt.ops, code, holes, PosHole(start));
    PatchAll(stmt, patch, npatch, pc, code, holes);
    PatchPos(stmt, start, next, code, holes - Elems(patch[..npatch]));
    assert holes - Elems(patch[..npatch]) - PosHole(start) == {};
    was := stmt.ops;
    addr, next := Emit(stmt, next, Op_Close, 0, 0, 0, []);
    addr, next := Emit(stmt, next, Op_Halt, 0, 0, 0, []);
    assert stmt.ops == was + CloseTable(p.s);
    Continues(was, code, {}, CloseTable(p.s));
    Whole(stmt.ops, code);
  }

  // ---- a walk over an index ----------------------------------------------------------------------

  // What follows an index entry to its row and to the upper bound.
  function TableRow(skip: int): seq<Op> {
    [MakeOp(Op_IdxPKey, 0, PKEY_REG, 0), MakeOp(Op_Seek, 1, skip, PKEY_REG)]
  }

  function TableUpper(s: Source, stop: int): seq<Op> {
    if HasUpper(s.access)
    then [LoadColumn(s.columns, 1, s.access.upper.value.col.idx, 5), MakeOp(s.access.upper.value.op, UPPER_REG, stop, 5)]
    else []
  }

  lemma IndexTurn(p: Plan)
    requires p.TablePlan? && !p.s.access.Scan? && p.s.filter == []
    ensures var code, a := TableCode(p), TableAddresses(p);
      && CodeAt(code, a.head, TableRow(a.advance)) && CodeAt(code, a.head + 2, TableUpper(p.s, a.tail))
      && a.outs == a.head + 2 + |TableUpper(p.s, a.tail)| && a.head == a.start + 1 && a.advance == a.outs + |p.outIdx| + 1
      && a.tail == a.advance + B2N(Loops(p.s))
  {
    hide CodeAt, TableCode, CheckAll, LoadOutputs, OpenTable, TableLiterals, CloseTable, AllocateTableRegs;
    TurnPieces(p);
    var a := TableAddresses(p);
    CodeSplits(TableCode(p), a.head, TableRow(a.advance), TableUpper(p.s, a.tail));
  }

  method EmitIndexed(stmt: Stmt, p: Plan)
    requires p.TablePlan? && !p.s.access.Scan? && SourceCompiled(p.s) && stmt.ops == []
    modifies stmt`ops
    ensures stmt.ops == TableCode(p)
  {
    hide Agrees, Lead, Within, TableCode, CheckAll, LoadOutputs, TableAddresses, CodeAt, OpenTable, TableLiterals, SourceCompiled,
      Blank, TableRow, TableUpper, LeftColumns, RightColumns, PosHole;
    ghost var code, a := TableCode(p), TableAddresses(p);
    assert p.s.filter == [] by { IndexConsumes(p.s); }
    IndexTurn(p);
    var seekIdx, next := EmitIndexStart(stmt, p);
    var loop := next;
    ghost var was := stmt.ops;
    var seekTbl, upperFail;
    seekTbl, next := EmitTableRow(stmt, next);
    RowSeeks(was, code, {seekIdx}, a.advance);
    was := stmt.ops;
    upperFail, next := EmitTableUpper(stmt, next, p.s);
    UpperFails(was, code, {seekIdx} + {seekTbl}, p.s, upperFail, a.tail);
    ghost var holes := {seekIdx} + {seekTbl} + PosHole(upperFail);
    was := stmt.ops;
    next := EmitTableOutputs(stmt, next, p.s, p.outIdx, if HasUpper(p.s.access) then 6 else 4);
    OutputsContinue(was, p, holes);
    EmitIndexEnd(stmt, next, p, loop, seekIdx, seekTbl, upperFail, holes);
  }

  method EmitTableRow(stmt: Stmt, pc: nat) returns (addr: nat, next: nat)
    requires pc == |stmt.ops|
    modifies stmt`ops
    ensures stmt.ops == old(stmt.ops) + TableRow(-1) && addr == pc + 1 && next == pc + 2 == |stmt.ops|
  {
    addr, next := Emit(stmt, pc, Op_IdxPKey, 0, PKEY_REG, 0, []);
    addr, next := Emit(stmt, next, Op_Seek, 1, -1, PKEY_REG, []);
  }

  method EmitTableUpper(stmt: Stmt, pc: nat, s: Source) returns (fail: int, next: nat)
    requires pc == |stmt.ops|
    modifies stmt`ops
    ensures stmt.ops == old(stmt.ops) + TableUpper(s, -1) && fail == (if HasUpper(s.access) then pc + 1 else -1)
    ensures next == |stmt.ops| && forall t :: |stmt.ops| == pc + |TableUpper(s, t)|
  {
    fail, next := -1, pc;
    if HasUpper(s.access) {
      var upper, addr := s.access.upper.value, 0;
      if upper.col.idx < |s.columns| && s.columns[upper.col.idx].primaryKey {
        addr, next := Emit(stmt, next, Op_Key, 1, 5, 0, []);
      } else {
        addr, next := Emit(stmt, next, Op_Column, 1, upper.col.idx, 5, []);
      }
      fail, next := Emit(stmt, next, upper.op, UPPER_REG, -1, 5, []);
    }
  }

  lemma RowSeeks(ops: seq<Op>, code: seq<Op>, holes: set<nat>, t: int)
    requires Agrees(ops, code, holes) && CodeAt(code, |ops|, TableRow(t))
    ensures Agrees(ops + TableRow(-1), code, holes + {|ops| + 1}) && Lead(code, {|ops| + 1}, t)
  {
    hide Agrees, CodeAt, Lead;
    Extends(ops, code, holes, TableRow(-1), TableRow(t), {|ops| + 1}, t);
  }

  lemma IndexConsumes(s: Source)
    requires SourceCompiled(s) && !s.access.Scan?
    ensures s.filter == []
  {
  }

  lemma UpperFails(ops: seq<Op>, code: seq<Op>, holes: set<nat>, s: Source, fail: int, t: int)
    requires Agrees(ops, code, holes) && CodeAt(code, |ops|, TableUpper(s, t))
    requires fail == if HasUpper(s.access) then |ops| + 1 else -1
    ensures Agrees(ops + TableUpper(s, -1), code, holes + PosHole(fail)) && Lead(code, PosHole(fail), t)
  {
    hide Agrees, CodeAt, Lead;
    assert Blank(TableUpper(s, -1), TableUpper(s, t), |ops|, PosHole(fail), t);
    Extends(ops, code, holes, TableUpper(s, -1), TableUpper(s, t), PosHole(fail), t);
  }

  method EmitIndexStart(stmt: Stmt, p: Plan) returns (addr: nat, next: nat)
    requires p.TablePlan? && !p.s.access.Scan? && SourceCompiled(p.s) && stmt.ops == []
    modifies stmt`ops
    ensures next == |stmt.ops| == TableAddresses(p).head && addr == TableAddresses(p).start
    ensures Agrees(stmt.ops, TableCode(p), {addr}) && Lead(TableCode(p), {addr}, TableAddresses(p).tail)
  {
    hide Agrees, Lead, TableCode, TableTurn, AdvanceTable, CloseTable, LoadLiteral, CodeAt, Blank;
    ghost var code, a := TableCode(p), TableAddresses(p);
    TablePieces(p);
    AgreesNothing(code);
    addr, next := Emit(stmt, 0, Op_Integer, p.s.access.indexRoot, 0, 0, []);
    addr, next := Emit(stmt, next, Op_OpenRead, 0, 0, 0, []);
    addr, next := Emit(stmt, next, Op_Integer, p.s.root, 1, 0, []);
    addr, next := Emit(stmt, next, Op_OpenRead, 1, 1, |p.s.columns|, []);
    assert stmt.ops == [] + OpenTable(p.s);
    Continues([], code, {}, OpenTable(p.s));
    ghost var was := stmt.ops;
    next := EmitLiteral(stmt, next, p.s.access.cmp.lit, 2);
    if HasUpper(p.s.access) {
      next := EmitLiteral(stmt, next, p.s.access.upper.value.lit, UPPER_REG);
    }
    assert stmt.ops == was + TableLiterals(p.s);
    Continues(was, code, {}, TableLiterals(p.s));
    was := stmt.ops;
    addr, next := Emit(stmt, next, SeekOf(p.s.access.cmp), 0, -1, 2, []);
    StartTableBlank(p.s, a.tail, addr);
    Extends(was, code, {}, StartTable(p.s, -1), StartTable(p.s, a.tail), {addr}, a.tail);
    assert {} + {addr} == {addr};
  }

  method EmitIndexEnd(stmt: Stmt, pc: nat, p: Plan, loop: nat, seekIdx: nat, seekTbl: nat, upperFail: int, ghost holes: set<nat>)
    requires p.TablePlan? && !p.s.access.Scan? && holes == {seekIdx} + {seekTbl} + PosHole(upperFail)
    requires pc == |stmt.ops| == TableAddresses(p).advance && loop == TableAddresses(p).head
    requires Agrees(stmt.ops, TableCode(p), holes)
    requires Lead(TableCode(p), {seekIdx}, TableAddresses(p).tail) && Lead(TableCode(p), {seekTbl}, TableAddresses(p).advance)
    requires Lead(TableCode(p), PosHole(upperFail), TableAddresses(p).tail)
    modifies stmt`ops
    ensures stmt.ops == TableCode(p)
  {
    hide Agrees, Lead, Within, TableCode, TableTurn, OpenTable, TableLiterals, CodeAt, FollowTable;
    ghost var code, a := TableCode(p), TableAddresses(p);
    TablePieces(p);
    var addr, next := 0, pc;
    ghost var was := stmt.ops;
    if Loops(p.s) {
      addr, next := Emit(stmt, pc, AdvanceOf(p.s.access), 0, loop, 0, []);
    }
    assert stmt.ops == was + AdvanceTable(p.s, a.head);
    Continues(was, code, holes, AdvanceTable(p.s, a.head));
    HolesWithin(stmt.ops, code, holes, PosHole(seekIdx));
    HolesWithin(stmt.ops, code, holes, PosHole(seekTbl));
    HolesWithin(stmt.ops, code, holes, PosHole(upperFail));
    PatchPos(stmt, seekTbl, pc, code, holes);
    var tail := next;
    PatchPos(stmt, upperFail, tail, code, holes - PosHole(seekTbl));
    was := stmt.ops;
    ghost var left := holes - PosHole(seekTbl) - PosHole(upperFail);
    addr, next := Emit(stmt, next, Op_Close, 1, 0, 0, []);
    addr, next := Emit(stmt, next, Op_Close, 0, 0, 0, []);
    addr, next := Emit(stmt, next, Op_Halt, 0, 0, 0, []);
    assert stmt.ops == was + CloseTable(p.s);
    Continues(was, code, left, CloseTable(p.s));
    HolesWithin(was, code, left, left);
    WithinMore(left, left, left, |was|, next);
    PatchPos(stmt, seekIdx, tail, code, left);
    assert left - PosHole(seekIdx) == {};
    Whole(stmt.ops, code);
  }
}
