// Running the program for a SELECT over one table.
module TableRun {
  import opened Common
  import opened Sql
  import opened Values
  import opened Trees
  import opened Machine
  import opened MachineRun
  import opened Planner
  import opened Layout
  import opened JoinLayout
  import opened CodeRuns
  import opened JoinRows
  import opened JoinRun
  import opened JoinLoops
  import opened JoinStart
  import opened TableLayout

  // ---- the rows of the program --------------------------------------------------------------------

  ghost predicate ValidTable(p: Plan) {
    && p.TablePlan? && SideCmps(p.s.columns, 0, p.s.filter)
    && p.outIdx != [] && forall k :: 0 <= k < |p.outIdx| ==> p.outIdx[k] < |p.s.columns|
  }

  ghost predicate ValidTableQuery(p: Plan, db: Database) {
    ValidTable(p) && ValidSource(db, p.s, 0)
  }

  function TableRow(columns: seq<Column>, outIdx: seq<nat>, e: Entry): (r: Row)
    requires forall k :: 0 <= k < |outIdx| ==> outIdx[k] < |columns|
    ensures |r| == |outIdx| && forall k :: 0 <= k < |outIdx| ==> r[k] == ColumnValue(columns, e, outIdx[k])
  {
    seq(|outIdx|, k requires 0 <= k < |outIdx| => ColumnValue(columns, e, outIdx[k]))
  }

  ghost function EmitRow(p: Plan, e: Entry): seq<Row>
    requires ValidTable(p)
  {
    if PassesAll(p.s.columns, 0, e, p.s.filter) then [TableRow(p.s.columns, p.outIdx, e)] else []
  }

  ghost function RowsAt(p: Plan, t: seq<Entry>, vs: seq<nat>): seq<Row>
    requires ValidTable(p) && forall k :: 0 <= k < |vs| ==> vs[k] < |t|
  {
    if vs == [] then [] else EmitRow(p, t[vs[0]]) + RowsAt(p, t, vs[1..])
  }

  // All the rows the program yields, in order.
  ghost function TableOutput(p: Plan, db: Database): seq<Row>
    requires ValidTableQuery(p, db)
  {
    RowsAt(p, Rows(db, p.s.root), VisitOf(db, p.s, 0))
  }

  // ---- what holds throughout the loop ---------------------------------------------------------------

  ghost predicate TableReady(m: Machine, p: Plan, db: Database)
    requires p.TablePlan?
  {
    && m.db == db && CursorOn(m, TableCursor(p.s), Rows(db, p.s.root))
    && (p.s.access.Scan? ==> Loaded(m, p.s.filter, 1))
    && (!p.s.access.Scan? ==>
          CursorOn(m, 0, Rows(db, IndexRoot(p.s))) && RegIs(m, 2, LiteralValue(p.s.access.cmp.lit)))
    && (HasUpper(p.s.access) ==> RegIs(m, UPPER_REG, LiteralValue(p.s.access.upper.value.lit)))
  }

  // Cursor 0 drives the loop.
  ghost predicate DrivenAt(m: Machine, p: Plan, db: Database, d: nat)
    requires p.TablePlan?
  {
    CursorOn(m, 0, Driver(p.s, Rows(db, p.s.root), Rows(db, IndexRoot(p.s)))) && IsPositioned(m, 0) && m.cursors[0].pos == d
  }

  ghost predicate OnTableRow(m: Machine, p: Plan, e: Entry)
    requires p.TablePlan?
  {
    OnRow(m, LeftColumns(p.s), RightColumns(p.s), e, e, TableCursor(p.s))
  }

  lemma ReadyOn(m: Machine, m': Machine, p: Plan, db: Database, lo: nat)
    requires p.TablePlan? && TableReady(m, p, db) && SameBelow(m, m', lo) && m'.cursors == m.cursors
    requires AllocateTableRegs(p.s).tmp <= lo || (!p.s.access.Scan? && 4 <= lo && !HasUpper(p.s.access))
             || (p.s.access.Scan? && p.s.filter == [])
    ensures TableReady(m', p, db)
  {
    hide Rows, LiteralValue;
    if p.s.access.Scan? {
      forall i | 0 <= i < |p.s.filter| ensures RegIs(m', 1 + i, LiteralValue(p.s.filter[i].lit)) {
        assert RegIs(m, 1 + i, LiteralValue(p.s.filter[i].lit));
      }
    }
  }

  // ---- one row ----------------------------------------------------------------------------------------

  lemma FollowTableRuns(p: Plan, db: Database, m: Machine, d: nat) returns (m': Machine)
    requires p.TablePlan? && ValidTableQuery(p, db) && TableReady(m, p, db) && DrivenAt(m, p, db, d)
    requires m.pc == TableAddresses(p).head
    ensures Runs(TableCode(p), m, [], m') && TableReady(m', p, db) && DrivenAt(m', p, db, d)
    ensures var t, x, a := Rows(db, p.s.root), Rows(db, IndexRoot(p.s)), TableAddresses(p);
      var j := TablePos(p.s, t, x, d);
      && OnTableRow(m', p, t[j])
      && m'.pc == if StopsAt(p.s, 0, t, x, j) then a.tail else a.checks
  {
    hide Runs, Rows, LiteralValue, Passes, TypedEntry, LoadColumn, TableCode, ValidTable;
    var ops, a := TableCode(p), TableAddresses(p);
    var t, x := Rows(db, p.s.root), Rows(db, IndexRoot(p.s));
    var j := TablePos(p.s, t, x, d);
    if p.s.access.Scan? {
      m' := m;
      RunsNothing(ops, m);
    } else {
      TurnPieces(p);
      var code := FollowTable(p.s, a.advance, a.tail);
      assert ops[m.pc + 0] == code[0] && ops[m.pc + 1] == code[1];
      m' := FollowTableKey(p, db, m, d);
      if HasUpper(p.s.access) {
        var m1 := m';
        assert ops[m.pc + 2] == code[2] && ops[m.pc + 3] == code[3];
        m' := UpperCheck(ops, m1, p.s.columns, 1, p.s.access.upper.value, UPPER_REG, 5, a.tail);
        RunsOn(ops, m, m1, [], m');
      }
    }
  }

  lemma FollowTableKey(p: Plan, db: Database, m: Machine, d: nat) returns (m': Machine)
    requires p.TablePlan? && ValidTableQuery(p, db) && TableReady(m, p, db) && DrivenAt(m, p, db, d) && !p.s.access.Scan?
    requires m.pc + 1 < |TableCode(p)| && TableCode(p)[m.pc] == MakeOp(Op_IdxPKey, 0, PKEY_REG, 0)
    requires TableCode(p)[m.pc + 1] == MakeOp(Op_Seek, 1, TableAddresses(p).advance, PKEY_REG)
    ensures Runs(TableCode(p), m, [], m') && TableReady(m', p, db) && DrivenAt(m', p, db, d) && m'.pc == m.pc + 2
    ensures var j := TablePos(p.s, Rows(db, p.s.root), Rows(db, IndexRoot(p.s)), d);
      IsPositioned(m', 1) && m'.cursors[1].pos == j && OnTableRow(m', p, Rows(db, p.s.root)[j])
  {
    hide Runs, Rows, LiteralValue, TableCode, ValidTable, TypedEntry;
    var ops, t, x := TableCode(p), Rows(db, p.s.root), Rows(db, IndexRoot(p.s));
    IdxPKeyRuns(ops, m, 0, PKEY_REG);
    var m1 := AfterLoad(m, PKEY_REG, Int(Unwrap(x[d].pk)));
    SeekRuns(ops, m1, Op_Seek, 1, TableAddresses(p).advance, PKEY_REG, x[d].pk);
    m' := AtPosition(m1.(pc := m1.pc + 1), 1, TablePos(p.s, t, x, d));
    RunsOn(ops, m, m1, [], m');
  }

  lemma FilterIsPass(p: Plan, e: Entry)
    requires ValidTable(p) && (!p.s.access.Scan? ==> p.s.filter == [])
    ensures ValidCmps(LeftColumns(p.s), RightColumns(p.s), p.s.filter)
    ensures AllPass(LeftColumns(p.s), RightColumns(p.s), e, e, p.s.filter) <==> PassesAll(p.s.columns, 0, e, p.s.filter)
  {
    var f := p.s.filter;
    forall i | 0 <= i < |f|
      ensures ValidCmp(LeftColumns(p.s), RightColumns(p.s), f[i])
      ensures CmpPasses(LeftColumns(p.s), RightColumns(p.s), e, e, f[i]) <==> Passes(p.s.columns, e, f[i])
    {
      assert SideCmp(p.s.columns, 0, f[i]);
    }
  }

  lemma OutIsRow(p: Plan, e: Entry)
    requires ValidTable(p)
    ensures ValidOut(LeftColumns(p.s), RightColumns(p.s), TableOut(p.s, p.outIdx))
    ensures OutRow(LeftColumns(p.s), RightColumns(p.s), e, e, TableOut(p.s, p.outIdx)) == TableRow(p.s.columns, p.outIdx, e)
  {
    hide ColumnValue;
  }

  lemma CheckTableRow(p: Plan, db: Database, m: Machine, e: Entry) returns (m': Machine)
    requires p.TablePlan? && ValidTableQuery(p, db) && TableReady(m, p, db) && OnTableRow(m, p, e)
    requires m.pc == TableAddresses(p).checks
    ensures Runs(TableCode(p), m, [], m') && TableReady(m', p, db) && m'.cursors == m.cursors && OnTableRow(m', p, e)
    ensures m'.pc == if PassesAll(p.s.columns, 0, e, p.s.filter) then TableAddresses(p).outs else TableAddresses(p).advance
  {
    hide Runs, Rows, LiteralValue, Passes, TypedEntry, TableCode, AllPass, PassesAll, CheckAll, ValidSource, CursorOn, ValidCmps;
    var ops, r, a := TableCode(p), AllocateTableRegs(p.s), TableAddresses(p);
    TurnPieces(p);
    NoFilterOnIndex(p, db);
    FilterIsPass(p, e);
    FilterSides(p);
    assert Loaded(m, p.s.filter, r.lits);
    m' := CheckAllRuns(ops, m, LeftColumns(p.s), RightColumns(p.s), e, e, p.s.filter, r.lits, r.tmp, a.advance);
    ReadyOn(m, m', p, db, r.tmp);
  }

  // Check the row and yield it.
  lemma EmitTableRow(p: Plan, db: Database, m: Machine, e: Entry) returns (m': Machine)
    requires p.TablePlan? && ValidTableQuery(p, db) && TableReady(m, p, db) && OnTableRow(m, p, e)
    requires m.pc == TableAddresses(p).checks
    ensures Runs(TableCode(p), m, EmitRow(p, e), m') && TableReady(m', p, db) && m'.cursors == m.cursors
    ensures m'.pc == TableAddresses(p).advance
  {
    hide Runs, OnRow, TableCode, TableRow, OutRow, PassesAll, ValidSource, TableReady, SideCmps, CheckAll;
    var ops, r := TableCode(p), AllocateTableRegs(p.s);
    var c1, c2, out := LeftColumns(p.s), RightColumns(p.s), TableOut(p.s, p.outIdx);
    TurnPieces(p);
    OutIsRow(p, e);
    var m1 := CheckTableRow(p, db, m, e);
    if PassesAll(p.s.columns, 0, e, p.s.filter) {
      m' := EmitRuns(ops, m1, c1, c2, e, e, out, r.out);
      ReadyOn(m1, m', p, db, r.out);
      RunsOn(ops, m, m1, EmitRow(p, e), m');
    } else {
      m' := m1;
    }
  }

  lemma NoFilterOnIndex(p: Plan, db: Database)
    requires ValidTableQuery(p, db)
    ensures !p.s.access.Scan? ==> p.s.filter == []
  {
  }

  lemma FilterSides(p: Plan)
    requires ValidTable(p) && (!p.s.access.Scan? ==> p.s.filter == [])
    ensures forall i :: 0 <= i < |p.s.filter| ==> p.s.filter[i].col.side == TableCursor(p.s)
  {
    forall i | 0 <= i < |p.s.filter| ensures p.s.filter[i].col.side == TableCursor(p.s) {
      assert SideCmp(p.s.columns, 0, p.s.filter[i]);
    }
  }

  lemma RowPosition(p: Plan, db: Database, m: Machine, d: nat) returns (j: nat)
    requires p.TablePlan? && ValidTableQuery(p, db) && DrivenAt(m, p, db, d)
    ensures var t, x := Rows(db, p.s.root), Rows(db, IndexRoot(p.s));
      && d < |Driver(p.s, t, x)| && (!p.s.access.Scan? ==> Linked(t, x)) && ValidAccess(p.s, 0, t, x)
      && j == TablePos(p.s, t, x, d) && j < |t|
  {
    hide Rows;
    j := TablePos(p.s, Rows(db, p.s.root), Rows(db, IndexRoot(p.s)), d);
  }

  // One turn of the loop, without the advance.
  lemma TurnRuns(p: Plan, db: Database, m: Machine, d: nat) returns (m': Machine)
    requires p.TablePlan? && ValidTableQuery(p, db) && TableReady(m, p, db) && DrivenAt(m, p, db, d)
    requires m.pc == TableAddresses(p).head
    ensures TableReady(m', p, db) && DrivenAt(m', p, db, d)
    ensures var t, x, a := Rows(db, p.s.root), Rows(db, IndexRoot(p.s)), TableAddresses(p);
      var j := TablePos(p.s, t, x, d);
      && Runs(TableCode(p), m, if StopsAt(p.s, 0, t, x, j) then [] else EmitRow(p, t[j]), m')
      && m'.pc == if StopsAt(p.s, 0, t, x, j) then a.tail else a.advance
  {
    hide Runs, Rows, EmitRow, TableCode, ValidSource, TableAddresses, TableReady, OnTableRow, ValidTable;
    var t, x := Rows(db, p.s.root), Rows(db, IndexRoot(p.s));
    var j := RowPosition(p, db, m, d);
    var m1 := FollowTableRuns(p, db, m, d);
    if StopsAt(p.s, 0, t, x, j) {
      m' := m1;
    } else {
      m' := EmitTableRow(p, db, m1, t[j]);
      RunsOn(TableCode(p), m, m1, EmitRow(p, t[j]), m');
    }
  }

  // ---- the loop -----------------------------------------------------------------------------------------

  lemma AdvanceTableRuns(p: Plan, db: Database, m: Machine, d: nat) returns (m': Machine)
    requires p.TablePlan? && TableReady(m, p, db) && DrivenAt(m, p, db, d) && Loops(p.s)
    requires m.pc == TableAddresses(p).advance
    ensures Runs(TableCode(p), m, [], m') && TableReady(m', p, db)
    ensures match NextPosition(AdvanceOf(p.s.access), |Driver(p.s, Rows(db, p.s.root), Rows(db, IndexRoot(p.s)))|, d)
            case None => m'.pc == TableAddresses(p).tail
            case Some(d') => m'.pc == TableAddresses(p).head && DrivenAt(m', p, db, d')
  {
    hide TableCode, Rows, LiteralValue, Loaded;
    var ops, a := TableCode(p), TableAddresses(p);
    TablePieces(p);
    OneAt(ops, a.advance, MakeOp(AdvanceOf(p.s.access), 0, a.head, 0));
    AdvanceRuns(ops, m, AdvanceOf(p.s.access), 0, a.head);
    m' := match NextPosition(AdvanceOf(p.s.access), |m.cursors[0].snapshot|, d)
          case None => m.(pc := m.pc + 1)
          case Some(d') => AtPosition(m.(pc := a.head), 0, d');
    LoadedSame(m, m', p);
  }

  lemma LoadedSame(m: Machine, m': Machine, p: Plan)
    requires p.TablePlan? && m'.regs == m.regs
    ensures Loaded(m, p.s.filter, 1) == Loaded(m', p.s.filter, 1)
  {
    hide LiteralValue;
    assert forall i :: 0 <= i < |p.s.filter| ==> (RegIs(m, 1 + i, LiteralValue(p.s.filter[i].lit)) <==> RegIs(m', 1 + i, LiteralValue(p.s.filter[i].lit)));
  }

  lemma OneMore(p: Plan, t: seq<Entry>, j: nat, rest: seq<nat>)
    requires ValidTable(p) && j < |t| && forall k :: 0 <= k < |rest| ==> rest[k] < |t|
    ensures RowsAt(p, t, [j] + rest) == EmitRow(p, t[j]) + RowsAt(p, t, rest)
  {
    hide EmitRow, ValidTable;
    assert ([j] + rest)[1..] == rest;
  }

  lemma {:induction false} LoopRuns(p: Plan, db: Database, m: Machine, d: nat) returns (m': Machine)
    requires p.TablePlan? && ValidTableQuery(p, db) && TableReady(m, p, db) && DrivenAt(m, p, db, d) && Loops(p.s)
    requires m.pc == TableAddresses(p).head
    ensures var t, x := Rows(db, p.s.root), Rows(db, IndexRoot(p.s));
      d < |Driver(p.s, t, x)| && Runs(TableCode(p), m, RowsAt(p, t, Walk(p.s, 0, t, x, d)), m')
    ensures m'.pc == TableAddresses(p).tail && TableReady(m', p, db)
    decreases WalkMeasure(p.s, |Driver(p.s, Rows(db, p.s.root), Rows(db, IndexRoot(p.s)))|, d)
  {
    hide Runs, Rows, EmitRow, TableCode, TableAddresses, TableReady, ValidTable, Passes;
    var ops := TableCode(p);
    var t, x := Rows(db, p.s.root), Rows(db, IndexRoot(p.s));
    var j := RowPosition(p, db, m, d);
    var m1 := TurnRuns(p, db, m, d);
    if StopsAt(p.s, 0, t, x, j) {
      m' := m1;
    } else {
      var m2 := AdvanceTableRuns(p, db, m1, d);
      match NextPosition(AdvanceOf(p.s.access), |Driver(p.s, t, x)|, d)
      case None =>
        m' := m2;
        OneMore(p, t, j, []);
        RunsThen(ops, m, EmitRow(p, t[j]), m1, [], m');
      case Some(d') =>
        m' := LoopRuns(p, db, m2, d');
        var rest := Walk(p.s, 0, t, x, d');
        OneMore(p, t, j, rest);
        RunsOn(ops, m1, m2, RowsAt(p, t, rest), m');
        RunsThen(ops, m, EmitRow(p, t[j]), m1, RowsAt(p, t, rest), m');
    }
  }

  // ---- before and after the loop -----------------------------------------------------------------------

  lemma OpenTableRuns(p: Plan, db: Database) returns (m: Machine)
    requires ValidTableQuery(p, db) && p.TablePlan?
    ensures Runs(TableCode(p), Initial(db, |p.outIdx|), [], m) && m.pc == TableAddresses(p).lits && m.db == db
    ensures CursorOn(m, TableCursor(p.s), Rows(db, p.s.root))
    ensures !p.s.access.Scan? ==> CursorOn(m, 0, Rows(db, IndexRoot(p.s)))
  {
    hide Runs, Rows, TableCode, ValidTable;
    var ops, code, m0 := TableCode(p), OpenTable(p.s), Initial(db, |p.outIdx|);
    TablePieces(p);
    assert ops[0 + 0] == code[0] && ops[0 + 1] == code[1];
    if p.s.access.Scan? {
      m := OpenOne(ops, m0, p.s.root, 0, 0, |p.s.columns|);
    } else {
      var m1 := OpenOne(ops, m0, p.s.access.indexRoot, 0, 0, 0);
      assert ops[0 + 2] == code[2] && ops[0 + 3] == code[3];
      m := OpenOne(ops, m1, p.s.root, 1, 1, |p.s.columns|);
      RunsOn(ops, m0, m1, [], m);
    }
  }

  lemma TableLiteralsRun(p: Plan, db: Database, m: Machine) returns (m': Machine)
    requires ValidTableQuery(p, db) && p.TablePlan? && m.pc == TableAddresses(p).lits && m.db == db
    requires CursorOn(m, TableCursor(p.s), Rows(db, p.s.root))
    requires !p.s.access.Scan? ==> CursorOn(m, 0, Rows(db, IndexRoot(p.s)))
    ensures Runs(TableCode(p), m, [], m') && m'.pc == TableAddresses(p).start && TableReady(m', p, db)
  {
    hide Runs, Rows, TableCode, LiteralValue, OpenTable;
    var ops, a := TableCode(p), TableAddresses(p);
    TablePieces(p);
    if p.s.access.Scan? {
      CmpsNotDouble(p.s.columns, 0, p.s.filter);
      m' := LiteralsRun(ops, m, p.s.filter, 1, |p.s.filter|);
      assert p.s.filter[..|p.s.filter|] == p.s.filter;
    } else {
      var code := TableLiterals(p.s);
      assert ops[m.pc + 0] == code[0];
      LiteralRuns(ops, m, p.s.access.cmp.lit, 2);
      m' := AfterLoad(m, 2, LiteralValue(p.s.access.cmp.lit));
      if HasUpper(p.s.access) {
        var m1 := m';
        assert ops[m.pc + 1] == code[1];
        LiteralRuns(ops, m1, p.s.access.upper.value.lit, UPPER_REG);
        m' := AfterLoad(m1, UPPER_REG, LiteralValue(p.s.access.upper.value.lit));
        RunsOn(ops, m, m1, [], m');
      }
    }
  }

  lemma RewindTable(p: Plan, db: Database, m: Machine) returns (m': Machine)
    requires ValidTableQuery(p, db) && p.TablePlan? && TableReady(m, p, db) && p.s.access.Scan?
    requires m.pc < |TableCode(p)| && TableCode(p)[m.pc] == MakeOp(Op_Rewind, 0, TableAddresses(p).tail, 0)
    ensures Runs(TableCode(p), m, [], m') && TableReady(m', p, db)
    ensures match StartPosition(p.s, Rows(db, p.s.root), Rows(db, IndexRoot(p.s)))
            case None => m'.pc == TableAddresses(p).tail
            case Some(d) => m'.pc == m.pc + 1 && DrivenAt(m', p, db, d)
  {
    hide TableCode, Rows, Loaded, ValidTable, TableAddresses, ValidSource;
    var tail := TableAddresses(p).tail;
    RewindRuns(TableCode(p), m, 0, tail);
    m' := if m.cursors[0].snapshot == [] then AtPosition(m.(pc := tail), 0, -1) else AtPosition(m.(pc := m.pc + 1), 0, 0);
    LoadedSame(m, m', p);
  }

  lemma SeekTable(p: Plan, db: Database, m: Machine) returns (m': Machine)
    requires ValidTableQuery(p, db) && p.TablePlan? && TableReady(m, p, db) && !p.s.access.Scan?
    requires m.pc < |TableCode(p)| && TableCode(p)[m.pc] == MakeOp(SeekOf(p.s.access.cmp), 0, TableAddresses(p).tail, 2)
    ensures Runs(TableCode(p), m, [], m') && TableReady(m', p, db)
    ensures match StartPosition(p.s, Rows(db, p.s.root), Rows(db, IndexRoot(p.s)))
            case None => m'.pc == TableAddresses(p).tail
            case Some(d) => m'.pc == m.pc + 1 && DrivenAt(m', p, db, d)
  {
    hide TableCode, Rows, Loaded, ValidTable, TableAddresses, Linked;
    var tail, key := TableAddresses(p).tail, SeekKey(p.s.access.cmp.lit);
    IntLiteral(p.s.access.cmp.lit);
    SeekRuns(TableCode(p), m, SeekOf(p.s.access.cmp), 0, tail, 2, key);
    m' := match SeekPosition(SeekOf(p.s.access.cmp), m.cursors[0].snapshot, key)
          case None => m.(pc := tail)
          case Some(d) => AtPosition(m.(pc := m.pc + 1), 0, d);
  }

  lemma StartTableRuns(p: Plan, db: Database, m: Machine) returns (m': Machine)
    requires ValidTableQuery(p, db) && p.TablePlan? && TableReady(m, p, db) && m.pc == TableAddresses(p).start
    ensures Runs(TableCode(p), m, [], m') && TableReady(m', p, db)
    ensures match StartPosition(p.s, Rows(db, p.s.root), Rows(db, IndexRoot(p.s)))
            case None => m'.pc == TableAddresses(p).tail
            case Some(d) => m'.pc == TableAddresses(p).head && DrivenAt(m', p, db, d)
  {
    hide TableCode, Rows, ValidTableQuery, TableReady, OpenTable, TableLiterals, Runs, DrivenAt, StartPosition, CodeAt;
    var ops, a := TableCode(p), TableAddresses(p);
    TablePieces(p);
    OneAt(ops, a.start, StartTable(p.s, a.tail)[0]);
    if p.s.access.Scan? {
      m' := RewindTable(p, db, m);
    } else {
      m' := SeekTable(p, db, m);
    }
  }

  lemma CloseTableRuns(p: Plan, db: Database, m: Machine) returns (end: Machine)
    requires p.TablePlan? && TableReady(m, p, db) && m.pc == TableAddresses(p).tail
    ensures Runs(TableCode(p), m, [], end) && end.pc == |TableCode(p)|
  {
    hide TableCode, Rows, Loaded, Runs, OpenTable, TableLiterals, FollowTable;
    var ops, a, code := TableCode(p), TableAddresses(p), CloseTable(p.s);
    TablePieces(p);
    var m1 := m;
    if p.s.access.Scan? {
      RunsNothing(ops, m);
    } else {
      assert ops[a.tail + 0] == code[0];
      RunsStep(ops, m);
      m1 := Step(ops, m).m;
    }
    assert ops[a.tail + (|code| - 2)] == code[|code| - 2] && ops[a.tail + (|code| - 1)] == code[|code| - 1];
    end := CloseHalts(ops, m1);
    RunsOn(ops, m, m1, [], end);
  }

  lemma CloseHalts(ops: seq<Op>, m: Machine) returns (end: Machine)
    requires m.pc + 1 < |ops| && IsOpen(m, 0)
    requires ops[m.pc] == MakeOp(Op_Close, 0, 0, 0) && ops[m.pc + 1] == MakeOp(Op_Halt, 0, 0, 0)
    ensures Runs(ops, m, [], end) && end.pc == |ops|
  {
    hide Runs;
    RunsStep(ops, m);
    var m1 := Step(ops, m).m;
    RunsStep(ops, m1);
    end := Step(ops, m1).m;
    RunsOn(ops, m, m1, [], end);
  }

  lemma SourceAccess(db: Database, s: Source, side: nat)
    requires ValidSource(db, s, side)
    ensures ValidAccess(s, side, Rows(db, s.root), Rows(db, IndexRoot(s)))
  {
  }

  // The rows from where the loop starts.
  lemma BodyRuns(p: Plan, db: Database, m: Machine) returns (m': Machine)
    requires ValidTableQuery(p, db) && p.TablePlan? && TableReady(m, p, db) && m.pc == TableAddresses(p).start
    ensures Runs(TableCode(p), m, TableOutput(p, db), m') && TableReady(m', p, db) && m'.pc == TableAddresses(p).tail
  {
    hide Runs, Rows, EmitRow, TableCode, TableReady, ValidTable, Passes, Walk, ValidSource, OpenTable, TableLiterals, FollowTable;
    var ops := TableCode(p);
    var t, x := Rows(db, p.s.root), Rows(db, IndexRoot(p.s));
    SourceAccess(db, p.s, 0);
    var m1 := StartTableRuns(p, db, m);
    match StartPosition(p.s, t, x)
    case None => m' := m1;
    case Some(d) =>
      if Loops(p.s) {
        m' := LoopRuns(p, db, m1, d);
      } else {
        var j := RowPosition(p, db, m1, d);
        m' := TurnRuns(p, db, m1, d);
        OneMore(p, t, j, []);
        assert VisitOf(db, p.s, 0) == [j] + [];
        assert EmitRow(p, t[j]) + [] == EmitRow(p, t[j]);
      }
      RunsOn(ops, m, m1, TableOutput(p, db), m');
  }

  // The compiled SELECT over one table runs from the first instruction to Halt and yields
  // exactly the rows of the walk.
  lemma TableRuns(p: Plan, db: Database) returns (end: Machine)
    requires ValidTableQuery(p, db) && p.TablePlan?
    ensures Runs(TableCode(p), Initial(db, |p.outIdx|), TableOutput(p, db), end) && end.pc == |TableCode(p)|
  {
    hide Runs, TableCode, TableReady, ValidTableQuery, TableOutput, TableAddresses, CursorOn, Initial;
    var ops, out := TableCode(p), TableOutput(p, db);
    var m1 := OpenTableRuns(p, db);
    var m2 := TableLiteralsRun(p, db, m1);
    RunsOn(ops, Initial(db, |p.outIdx|), m1, [], m2);
    var m3 := BodyRuns(p, db, m2);
    RunsOn(ops, Initial(db, |p.outIdx|), m2, out, m3);
    end := CloseTableRuns(p, db, m3);
    RunsThen(ops, Initial(db, |p.outIdx|), out, m3, [], end);
    assert out + [] == out;
  }
}
