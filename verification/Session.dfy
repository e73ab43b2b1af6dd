// Running a whole statement: the calls of chidb_stmt_exec a client makes, and what they add
// up to for a compiled query.
module Sessions {
  import opened Common
  import opened Sql
  import opened Values
  import opened Machine
  import opened MachineRun
  import opened Relational
  import opened Optimizer
  import opened Planner
  import opened Acceptance
  import opened Layout
  import opened JoinRows
  import opened JoinStart
  import opened JoinOrder
  import opened JoinBags
  import opened JoinCorrect
  import opened Pipeline
  import opened TableLayout
  import opened Qualifiers
  import opened TableTheorem
  import opened JoinFlow
  import opened SelectFlow
  import opened DbFiles
  import opened CodegenSelects
  import opened Dbms

  // ---- row at a time --------------------------------------------------------------------------------

  // A run that yields a row pauses there; the rest of the run follows.
  lemma {:induction false} NextRow(ops: seq<Op>, m: Machine, n: nat, rows: seq<Row>, end: Machine) returns (k: nat, m': Machine)
    requires Reaches(ops, m, n, rows, end) && rows != []
    ensures 0 < k <= n && ExecTo(ops, m, k, Yielded, m')
    ensures m'.startRR + m'.nRR <= |m'.regs| && rows[0] == RowAt(m') && Reaches(ops, m', n - k, rows[1..], end)
    decreases n
  {
    hide Step, CursorReady;
    match Step(ops, m)
    case Ok(m1) =>
      k, m' := NextRow(ops, m1, n - 1, rows, end);
      k := k + 1;
    case Row(m1) =>
      k, m' := 1, m1;
  }

  // A run without further rows goes to the end of the program.
  lemma {:induction false} LastPause(ops: seq<Op>, m: Machine, n: nat, end: Machine)
    requires Reaches(ops, m, n, [], end) && |ops| <= end.pc
    ensures ExecTo(ops, m, n, Done, end)
    decreases n
  {
    hide Step, CursorReady;
    if n != 0 {
      LastPause(ops, Step(ops, m).m, n - 1, end);
    }
  }

  // Where the next call pauses.
  lemma NextPause(ops: seq<Op>, m: Machine, n: nat, rows: seq<Row>, end: Machine) returns (k: nat, m': Machine, pause: ExecCode)
    requires Reaches(ops, m, n, rows, end) && |ops| <= end.pc
    ensures ExecTo(ops, m, k, pause, m') && k <= n && (pause == Done <==> rows == []) && pause != Violated
    ensures rows == [] ==> m' == end
    ensures rows != [] ==> 0 < k && m'.startRR + m'.nRR <= |m'.regs| && rows[0] == RowAt(m') && Reaches(ops, m', n - k, rows[1..], end)
  {
    hide Reaches, ExecTo;
    if rows == [] {
      LastPause(ops, m, n, end);
      k, m', pause := n, end, Done;
    } else {
      k, m' := NextRow(ops, m, n, rows, end);
      pause := Yielded;
    }
  }

  // ---- the width of rows ------------------------------------------------------------------------------

  lemma WidthAppend(a: seq<Op>, b: seq<Op>, n: nat)
    requires RowsOfWidth(a, n) && RowsOfWidth(b, n)
    ensures RowsOfWidth(a + b, n)
  {
  }

  lemma {:induction false} ChecksWidth(c1: seq<Column>, c2: seq<Column>, cmps: seq<ResolvedCmp>, base: int, tmp: int, target: int, n: nat)
    requires forall i :: 0 <= i < |cmps| ==> SeekOpcode(cmps[i].op).Some?
    ensures RowsOfWidth(CheckAll(c1, c2, cmps, base, tmp, target), n)
  {
    if cmps != [] {
      ChecksWidth(c1, c2, cmps[..|cmps| - 1], base, tmp, target, n);
    }
  }

  lemma {:induction false} PairsWidth(c1: seq<Column>, c2: seq<Column>, pairs: seq<(nat, nat)>, ra: int, rb: int, target: int,
                                        n: nat)
    ensures RowsOfWidth(CheckPairs(c1, c2, pairs, ra, rb, target), n)
  {
    if pairs != [] {
      PairsWidth(c1, c2, pairs[..|pairs| - 1], ra, rb, target, n);
    }
  }

  lemma JoinWidth(p: Plan)
    requires JoinShaped(p)
    ensures RowsOfWidth(JoinCode(p), |p.out|)
  {
    hide JoinPrologue, JoinOuter, JoinInner, JoinTail, RowsOfWidth, SourceShaped;
    PrologueWidth(p);
    OuterWidth(p);
    InnerWidth(p);
    TailWidth(p);
    WidthAppend(JoinPrologue(p), JoinOuter(p), |p.out|);
    WidthAppend(JoinPrologue(p) + JoinOuter(p), JoinInner(p), |p.out|);
    WidthAppend(JoinPrologue(p) + JoinOuter(p) + JoinInner(p), JoinTail(p), |p.out|);
  }

  lemma SideWidth(s: Source, side: nat, r: SideRegs, die: int, n: nat)
    ensures RowsOfWidth(OpenSide(s, side, r), n) && RowsOfWidth(SideLiterals(s, r), n) && RowsOfWidth(PositionOnce(s, side, r, die), n)
  {
  }

  lemma LiteralsWidth(cmps: seq<ResolvedCmp>, base: int, n: nat)
    ensures RowsOfWidth(LoadLiterals(cmps, base), n)
  {
  }

  lemma PrologueWidth(p: Plan)
    requires p.JoinPlan?
    ensures RowsOfWidth(JoinPrologue(p), |p.out|)
  {
    hide AllocateRegs, JoinAddresses, OpenSide, SideLiterals, PositionOnce, LoadLiterals, RowsOfWidth;
    var r, a := AllocateRegs(p), JoinAddresses(p);
    SideWidth(p.s1, 0, r.r1, a.tail, |p.out|);
    SideWidth(p.s2, 1, r.r2, a.tail, |p.out|);
    LiteralsWidth(p.s1.filter, r.lits, |p.out|);
    LiteralsWidth(p.s2.filter, r.lits + |p.s1.filter|, |p.out|);
    LiteralsWidth(p.top, r.lits + |p.s1.filter| + |p.s2.filter|, |p.out|);
    var opens := OpenSide(p.s1, 0, r.r1) + OpenSide(p.s2, 1, r.r2);
    var loads := opens + SideLiterals(p.s1, r.r1) + SideLiterals(p.s2, r.r2);
    var places := loads + PositionOnce(p.s1, 0, r.r1, a.tail) + PositionOnce(p.s2, 1, r.r2, a.tail);
    var f1, f2 := LoadLiterals(p.s1.filter, r.lits), LoadLiterals(p.s2.filter, r.lits + |p.s1.filter|);
    WidthAppend(OpenSide(p.s1, 0, r.r1), OpenSide(p.s2, 1, r.r2), |p.out|);
    WidthAppend(opens, SideLiterals(p.s1, r.r1), |p.out|);
    WidthAppend(opens + SideLiterals(p.s1, r.r1), SideLiterals(p.s2, r.r2), |p.out|);
    WidthAppend(loads, PositionOnce(p.s1, 0, r.r1, a.tail), |p.out|);
    WidthAppend(loads + PositionOnce(p.s1, 0, r.r1, a.tail), PositionOnce(p.s2, 1, r.r2, a.tail), |p.out|);
    WidthAppend(places, f1, |p.out|);
    WidthAppend(places + f1, f2, |p.out|);
    WidthAppend(places + f1 + f2, LoadLiterals(p.top, r.lits + |p.s1.filter| + |p.s2.filter|), |p.out|);
  }

  lemma OuterWidth(p: Plan)
    requires p.JoinPlan? && SourceShaped(p.s1)
    ensures RowsOfWidth(JoinOuter(p), |p.out|)
  {
    hide AllocateRegs, JoinAddresses;
    var r, a := AllocateRegs(p), JoinAddresses(p);
    ChecksWidth(p.s1.columns, p.s2.columns, p.s1.filter, r.lits, r.tmpA, a.advance1, |p.out|);
  }

  lemma InnerWidth(p: Plan)
    requires p.JoinPlan? && SourceShaped(p.s2)
    requires forall i :: 0 <= i < |p.top| ==> SeekOpcode(p.top[i].op).Some?
    ensures RowsOfWidth(JoinInner(p), |p.out|)
  {
    hide AllocateRegs, JoinAddresses;
    var r, a := AllocateRegs(p), JoinAddresses(p);
    PairsWidth(p.s1.columns, p.s2.columns, p.pairs, r.tmpA, r.tmpB, a.advance2, |p.out|);
    ChecksWidth(p.s1.columns, p.s2.columns, p.s2.filter, r.lits + |p.s1.filter|, r.tmpA, a.advance2, |p.out|);
    ChecksWidth(p.s1.columns, p.s2.columns, p.top, r.lits + |p.s1.filter| + |p.s2.filter|, r.tmpA, a.advance2, |p.out|);
  }

  lemma TailWidth(p: Plan)
    requires p.JoinPlan?
    ensures RowsOfWidth(JoinTail(p), |p.out|)
  {
    hide JoinAddresses;
  }

  lemma TableWidth(p: Plan)
    requires p.TablePlan? && SourceShaped(p.s)
    ensures RowsOfWidth(TableCode(p), |p.outIdx|)
  {
    hide TableAddresses, AllocateTableRegs, TableTurn, OpenTable, TableLiterals, StartTable, AdvanceTable, CloseTable, RowsOfWidth;
    var a, n := TableAddresses(p), |p.outIdx|;
    TurnWidth(p);
    TableEndsWidth(p.s, a.tail, a.head, n);
    WidthAppend(OpenTable(p.s), TableLiterals(p.s), n);
    WidthAppend(OpenTable(p.s) + TableLiterals(p.s), StartTable(p.s, a.tail), n);
    WidthAppend(OpenTable(p.s) + TableLiterals(p.s) + StartTable(p.s, a.tail), TableTurn(p), n);
    WidthAppend(OpenTable(p.s) + TableLiterals(p.s) + StartTable(p.s, a.tail) + TableTurn(p), AdvanceTable(p.s, a.head), n);
    WidthAppend(OpenTable(p.s) + TableLiterals(p.s) + StartTable(p.s, a.tail) + TableTurn(p) + AdvanceTable(p.s, a.head),
      CloseTable(p.s), n);
  }

  lemma TurnWidth(p: Plan)
    requires p.TablePlan? && SourceShaped(p.s)
    ensures RowsOfWidth(TableTurn(p), |p.outIdx|)
  {
    hide TableAddresses, AllocateTableRegs;
    var r, a := AllocateTableRegs(p.s), TableAddresses(p);
    ChecksWidth(LeftColumns(p.s), RightColumns(p.s), p.s.filter, r.lits, r.tmp, a.advance, |p.outIdx|);
  }

  lemma TableEndsWidth(s: Source, exit: int, head: int, n: nat)
    ensures RowsOfWidth(OpenTable(s), n) && RowsOfWidth(TableLiterals(s), n) && RowsOfWidth(StartTable(s, exit), n)
    ensures RowsOfWidth(AdvanceTable(s, head), n) && RowsOfWidth(CloseTable(s), n)
  {
  }

  // ---- a client ---------------------------------------------------------------------------------------

  // Calls the statement until it is done and gathers the rows.
  method FetchAll(stmt: Stmt, ghost n: nat, ghost rows: seq<Row>, ghost end: Machine) returns (fetched: seq<Row>)
    requires stmt.Valid() && Reaches(stmt.ops, stmt.State(), n, rows, end) && |stmt.ops| <= end.pc
    requires RowsOfWidth(stmt.ops, stmt.nCols) && stmt.nRR == stmt.nCols
    modifies stmt, stmt.bt.pager
    ensures stmt.Valid() && fetched == rows && stmt.State() == end && stmt.nRR == stmt.nCols
  {
    hide FileStored, Reaches, RowsOfWidth, ExecTo;
    fetched := [];
    ghost var left, k := rows, n;
    while true
      invariant stmt.Valid() && stmt.ops == old(stmt.ops) && stmt.nRR == stmt.nCols == old(stmt.nCols) && Reaches(stmt.ops, stmt.State(), k, left, end)
      invariant fetched + left == rows
      decreases k
    {
      ghost var j, m, pause := NextPause(stmt.ops, stmt.State(), k, left, end);
      var code := stmt.Exec(j, pause, m);
      if code == Done {
        return;
      }
      fetched := fetched + [stmt.regs[stmt.startRR..stmt.startRR + stmt.nRR]];
      left, k := left[1..], k - j;
    }
  }

  // The statement as chidb_stmt_init leaves it.
  ghost predicate New(stmt: Stmt)
    reads stmt, stmt.bt.pager
  {
    stmt.Valid() && stmt.ops == [] && stmt.State() == Initial(stmt.Db(), 0) && stmt.nRR == stmt.nCols == 0
  }

  lemma JoinPlanWidth(schema: seq<SchemaItem>, s: Sra, p: Plan)
    requires PlanSelect(schema, s) == Some(p) && p.JoinPlan?
    ensures RowsOfWidth(JoinCode(p), |p.out|)
  {
    hide JoinCode, PlanSelect, RowsOfWidth;
    var c := JoinPlanned(schema, s);
    JoinIsShaped(schema, s, p, c);
    JoinWidth(p);
  }

  // The indexes that the program of an optimized join reads have the pairs of the rows.
  ghost predicate JoinStored(plan: Option<Plan>, db: Database) {
    plan.Some? && plan.value.JoinPlan? ==> PathsStored(plan.value, db)
  }

  // Its pairs are right.
  ghost predicate JoinRight(plan: Option<Plan>, db: Database) {
    && plan.Some? && plan.value.JoinPlan? && ValidJoin(plan.value)
    && ReadySource(db, plan.value.s1, 0) && ReadySource(db, plan.value.s2, 1) && PairsRight(plan.value, db)
  }

  predicate JoinShowsKeys(plan: Option<Plan>) {
    plan.Some? && plan.value.JoinPlan? && ShowsKeys(plan.value)
  }

  ghost predicate TableHolds(plan: Option<Plan>, db: Database) {
    plan.Some? && plan.value.TablePlan? ==> PathStored(plan.value.s, db)
  }

  ghost predicate TableRight(plan: Option<Plan>, db: Database) {
    plan.Some? && plan.value.TablePlan? && RightSource(db, plan.value.s, 0)
  }

  predicate TableShowsKey(plan: Option<Plan>) {
    plan.Some? && plan.value.TablePlan? && ShowsKey(plan.value.s.columns, plan.value.outIdx)
  }

  // Both sides of an accepted join are scanned.
  predicate ScansBoth(plan: Option<Plan>) {
    plan.Some? && plan.value.JoinPlan? && plan.value.s1.access.Scan? && plan.value.s2.access.Scan?
  }

  predicate ScansTable(plan: Option<Plan>) {
    plan.Some? && plan.value.TablePlan? && plan.value.s.access.Scan?
  }

  lemma JoinShape(schema: seq<SchemaItem>, s: Sra)
    requires PlainJoin(s) && JoinsTables(schema, s)
    ensures PlanSelect(schema, Optimized(schema, s)).Some? ==> PlanSelect(schema, Optimized(schema, s)).value.JoinPlan?
  {
    hide ResolveConjuncts, MakeSource, SharedColumns, StarColumns, ResolveOutputs, Bucket, Conjuncts;
    if !Pushable(schema, s) {
      Unchanged(schema, s);
    }
  }

  lemma TableShape(schema: seq<SchemaItem>, s: Sra)
    requires ReadsTable(schema, s)
    ensures Optimized(schema, s) == s && (PlanSelect(schema, s).Some? ==> PlanSelect(schema, s).value.TablePlan?)
  {
    hide ResolveConjuncts, MakeSource, ResolveOutputs;
  }

  // A natural join, optimized, compiled and run over the pages of a file, row by row: the
  // statement is accepted exactly when it would be without optimizing, and then the client
  // gets the rows it denotes if the pairs are right, and if the rows show both keys only then.
  method QueryJoin(stmt: Stmt, schema: seq<SchemaItem>, s: Sra) returns (ok: bool, rows: seq<Row>)
    requires PlainJoin(s) && JoinsTables(schema, s) && New(stmt)
    requires Stored(schema, stmt.Db()) && JoinStored(PlanSelect(schema, Optimized(schema, s)), stmt.Db())
    requires s.exprs != [] && SharedTypesAgree(schema, s) && ListInRange(CondList(s.sra))
    modifies stmt, stmt.bt.pager
    ensures ok <==> Accepted(schema, s)
    ensures ok ==> stmt.Valid() && DenoteQuery(schema, old(stmt.store), s).Some?
    ensures ok && JoinRight(PlanSelect(schema, Optimized(schema, s)), old(stmt.Db())) ==>
      multiset(rows) == multiset(DenoteQuery(schema, old(stmt.store), s).value)
    ensures ok && JoinShowsKeys(PlanSelect(schema, Optimized(schema, s)))
            && multiset(rows) == multiset(DenoteQuery(schema, old(stmt.store), s).value) ==>
      JoinRight(PlanSelect(schema, Optimized(schema, s)), old(stmt.Db()))
    ensures ok && ScansBoth(PlanSelect(schema, Optimized(schema, s))) ==> rows == DenoteQuery(schema, old(stmt.store), s).value
  {
    hide Stored, JoinsTables, SharedTypesAgree, ListInRange, Optimized, DenoteQuery, PlanSelect, JoinCode, TableCode, Reaches,
      FileStored, RowsOfWidth, Accepted, PathsStored, PairsRight, ReadySource, ValidJoin, ShowsKeys;
    JoinShape(schema, s);
    ok := Prepare(stmt, schema, s);
    rows := [];
    if ok {
      ghost var p := PlanSelect(schema, Optimized(schema, s)).value;
      ghost var want, end := PipelineYields(schema, stmt.Db(), s, p);
      JoinPlanWidth(schema, Optimized(schema, s), p);
      ghost var n: nat :| Reaches(JoinCode(p), stmt.State(), n, want, end);
      rows := FetchAll(stmt, n, want, end);
    }
  }

  // The same for a statement over one table, whose qualifiers count for nothing.
  method QueryTable(stmt: Stmt, schema: seq<SchemaItem>, s: Sra) returns (ok: bool, rows: seq<Row>)
    requires ReadsTable(schema, s) && New(stmt)
    requires TableRunnable(schema, stmt.Db(), s) && TableHolds(PlanSelect(schema, s), stmt.Db())
    modifies stmt, stmt.bt.pager
    ensures ok <==> Accepted(schema, s)
    ensures ok ==> stmt.Valid() && DenoteQuery(schema, old(stmt.store), Unqualified(s)).Some?
    ensures ok && TableRight(PlanSelect(schema, s), old(stmt.Db())) ==>
      multiset(rows) == multiset(DenoteQuery(schema, old(stmt.store), Unqualified(s)).value)
    ensures ok && TableShowsKey(PlanSelect(schema, s))
            && multiset(rows) == multiset(DenoteQuery(schema, old(stmt.store), Unqualified(s)).value) ==>
      TableRight(PlanSelect(schema, s), old(stmt.Db()))
    ensures ok && ScansTable(PlanSelect(schema, s)) ==> rows == DenoteQuery(schema, old(stmt.store), Unqualified(s)).value
  {
    hide ReadsTable, TableRunnable, Optimized, DenoteQuery, PlanSelect, JoinCode, TableCode, Reaches, FileStored, RowsOfWidth, Accepted, RightSource,
      PathStored, Unqualified, ShowsKey;
    TableShape(schema, s);
    ok := Prepare(stmt, schema, s);
    rows := [];
    if ok {
      ghost var p := PlanSelect(schema, s).value;
      ghost var want, end := TableYields(schema, stmt.Db(), s, p);
      TablePlanWidth(schema, s, p);
      ghost var n: nat :| Reaches(TableCode(p), stmt.State(), n, want, end);
      rows := FetchAll(stmt, n, want, end);
    }
  }

  lemma TablePlanWidth(schema: seq<SchemaItem>, s: Sra, p: Plan)
    requires PlanSelect(schema, s) == Some(p) && p.TablePlan?
    ensures RowsOfWidth(TableCode(p), |p.outIdx|)
  {
    hide TableCode, RowsOfWidth, PlanSelect, SourceShaped;
    TableIsShaped(schema, s, p);
    TableWidth(p);
  }
}
