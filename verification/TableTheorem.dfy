// The rows of a SELECT over one table: what its program yields and what it denotes.
module TableTheorem {
  import opened Common
  import opened Sql
  import opened Values
  import opened Trees
  import opened Machine
  import opened MachineRun
  import opened Relational
  import opened OptimizerProof
  import opened Planner
  import opened JoinRows
  import opened JoinStart
  import opened IndexVisits
  import opened AccessPaths
  import opened JoinOrder
  import opened JoinMeaning
  import opened JoinDenotes
  import opened JoinCorrect
  import opened JoinTheorem
  import opened Qualifiers
  import opened TableLayout
  import opened TableRun

  // ---- output rows -----------------------------------------------------------------------------

  function Shown(columns: seq<Column>, outIdx: seq<nat>, es: seq<Entry>): (r: seq<Row>)
    requires forall k :: 0 <= k < |outIdx| ==> outIdx[k] < |columns|
    ensures |r| == |es| && forall i :: 0 <= i < |es| ==> r[i] == TableRow(columns, outIdx, es[i])
  {
    seq(|es|, i requires 0 <= i < |es| => TableRow(columns, outIdx, es[i]))
  }

  lemma {:induction false} RowsAtShown(p: Plan, t: seq<Entry>, vs: seq<nat>)
    requires ValidTable(p) && forall k :: 0 <= k < |vs| ==> vs[k] < |t|
    ensures RowsAt(p, t, vs) == Shown(p.s.columns, p.outIdx, Passing(p.s.columns, 0, p.s.filter, Pick(t, vs)))
  {
    hide PassesAll, TableRow, SideCmps;
    if vs != [] {
      RowsAtShown(p, t, vs[1..]);
      var picked := Pick(t, vs);
      assert picked[1..] == Pick(t, vs[1..]);
    }
  }

  lemma ShownAppend(columns: seq<Column>, outIdx: seq<nat>, a: seq<Entry>, b: seq<Entry>)
    requires forall k :: 0 <= k < |outIdx| ==> outIdx[k] < |columns|
    ensures Shown(columns, outIdx, a + b) == Shown(columns, outIdx, a) + Shown(columns, outIdx, b)
  {
    hide TableRow;
  }

  lemma {:induction false} ShownPermuted(columns: seq<Column>, outIdx: seq<nat>, a: seq<Entry>, b: seq<Entry>)
    requires multiset(a) == multiset(b) && forall k :: 0 <= k < |outIdx| ==> outIdx[k] < |columns|
    ensures multiset(Shown(columns, outIdx, a)) == multiset(Shown(columns, outIdx, b))
  {
    hide TableRow, Shown;
    if a == [] {
      assert |multiset(b)| == 0;
    } else {
      var k := TakeOut(a, b);
      var pre, post := b[..k], b[k + 1..];
      ShownPermuted(columns, outIdx, a[1..], pre + post);
      assert a == [a[0]] + a[1..];
      ShownAppend(columns, outIdx, [a[0]], a[1..]);
      ShownAppend(columns, outIdx, pre, post);
      ShownAppend(columns, outIdx, pre + [a[0]], post);
      ShownAppend(columns, outIdx, pre, [a[0]]);
    }
  }

  // ---- rows with their key ------------------------------------------------------------------------

  // The key is among the output columns.
  predicate ShowsKey(columns: seq<Column>, outIdx: seq<nat>) {
    exists k :: 0 <= k < |outIdx| && outIdx[k] < |columns| && columns[outIdx[k]].primaryKey
  }

  // Then an output row belongs to one table row.
  lemma KeyTells(columns: seq<Column>, outIdx: seq<nat>, t: seq<Entry>, a: Entry, b: Entry)
    requires (forall k :: 0 <= k < |outIdx| ==> outIdx[k] < |columns|) && ShowsKey(columns, outIdx)
    requires Ascending(t) && a in t && b in t && TableRow(columns, outIdx, a) == TableRow(columns, outIdx, b)
    ensures a == b
  {
    var k :| 0 <= k < |outIdx| && outIdx[k] < |columns| && columns[outIdx[k]].primaryKey;
    assert TableRow(columns, outIdx, a)[k] == Int(a.key) && TableRow(columns, outIdx, b)[k] == Int(b.key);
  }

  lemma {:induction false} ShownCount(columns: seq<Column>, outIdx: seq<nat>, t: seq<Entry>, es: seq<Entry>, e: Entry)
    requires (forall k :: 0 <= k < |outIdx| ==> outIdx[k] < |columns|) && ShowsKey(columns, outIdx)
    requires Ascending(t) && e in t && forall x :: x in es ==> x in t
    ensures multiset(Shown(columns, outIdx, es))[TableRow(columns, outIdx, e)] == multiset(es)[e]
  {
    hide TableRow, ShowsKey, Shown, Ascending;
    if es != [] {
      ShownCount(columns, outIdx, t, es[1..], e);
      ShownAppend(columns, outIdx, [es[0]], es[1..]);
      assert es == [es[0]] + es[1..];
      assert Shown(columns, outIdx, [es[0]]) == [TableRow(columns, outIdx, es[0])];
      if TableRow(columns, outIdx, es[0]) == TableRow(columns, outIdx, e) {
        KeyTells(columns, outIdx, t, es[0], e);
      }
    }
  }

  // Rows with their key are the same bag only if the table rows are.
  lemma ShownDetermines(columns: seq<Column>, outIdx: seq<nat>, t: seq<Entry>, a: seq<Entry>, b: seq<Entry>)
    requires (forall k :: 0 <= k < |outIdx| ==> outIdx[k] < |columns|) && ShowsKey(columns, outIdx)
    requires Ascending(t) && (forall x :: x in a ==> x in t) && (forall x :: x in b ==> x in t)
    requires multiset(Shown(columns, outIdx, a)) == multiset(Shown(columns, outIdx, b))
    ensures multiset(a) == multiset(b)
  {
    hide TableRow, ShowsKey, Shown, Ascending;
    forall e ensures multiset(a)[e] == multiset(b)[e] {
      if e in t {
        ShownCount(columns, outIdx, t, a, e);
        ShownCount(columns, outIdx, t, b, e);
      } else {
        assert e !in a && e !in b;
      }
    }
  }

  // The program yields, as a bag, the table's rows that satisfy all conjuncts if the path is
  // right, and if the rows show their key only then; in key order when the table is scanned.
  lemma TableOutputShown(p: Plan, db: Database)
    requires p.TablePlan? && ValidTableQuery(p, db) && ReadySource(db, p.s, 0)
    ensures var want := Shown(p.s.columns, p.outIdx, PassingRows(db, p.s, 0));
      && (RightSource(db, p.s, 0) ==> multiset(TableOutput(p, db)) == multiset(want))
      && (ShowsKey(p.s.columns, p.outIdx) && multiset(TableOutput(p, db)) == multiset(want) ==> RightSource(db, p.s, 0))
      && (p.s.access.Scan? ==> TableOutput(p, db) == want)
  {
    hide Rows, VisitOf, Passing, PathCovers, PathRight, ValidSource, Shown, ShowsKey, TableRow;
    var t, v, want := Rows(db, p.s.root), VisitOf(db, p.s, 0), PassingRows(db, p.s, 0);
    var read := Passing(p.s.columns, 0, p.s.filter, Pick(t, v));
    RowsAtShown(p, t, v);
    SourceExactly(db, p.s, 0);
    if multiset(read) == multiset(want) {
      ShownPermuted(p.s.columns, p.outIdx, read, want);
    }
    if ShowsKey(p.s.columns, p.outIdx) && multiset(TableOutput(p, db)) == multiset(Shown(p.s.columns, p.outIdx, want)) {
      ReadAreRows(p.s.columns, p.s.filter, t, v);
      ShownDetermines(p.s.columns, p.outIdx, t, read, want);
    }
  }

  lemma ReadAreRows(columns: seq<Column>, filter: seq<ResolvedCmp>, t: seq<Entry>, v: seq<nat>)
    requires SideCmps(columns, 0, filter) && forall k :: 0 <= k < |v| ==> v[k] < |t|
    ensures forall x :: x in Passing(columns, 0, filter, Pick(t, v)) ==> x in t
  {
    hide PassesAll;
  }

  // ---- index and scan ------------------------------------------------------------------------------

  // The same query without the index.
  function ScanPlan(p: Plan, cmps: seq<ResolvedCmp>): Plan
    requires p.TablePlan?
  {
    TablePlan(Source(p.s.root, p.s.columns, Scan, cmps), p.outIdx)
  }

  // For every indexed column and every one- or two-sided bound, the index program yields the
  // same bag of rows as the scan program if the path is right, and if the rows show their key
  // only then.
  lemma IndexYieldsScan(schema: seq<SchemaItem>, db: Database, name: string, cmps: seq<ResolvedCmp>, p: Plan)
    requires SourceUsable(schema, db, name, 0, cmps) && p.TablePlan? && ValidTable(p)
    requires var t := FindTable(schema, name).value; p.s == MakeSource(schema, name, t.root, t.columns, cmps)
    requires PathStored(p.s, db)
    ensures ValidTableQuery(p, db) && ValidTableQuery(ScanPlan(p, cmps), db)
    ensures RightSource(db, p.s, 0) ==> multiset(TableOutput(p, db)) == multiset(TableOutput(ScanPlan(p, cmps), db))
    ensures ShowsKey(p.s.columns, p.outIdx) && multiset(TableOutput(p, db)) == multiset(TableOutput(ScanPlan(p, cmps), db)) ==>
      RightSource(db, p.s, 0)
  {
    hide Rows, Passing, PathCovers, PathRight, TableOutput, PlanAccess, ValidSource, SideCmps, Shown, TypedTable, Stored, PathStored,
      ShowsKey;
    SourceReady(schema, db, name, 0, cmps);
    TableOutputShown(p, db);
    ScanIsSound(schema, db, name, cmps);
    TableOutputShown(ScanPlan(p, cmps), db);
  }

  lemma ScanIsSound(schema: seq<SchemaItem>, db: Database, name: string, cmps: seq<ResolvedCmp>)
    requires SourceUsable(schema, db, name, 0, cmps)
    ensures var t := FindTable(schema, name).value; ReadySource(db, Source(t.root, t.columns, Scan, cmps), 0)
  {
    hide Rows, Passing, SideCmps, TypedTable, Stored, Ascending;
    TableRows(schema, db, name);
  }

  // ---- one table as a join with nothing ----------------------------------------------------------------

  function Nowhere(): TableScope {
    TableScope("", None, [])
  }

  lemma SingleIsJoined(t: TableScope, ref: ColumnRef)
    requires RefNames(t, ref)
    ensures ResolveSingle(t.columns, ref) == ResolveJoin(t, Nowhere(), ref)
    ensures ResolveSingle(t.columns, ref).Some? ==> ResolveSingle(t.columns, ref).value.col.side == 0
  {
  }

  lemma LeafIsJoined(t: TableScope, leaf: Cond)
    requires LeafNames(t, leaf)
    ensures ResolveComparison(leaf, Single(t.columns)) == ResolveComparison(leaf, Joined(t, Nowhere()))
    ensures ResolveComparison(leaf, Single(t.columns)).Some? ==>
      ResolveComparison(leaf, Single(t.columns)).value.col.side == 0
  {
    hide ResolveSingle, ResolveJoin;
    if leaf.Compare? {
      if leaf.e1.Col? { SingleIsJoined(t, leaf.e1.ref); }
      if leaf.e2.Col? { SingleIsJoined(t, leaf.e2.ref); }
    }
  }

  lemma {:induction false} ListIsJoined(t: TableScope, list: seq<Cond>)
    requires forall i :: 0 <= i < |list| ==> LeafNames(t, list[i])
    ensures ResolveAll(list, Single(t.columns)) == ResolveAll(list, Joined(t, Nowhere()))
    ensures ResolveAll(list, Single(t.columns)).Some? ==> OnOneSide(ResolveAll(list, Single(t.columns)).value, 0)
  {
    hide ResolveComparison;
    if list != [] {
      ListIsJoined(t, list[..|list| - 1]);
      LeafIsJoined(t, list[|list| - 1]);
    }
  }

  lemma {:induction false} OutputsAreJoined(t: TableScope, exprs: seq<Expr>)
    requires forall i :: 0 <= i < |exprs| ==> ExprNames(t, exprs[i])
    ensures ResolveOutputs(exprs, Single(t.columns)) == ResolveOutputs(exprs, Joined(t, Nowhere()))
    ensures ResolveOutputs(exprs, Single(t.columns)).Some? ==>
      forall c :: c in ResolveOutputs(exprs, Single(t.columns)).value ==> c.side == 0
  {
    hide ResolveSingle, ResolveJoin;
    if exprs != [] {
      OutputsAreJoined(t, exprs[..|exprs| - 1]);
      if exprs[|exprs| - 1].Col? {
        SingleIsJoined(t, exprs[|exprs| - 1].ref);
      }
    }
  }

  // ---- the statement ---------------------------------------------------------------------------------

  // The output columns of a statement over one table.
  predicate TableOutputs(t: TableScope, exprs: seq<Expr>, outIdx: seq<nat>) {
    if IsStar(exprs) then |outIdx| == |t.columns| && forall k :: 0 <= k < |outIdx| ==> outIdx[k] == k
    else |outIdx| == |exprs| && forall k :: 0 <= k < |exprs| ==>
           exprs[k].Col? && Resolve([t], exprs[k].ref) == Some(Place(0, outIdx[k]))
  }

  lemma OutputIsTableRow(t: TableScope, r: Relation, exprs: seq<Expr>, outIdx: seq<nat>, e: Entry)
    requires r.scope == [t] && r.visible == AllColumns(|t.columns|) && TableOutputs(t, exprs, outIdx)
    ensures forall k :: 0 <= k < |outIdx| ==> outIdx[k] < |t.columns|
    ensures ExprsScoped(r, exprs) && Output(r, exprs, [RowOf(t.columns, e)]) == TableRow(t.columns, outIdx, e)
  {
    hide Resolve, ColumnValue;
    var tuple := [RowOf(t.columns, e)];
    if !IsStar(exprs) {
      forall k | 0 <= k < |exprs|
        ensures outIdx[k] < |t.columns| && ExprScoped(r.scope, exprs[k])
        ensures Evaluate(r.scope, tuple, exprs[k]) == ColumnValue(t.columns, e, outIdx[k])
      {
      }
    }
  }

  lemma {:induction false} OutputsAreShown(t: TableScope, r: Relation, exprs: seq<Expr>, outIdx: seq<nat>, es: seq<Entry>)
    requires r.scope == [t] && r.visible == AllColumns(|t.columns|) && TableOutputs(t, exprs, outIdx)
    ensures forall k :: 0 <= k < |outIdx| ==> outIdx[k] < |t.columns|
    ensures ExprsScoped(r, exprs) && Outputs(r, exprs, RowsOf(t.columns, es)) == Shown(t.columns, outIdx, es)
  {
    hide TableRow, RowOf, Output, ExprsScoped, AllColumns, TableOutputs;
    OutputIsTableRow(t, r, exprs, outIdx, Entry(0, [], 0));
    if es != [] {
      OutputIsTableRow(t, r, exprs, outIdx, es[0]);
      OutputsAreShown(t, r, exprs, outIdx, es[1..]);
      assert RowsOf(t.columns, es)[1..] == RowsOf(t.columns, es[1..]);
    }
  }

  predicate TablePlannedFrom(schema: seq<SchemaItem>, s: Sra, p: Plan, cmps: seq<ResolvedCmp>)
    requires ReadsTable(schema, s)
  {
    var t := SideScopeOf(schema, s.sra);
    && p.TablePlan? && ResolveAll(CondList(s.sra), Single(t.columns)) == Some(cmps)
    && p.s == SideSource(schema, s.sra, cmps) && TableOutputs(t, s.exprs, p.outIdx)
  }

  lemma TableResolved(t: TableScope, exprs: seq<Expr>, out: seq<RCol>)
    requires ResolveOutputs(exprs, Single(t.columns)) == Some(out) && !IsStar(exprs)
    requires forall i :: 0 <= i < |exprs| ==> ExprNames(t, exprs[i])
    ensures TableOutputs(t, exprs, seq(|out|, i requires 0 <= i < |out| => out[i].idx))
  {
    hide Resolve, ResolveOutputs, ResolveSingle, Names;
    OutputsAreJoined(t, exprs);
    OutputsResolve(t, Nowhere(), exprs, out);
    forall k | 0 <= k < |exprs| ensures Resolve([t], exprs[k].ref) == Some(Place(0, out[k].idx)) {
      assert out[k] in out;
      ResolveJoinIsScope(t, Nowhere(), exprs[k].ref);
      ResolveOnSide(t, Nowhere(), exprs[k].ref, 0);
    }
  }

  lemma TablePlanned(schema: seq<SchemaItem>, s: Sra) returns (cmps: seq<ResolvedCmp>)
    requires PlanSelect(schema, s).Some? && PlanSelect(schema, s).value.TablePlan?
    ensures ReadsTable(schema, s)
    ensures QualifiersName(SideScopeOf(schema, s.sra), s.exprs, CondList(s.sra)) ==>
      TablePlannedFrom(schema, s, PlanSelect(schema, s).value, cmps)
  {
    hide ResolveAll, ResolveOutputs, MakeSource, Resolve, LeafNames, ExprNames;
    assert SideTable(s.sra).Table?;
    var t := SideScopeOf(schema, s.sra);
    EmptyResolves(Single(t.columns));
    cmps := ResolveAll(CondList(s.sra), Single(t.columns)).value;
    if !IsStar(s.exprs) && QualifiersName(t, s.exprs, CondList(s.sra)) {
      TableResolved(t, s.exprs, ResolveOutputs(s.exprs, Single(t.columns)).value);
    }
  }

  // What is asked of a statement over one table and of the file it is run on.
  ghost predicate TableRunnable(schema: seq<SchemaItem>, db: Database, s: Sra)
    requires ReadsTable(schema, s)
  {
    Stored(schema, db) && s.exprs != [] && ListInRange(CondList(s.sra))
  }

  lemma TableDenotes(schema: seq<SchemaItem>, db: Database, s: Sra, p: Plan, cmps: seq<ResolvedCmp>)
    requires ReadsTable(schema, s) && TablePlannedFrom(schema, s, p, cmps) && TableRunnable(schema, db, s)
    requires QualifiersName(SideScopeOf(schema, s.sra), s.exprs, CondList(s.sra))
    ensures var t := SideScopeOf(schema, s.sra);
      && SideCmps(t.columns, 0, cmps) && LiteralsInRange(cmps) && ValidTable(p)
      && DenoteQuery(schema, db.store, s) == Some(Shown(t.columns, p.outIdx, SideRows(schema, db, s.sra, 0, cmps)))
  {
    hide ResolveAll, SideRows, Stored, ListInRange, LiteralsInRange, Shown, SideCmps, PlanAccess, TableOutputs,
      Outputs, ExprsScoped, AllColumns, CondList, LeafNames;
    var t := SideScopeOf(schema, s.sra);
    ListIsJoined(t, CondList(s.sra));
    ConjunctsUsable(t, Nowhere(), CondList(s.sra), cmps, 0);
    SideDenotes(schema, db, s.sra, 0, Joined(t, Nowhere()), cmps);
    var es := SideRows(schema, db, s.sra, 0, cmps);
    OutputsAreShown(t, Denote(schema, db.store, s.sra).value, s.exprs, p.outIdx, es);
    TableRows(schema, db, SideTable(s.sra).name);
    OutputsSome(t, s.exprs, p.outIdx);
    NoCmps(t.columns, 0);
  }

  lemma OutputsSome(t: TableScope, exprs: seq<Expr>, outIdx: seq<nat>)
    requires TableOutputs(t, exprs, outIdx) && exprs != [] && t.columns != []
    ensures outIdx != []
  {
  }

  // An accepted statement, its plan, and the rows it denotes without its qualifiers.
  lemma PlainDenotes(schema: seq<SchemaItem>, db: Database, s: Sra, p: Plan) returns (cmps: seq<ResolvedCmp>)
    requires PlanSelect(schema, s) == Some(p) && p.TablePlan? && ReadsTable(schema, s) && TableRunnable(schema, db, s)
    ensures ReadsTable(schema, Unqualified(s)) && TablePlannedFrom(schema, Unqualified(s), p, cmps)
    ensures var t := SideScopeOf(schema, s.sra);
      && SideCmps(t.columns, 0, cmps) && LiteralsInRange(cmps) && ValidTable(p)
      && DenoteQuery(schema, db.store, Unqualified(s)) == Some(Shown(t.columns, p.outIdx, SideRows(schema, db, s.sra, 0, cmps)))
  {
    hide DenoteQuery, PlanSelect, Stored, ListInRange, LiteralsInRange, Shown, SideCmps, CondList, QualifiersName, TablePlannedFrom,
      PlainExprs, PlainCond;
    var t, plain := SideScopeOf(schema, s.sra), Unqualified(s);
    PlainPlan(schema, s);
    PlainNames(t, s);
    PlainInRange(s);
    cmps := TablePlanned(schema, plain);
    TableDenotes(schema, db, plain, p, cmps);
  }

  // An accepted statement denotes something if and only if its qualifiers name the table, and
  // then the same as without them.
  lemma AcceptedDenotes(schema: seq<SchemaItem>, db: Database, s: Sra, p: Plan)
    requires PlanSelect(schema, s) == Some(p) && p.TablePlan? && ReadsTable(schema, s) && TableRunnable(schema, db, s)
    ensures DenoteQuery(schema, db.store, s).Some? <==> QualifiersName(SideScopeOf(schema, s.sra), s.exprs, CondList(s.sra))
    ensures DenoteQuery(schema, db.store, s).Some? ==> DenoteQuery(schema, db.store, s) == DenoteQuery(schema, db.store, Unqualified(s))
  {
    hide DenoteQuery, PlanSelect, ResolveAll, Stored, ListInRange, LiteralsInRange, Shown, SideCmps, CondList, QualifiersName,
      TableOutputs, SideSource;
    if DenoteQuery(schema, db.store, s).Some? {
      DenotedNames(schema, db.store, s);
    }
    if QualifiersName(SideScopeOf(schema, s.sra), s.exprs, CondList(s.sra)) {
      var cmps := TablePlanned(schema, s);
      TableDenotes(schema, db, s, p, cmps);
      var plain := PlainDenotes(schema, db, s, p);
      PlainSameConds(schema, s, cmps, plain);
    }
  }

  lemma PlainSameConds(schema: seq<SchemaItem>, s: Sra, cmps: seq<ResolvedCmp>, plain: seq<ResolvedCmp>)
    requires ReadsTable(schema, s) && ReadsTable(schema, Unqualified(s))
    requires var t := SideScopeOf(schema, s.sra);
      && ResolveAll(CondList(s.sra), Single(t.columns)) == Some(cmps)
      && ResolveAll(CondList(Unqualified(s).sra), Single(t.columns)) == Some(plain)
    ensures cmps == plain
  {
    hide ResolveAll, CondList, PlainList, PlainCond, PlainExprs, FindTable;
    PlainConds(s);
    PlainResolves(CondList(s.sra), SideScopeOf(schema, s.sra).columns);
  }

  // What an accepted statement reads and what it denotes.
  lemma TableReads(schema: seq<SchemaItem>, db: Database, s: Sra, p: Plan)
    requires PlanSelect(schema, s) == Some(p) && p.TablePlan? && PathStored(p.s, db)
    requires ReadsTable(schema, s) && TableRunnable(schema, db, s)
    ensures ValidTableQuery(p, db) && ReadySource(db, p.s, 0)
    ensures DenoteQuery(schema, db.store, Unqualified(s)) == Some(Shown(p.s.columns, p.outIdx, PassingRows(db, p.s, 0)))
  {
    hide DenoteQuery, PlanSelect, ResolveAll, SideCmps, Stored, ReadySource, ValidTable, Shown, PathStored,
      PassingRows, Passing, Rows, LiteralsInRange, ListInRange, TableOutputs, CondList, PlainExprs, PlainCond;
    var cmps := PlainDenotes(schema, db, s, p);
    SourceReady(schema, db, SideTable(s.sra).name, 0, cmps);
    TableIsValid(db, p);
  }

  // The main result about one table. Whatever access path is chosen, the compiled statement
  // runs to Halt. Qualifiers aside, it yields the rows it denotes, each as often as it denotes
  // it, if the path is right, and if the rows show their key only then; in key order when the
  // table is scanned.
  lemma TableYields(schema: seq<SchemaItem>, db: Database, s: Sra, p: Plan) returns (rows: seq<Row>, end: Machine)
    requires PlanSelect(schema, s) == Some(p) && p.TablePlan? && PathStored(p.s, db)
    requires ReadsTable(schema, s) && TableRunnable(schema, db, s)
    ensures Runs(TableCode(p), Initial(db, |p.outIdx|), rows, end) && end.pc == |TableCode(p)|
    ensures DenoteQuery(schema, db.store, Unqualified(s)).Some?
    ensures var want := DenoteQuery(schema, db.store, Unqualified(s)).value;
      && (RightSource(db, p.s, 0) ==> multiset(rows) == multiset(want))
      && (ShowsKey(p.s.columns, p.outIdx) && multiset(rows) == multiset(want) ==> RightSource(db, p.s, 0))
      && (p.s.access.Scan? ==> rows == want)
  {
    hide DenoteQuery, PlanSelect, ReadySource, ValidTableQuery, Runs, TableCode, Initial, Shown, PathStored, PassingRows, RightSource,
      PlainExprs, PlainCond, ShowsKey, TableOutput, ReadsTable, TableRunnable;
    TableReads(schema, db, s, p);
    TableOutputShown(p, db);
    rows := TableOutput(p, db);
    end := TableRuns(p, db);
  }

  lemma TableIsValid(db: Database, p: Plan)
    requires ValidTable(p) && p.TablePlan? && ReadySource(db, p.s, 0)
    ensures ValidTableQuery(p, db)
  {
  }

  // On every file whose tables have rows of the right types and whose index, if one is read,
  // leads to rows: the run is bounded, and in every state it can reach the next instruction is
  // defined and finds its cursor positioned.
  lemma TableIsSafe(schema: seq<SchemaItem>, db: Database, s: Sra, p: Plan)
    requires PlanSelect(schema, s) == Some(p) && p.TablePlan? && PathLinked(p.s, db)
    requires ReadsTable(schema, s) && TableRunnable(schema, db, s)
    ensures StopsSafely(TableCode(p), Initial(db, |p.outIdx|))
  {
    hide DenoteQuery, PlanSelect, ResolveAll, SideCmps, Stored, ValidSource, ValidTable, Runs, TableCode, Initial, Shown, PathLinked,
      LiteralsInRange, ListInRange, TableOutputs, CondList, StopsSafely, PlainExprs, PlainCond, SideRows, TableOutput;
    var cmps := PlainDenotes(schema, db, s, p);
    SourceValid(schema, db, SideTable(s.sra).name, 0, cmps);
    var end := TableRuns(p, db);
    RunIsSafe(TableCode(p), Initial(db, |p.outIdx|), TableOutput(p, db), end);
  }
}
