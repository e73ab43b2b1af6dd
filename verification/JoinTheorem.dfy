// From a join statement to the rows its program yields.
module JoinTheorem {
  import opened Common
  import opened Sql
  import opened Values
  import opened Trees
  import opened Machine
  import opened MachineRun
  import opened Relational
  import opened Optimizer
  import opened OptimizerProof
  import opened Planner
  import opened Layout
  import opened CodeRuns
  import opened JoinRows
  import opened JoinStart
  import opened IndexVisits
  import opened JoinOrder
  import opened JoinBags
  import opened JoinMeaning
  import opened JoinDenotes
  import opened JoinCorrect

  // ---- resolved conjuncts -----------------------------------------------------------------------

  lemma ConjunctsUsable(t1: TableScope, t2: TableScope, list: seq<Cond>, cmps: seq<ResolvedCmp>, side: nat)
    requires ResolveAll(list, Joined(t1, t2)) == Some(cmps) && side <= 1 && OnOneSide(cmps, side) && ListInRange(list)
    ensures LiteralsInRange(cmps)
  {
    hide ResolveAll, ResolveComparison, ResolveJoin;
    forall i | 0 <= i < |cmps| ensures LiteralInRange(cmps[i].lit) {
      var ref, op := ResolvedLeaf(t1, t2, list[i], cmps[i]);
      assert LeafInRange(list[i]);
    }
  }

  lemma OwnsItsSide(list: seq<Cond>, r: Resolver, cmps: seq<ResolvedCmp>, side: nat)
    requires ResolveAll(list, r) == Some(cmps)
    requires forall i :: 0 <= i < |list| ==> OwnLeaf(list[i], r, side)
    ensures OnOneSide(cmps, side)
  {
    hide ResolveAll, ResolveComparison;
    forall i | 0 <= i < |cmps| ensures cmps[i].col.side == side {
      assert OwnLeaf(list[i], r, side);
    }
  }

  // ---- one side -----------------------------------------------------------------------------------

  // The rows of a table that pass its side's conjuncts.
  ghost function SideRows(schema: seq<SchemaItem>, db: Database, s: Sra, side: nat, cmps: seq<ResolvedCmp>): seq<Entry>
    requires SideNamed(schema, s) && SideCmps(SideScopeOf(schema, s).columns, side, cmps)
  {
    Passing(SideScopeOf(schema, s).columns, side, cmps, Rows(db, FindTable(schema, SideTable(s).name).value.root))
  }

  lemma SideDenotes(schema: seq<SchemaItem>, db: Database, s: Sra, side: nat, r: Resolver, cmps: seq<ResolvedCmp>)
    requires Stored(schema, db) && SideNamed(schema, s) && r.Joined? && side <= 1
    requires SideScopeOf(schema, s) == if side == 0 then r.t1 else r.t2
    requires ResolveAll(CondList(s), r) == Some(cmps) && OnOneSide(cmps, side)
    ensures var t := SideScopeOf(schema, s);
      SideCmps(t.columns, side, cmps) && Denote(schema, db.store, s)
      == Some(Relation([t], AllColumns(|t.columns|), RowsOf(t.columns, SideRows(schema, db, s, side, cmps))))
  {
    hide ResolveAll, SideCmps, Passing, RowsOf, Keep, AllScoped, Stored, Rows, AllColumns, Conjuncts;
    DenoteConds(schema, db.store, s);
    TableRows(schema, db, SideTable(s).name);
    var t := SideScopeOf(schema, s);
    var es := Rows(db, FindTable(schema, SideTable(s).name).value.root);
    KeepIsPassing(r.t1, r.t2, side, es, CondList(s), cmps);
  }

  // The planner's source for a side can be run.
  lemma SideRuns(schema: seq<SchemaItem>, db: Database, s: Sra, side: nat, r: Resolver, cmps: seq<ResolvedCmp>)
    requires Stored(schema, db) && SideNamed(schema, s) && r.Joined? && side <= 1
    requires SideScopeOf(schema, s) == if side == 0 then r.t1 else r.t2
    requires ResolveAll(CondList(s), r) == Some(cmps) && OnOneSide(cmps, side) && ListInRange(CondList(s))
    requires PathLinked(SideSource(schema, s, cmps), db)
    ensures ValidSource(db, SideSource(schema, s, cmps), side)
  {
    hide ResolveAll, SideCmps, Passing, Stored, Rows, ValidSource, PlanAccess, CondList, Denote, ListInRange, PathLinked;
    SideDenotes(schema, db, s, side, r, cmps);
    ConjunctsUsable(r.t1, r.t2, CondList(s), cmps, side);
    SourceValid(schema, db, SideTable(s).name, side, cmps);
  }

  // It stands for those rows.
  lemma SideReads(schema: seq<SchemaItem>, db: Database, s: Sra, side: nat, r: Resolver, cmps: seq<ResolvedCmp>)
    requires Stored(schema, db) && SideNamed(schema, s) && r.Joined? && side <= 1
    requires SideScopeOf(schema, s) == if side == 0 then r.t1 else r.t2
    requires ResolveAll(CondList(s), r) == Some(cmps) && OnOneSide(cmps, side) && ListInRange(CondList(s))
    requires PathStored(SideSource(schema, s, cmps), db)
    ensures SideCmps(SideScopeOf(schema, s).columns, side, cmps) && ReadySource(db, SideSource(schema, s, cmps), side)
    ensures PassingRows(db, SideSource(schema, s, cmps), side) == SideRows(schema, db, s, side, cmps)
  {
    hide ResolveAll, SideCmps, Passing, Stored, Rows, ReadySource, PlanAccess, CondList, Denote, ListInRange, PathStored;
    SideDenotes(schema, db, s, side, r, cmps);
    ConjunctsUsable(r.t1, r.t2, CondList(s), cmps, side);
    SourceReady(schema, db, SideTable(s).name, side, cmps);
  }

  // ---- the join --------------------------------------------------------------------------------------

  // The joined relation of two lists of rows.
  ghost function JoinOf(t1: TableScope, t2: TableScope, pairs: seq<(nat, nat)>, es1: seq<Entry>, es2: seq<Entry>): (r: Relation)
    requires ValidPairs([t1], [t2], AsPairs(pairs))
  {
    Relation([t1, t2], AsPlaces(StarColumns(t1.columns, t2.columns, pairs)),
             JoinAll([t1], [t2], AsPairs(pairs), RowsOf(t1.columns, es1), RowsOf(t2.columns, es2)))
  }

  lemma JoinRelationIs(t1: TableScope, t2: TableScope, pairs: seq<(nat, nat)>, es1: seq<Entry>, es2: seq<Entry>)
    requires pairs == SharedColumns(t1.columns, t2.columns, 0) && ValidPairs([t1], [t2], AsPairs(pairs))
    ensures var a, b := Relation([t1], AllColumns(|t1.columns|), RowsOf(t1.columns, es1)),
                        Relation([t2], AllColumns(|t2.columns|), RowsOf(t2.columns, es2));
      ValidRelation(a) && ValidRelation(b) && JoinRelation(a, b) == JoinOf(t1, t2, pairs, es1, es2)
  {
    hide RowOf, StarColumns, JoinAll, SharedColumns;
    SharedIsJoinPairs(t1, t2);
    StarIsVisible(t1, t2, pairs);
    assert [t1] + [t2] == [t1, t2];
  }

  lemma StarFits(t1: TableScope, t2: TableScope, pairs: seq<(nat, nat)>)
    ensures ValidOut(t1.columns, t2.columns, StarColumns(t1.columns, t2.columns, pairs))
    ensures ValidPlaces([t1, t2], AsPlaces(StarColumns(t1.columns, t2.columns, pairs)))
    ensures t1.columns != [] ==> StarColumns(t1.columns, t2.columns, pairs) != []
  {
  }

  // The plan fits the scopes and conditions it was made from.
  lemma PlanIsFit(schema: seq<SchemaItem>, s: Sra, p: Plan, c: SideConds, es1: seq<Entry>, es2: seq<Entry>)
    requires JoinsTables(schema, s) && PlannedFrom(schema, s, p, c) && SharedTypesAgree(schema, s) && s.exprs != []
    requires JoinResolver(schema, s).t1.columns != []
    requires SideCmps(JoinResolver(schema, s).t1.columns, 0, c.c1) && SideCmps(JoinResolver(schema, s).t2.columns, 1, c.c2)
    ensures var r := JoinResolver(schema, s);
      && ValidPairs([r.t1], [r.t2], AsPairs(p.pairs))
      && PlanFits(p, r.t1, r.t2, JoinOf(r.t1, r.t2, p.pairs, es1, es2), s.exprs, CondList(s.sra))
  {
    hide ResolveAll, SideCmps, ResolveOutputs, StarColumns, JoinAll, PlanAccess, SharedColumns;
    var r := JoinResolver(schema, s);
    var e := Entry(0, [], 0);
    JoinsIsAgree(r.t1, r.t2, e, e, p.pairs);
    StarFits(r.t1, r.t2, p.pairs);
    TopHolds(r.t1, r.t2, e, e, CondList(s.sra), p.top);
    if !IsStar(s.exprs) {
      OutputsResolve(r.t1, r.t2, s.exprs, p.out);
    }
    NoCmps(r.t1.columns, 0);
    NoCmps(r.t2.columns, 1);
  }

  lemma NoCmps(columns: seq<Column>, side: nat)
    ensures SideCmps(columns, side, [])
  {
  }

  // ---- the statement ------------------------------------------------------------------------------------

  // What is asked of a join statement and of the file it is run on.
  ghost predicate Runnable(schema: seq<SchemaItem>, db: Database, s: Sra)
    requires JoinsTables(schema, s)
  {
    && Stored(schema, db) && s.exprs != [] && SidesOwn(schema, s) && SharedTypesAgree(schema, s)
    && ListInRange(CondList(SideTable(s.sra).sra1)) && ListInRange(CondList(SideTable(s.sra).sra2))
  }

  lemma SidesAre(schema: seq<SchemaItem>, db: Database, s: Sra, p: Plan, c: SideConds)
    requires JoinsTables(schema, s) && PlannedFrom(schema, s, p, c) && Runnable(schema, db, s)
    ensures OnOneSide(c.c1, 0) && OnOneSide(c.c2, 1)
    ensures JoinResolver(schema, s).t1.columns != []
  {
    hide ResolveAll, ResolveComparison, StarColumns, ResolveOutputs, SideSource;
    var r, j := JoinResolver(schema, s), SideTable(s.sra);
    OwnsItsSide(CondList(j.sra1), r, c.c1, 0);
    OwnsItsSide(CondList(j.sra2), r, c.c2, 1);
    TableRows(schema, db, SideTable(j.sra1).name);
  }

  // The join of the two sides, before the conjuncts above it.
  lemma JoinDenotesRows(schema: seq<SchemaItem>, db: Database, s: Sra, p: Plan, c: SideConds)
    requires JoinsTables(schema, s) && PlannedFrom(schema, s, p, c) && Stored(schema, db)
    requires OnOneSide(c.c1, 0) && OnOneSide(c.c2, 1)
    ensures var r, j := JoinResolver(schema, s), SideTable(s.sra);
      && SideCmps(r.t1.columns, 0, c.c1) && SideCmps(r.t2.columns, 1, c.c2) && ValidPairs([r.t1], [r.t2], AsPairs(p.pairs))
      && Denote(schema, db.store, j)
         == Some(JoinOf(r.t1, r.t2, p.pairs, SideRows(schema, db, j.sra1, 0, c.c1), SideRows(schema, db, j.sra2, 1, c.c2)))
  {
    hide ResolveAll, SideCmps, StarColumns, JoinAll, SharedColumns, Stored, SideRows, CondList, SideNamed, RowsOf,
      PlannedFrom, SideScopeOf, AllColumns, AsPlaces, FindTable, ValidTuples;
    var r, j := JoinResolver(schema, s), SideTable(s.sra);
    PlannedSides(schema, s, p, c);
    SideDenotes(schema, db, j.sra1, 0, r, c.c1);
    SideDenotes(schema, db, j.sra2, 1, r, c.c2);
    var es1, es2 := SideRows(schema, db, j.sra1, 0, c.c1), SideRows(schema, db, j.sra2, 1, c.c2);
    SharedIsJoinPairs(r.t1, r.t2);
    JoinRelationIs(r.t1, r.t2, p.pairs, es1, es2);
    DenoteJoin(schema, db.store, j);
  }

  lemma DenoteJoin(schema: seq<SchemaItem>, store: map<nat, Tree>, j: Sra)
    requires j.NaturalJoin? && Denote(schema, store, j.sra1).Some? && Denote(schema, store, j.sra2).Some?
    ensures Denote(schema, store, j)
         == Some(JoinRelation(Denote(schema, store, j.sra1).value, Denote(schema, store, j.sra2).value))
  {
  }

  // Selection and projection on top of the join.
  lemma QueryDenotes(schema: seq<SchemaItem>, store: map<nat, Tree>, s: Sra, p: Plan, t1: TableScope, t2: TableScope,
                     es1: seq<Entry>, es2: seq<Entry>)
    requires s.Project? && p.JoinPlan? && ValidPairs([t1], [t2], AsPairs(p.pairs))
    requires Denote(schema, store, SideTable(s.sra)) == Some(JoinOf(t1, t2, p.pairs, es1, es2))
    requires PlanFits(p, t1, t2, JoinOf(t1, t2, p.pairs, es1, es2), s.exprs, CondList(s.sra))
    ensures ValidJoin(p) && DenoteQuery(schema, store, s) == Some(NestedRows(p, es1, es2))
  {
    hide Denote, PlanFits, JoinAll, RowsOf, StarColumns, AsPlaces, CondList, NestedRows, ValidJoin, Keep, Outputs,
      AllScoped, ExprsScoped, ValidTuples, AsPairs;
    var r := JoinOf(t1, t2, p.pairs, es1, es2);
    DenoteConds(schema, store, s.sra);
    FitsScoped(p, t1, t2, r, s.exprs, CondList(s.sra));
    FitsParts(p, t1, t2, r, s.exprs, CondList(s.sra));
    NestedDenotes(p, t1, t2, r, s.exprs, CondList(s.sra), es1, es2);
    var kept := Keep([t1, t2], CondList(s.sra), r.tuples);
    OutputsAnyRows(r, kept, kept, s.exprs);
  }

  lemma {:induction false} OutputsAnyRows(r: Relation, a: seq<Tuple>, ts: seq<Tuple>, exprs: seq<Expr>)
    requires ExprsScoped(r, exprs) && ValidTuples(r.scope, ts) && ValidPlaces(r.scope, r.visible)
    ensures ExprsScoped(r.(tuples := a), exprs) && Outputs(r.(tuples := a), exprs, ts) == Outputs(r, exprs, ts)
    decreases |ts|
  {
    if ts != [] {
      OutputsAnyRows(r, a, ts[1..], exprs);
    }
  }

  lemma StatementDenotes(schema: seq<SchemaItem>, db: Database, s: Sra, p: Plan, c: SideConds)
    requires JoinsTables(schema, s) && PlannedFrom(schema, s, p, c) && Runnable(schema, db, s)
    ensures var r, j := JoinResolver(schema, s), SideTable(s.sra);
      && SideCmps(r.t1.columns, 0, c.c1) && SideCmps(r.t2.columns, 1, c.c2) && ValidJoin(p)
      && DenoteQuery(schema, db.store, s)
         == Some(NestedRows(p, SideRows(schema, db, j.sra1, 0, c.c1), SideRows(schema, db, j.sra2, 1, c.c2)))
  {
    hide DenoteQuery, ResolveAll, SideCmps, SharedColumns, Stored, SideRows, SidesOwn, NestedRows, SharedTypesAgree,
      CondList, SideNamed, ValidJoin, PlannedFrom, SideScopeOf, PlanFits, JoinOf, AsPairs, FindTable, ListInRange, Denote;
    var r, j := JoinResolver(schema, s), SideTable(s.sra);
    SidesAre(schema, db, s, p, c);
    PlannedSides(schema, s, p, c);
    JoinDenotesRows(schema, db, s, p, c);
    var es1, es2 := SideRows(schema, db, j.sra1, 0, c.c1), SideRows(schema, db, j.sra2, 1, c.c2);
    PlanIsFit(schema, s, p, c, es1, es2);
    QueryDenotes(schema, db.store, s, p, r.t1, r.t2, es1, es2);
  }

  lemma PlannedSides(schema: seq<SchemaItem>, s: Sra, p: Plan, c: SideConds)
    requires JoinsTables(schema, s) && PlannedFrom(schema, s, p, c)
    ensures var r, j := JoinResolver(schema, s), SideTable(s.sra);
      && SideScopeOf(schema, j.sra1) == r.t1 && SideScopeOf(schema, j.sra2) == r.t2
      && ResolveAll(CondList(j.sra1), r) == Some(c.c1) && ResolveAll(CondList(j.sra2), r) == Some(c.c2)
      && p.pairs == SharedColumns(r.t1.columns, r.t2.columns, 0) && p.JoinPlan?
      && p.s1 == SideSource(schema, j.sra1, c.c1) && p.s2 == SideSource(schema, j.sra2, c.c2)
  {
  }

  // What an accepted join reads and what it denotes.
  lemma JoinReads(schema: seq<SchemaItem>, db: Database, s: Sra, p: Plan)
    requires PlanSelect(schema, s) == Some(p) && p.JoinPlan? && PathsStored(p, db)
    requires JoinsTables(schema, s) && Runnable(schema, db, s)
    ensures ValidQuery(p, db) && ReadySource(db, p.s1, 0) && ReadySource(db, p.s2, 1)
    ensures DenoteQuery(schema, db.store, s) == Some(NestedRows(p, PassingRows(db, p.s1, 0), PassingRows(db, p.s2, 1)))
  {
    hide DenoteQuery, PlanSelect, PlannedFrom, ResolveAll, SideCmps, JoinResolver, NestedRows, ReadySource, ValidJoin,
      SideSource, Runnable, PassingRows, SideRows, Consumed, PathStored;
    var c := JoinPlanned(schema, s);
    StatementDenotes(schema, db, s, p, c);
    SourcesRead(schema, db, s, p, c);
    ReadyIsValid(db, p);
  }

  // The main result about joins. Whatever access paths are chosen, the compiled statement runs
  // to Halt. It yields the rows it denotes, each as often as it denotes it, if all pairs are
  // right, and if the outputs show both keys only then; in the denoted order when both tables
  // are scanned.
  lemma JoinYields(schema: seq<SchemaItem>, db: Database, s: Sra, p: Plan) returns (rows: seq<Row>, end: Machine)
    requires PlanSelect(schema, s) == Some(p) && p.JoinPlan? && PathsStored(p, db)
    requires JoinsTables(schema, s) && Runnable(schema, db, s)
    ensures Runs(JoinCode(p), Initial(db, |p.out|), rows, end) && end.pc == |JoinCode(p)|
    ensures DenoteQuery(schema, db.store, s).Some? && ValidJoin(p) && ReadySource(db, p.s1, 0) && ReadySource(db, p.s2, 1)
    ensures var want := DenoteQuery(schema, db.store, s).value;
      && (PairsRight(p, db) ==> multiset(rows) == multiset(want))
      && (ShowsKeys(p) && multiset(rows) == multiset(want) ==> PairsRight(p, db))
      && (p.s1.access.Scan? && p.s2.access.Scan? ==> rows == want)
  {
    hide DenoteQuery, PlanSelect, JoinsTables, NestedRows, ReadySource, ValidSource, ValidJoin, Runs, JoinCode, JoinOutput, Runnable,
      PassingRows, Initial, PathsStored, PairsRight, ShowsKeys;
    JoinReads(schema, db, s, p);
    JoinOutputExactly(p, db);
    rows := JoinOutput(p, db);
    end := JoinRuns(p, db);
  }

  lemma SourcesRead(schema: seq<SchemaItem>, db: Database, s: Sra, p: Plan, c: SideConds)
    requires JoinsTables(schema, s) && PlannedFrom(schema, s, p, c) && Runnable(schema, db, s)
    requires p.JoinPlan? && PathsStored(p, db)
    ensures var r, j := JoinResolver(schema, s), SideTable(s.sra);
      && SideCmps(r.t1.columns, 0, c.c1) && SideCmps(r.t2.columns, 1, c.c2)
      && ReadySource(db, p.s1, 0) && ReadySource(db, p.s2, 1)
      && PassingRows(db, p.s1, 0) == SideRows(schema, db, j.sra1, 0, c.c1)
      && PassingRows(db, p.s2, 1) == SideRows(schema, db, j.sra2, 1, c.c2)
  {
    hide ResolveAll, SideCmps, SharedColumns, Stored, SideRows, SidesOwn, SharedTypesAgree,
      CondList, SideNamed, PlannedFrom, SideScopeOf, FindTable, ListInRange, ReadySource, PassingRows, SideSource, PathStored;
    var r, j := JoinResolver(schema, s), SideTable(s.sra);
    SidesAre(schema, db, s, p, c);
    PlannedSides(schema, s, p, c);
    SideReads(schema, db, j.sra1, 0, r, c.c1);
    SideReads(schema, db, j.sra2, 1, r, c.c2);
  }

  lemma ReadyIsValid(db: Database, p: Plan)
    requires ValidJoin(p) && p.JoinPlan? && ReadySource(db, p.s1, 0) && ReadySource(db, p.s2, 1)
    ensures ValidQuery(p, db)
  {
  }

  // ---- safety ----------------------------------------------------------------------------------------

  lemma SourcesRun(schema: seq<SchemaItem>, db: Database, s: Sra, p: Plan, c: SideConds)
    requires JoinsTables(schema, s) && PlannedFrom(schema, s, p, c) && Runnable(schema, db, s)
    requires p.JoinPlan? && IndexesLinked(p, db)
    ensures ValidSource(db, p.s1, 0) && ValidSource(db, p.s2, 1)
  {
    hide ResolveAll, SideCmps, SharedColumns, Stored, SideRows, SidesOwn, SharedTypesAgree,
      CondList, SideNamed, PlannedFrom, SideScopeOf, FindTable, ListInRange, ValidSource, SideSource, PathLinked;
    var r, j := JoinResolver(schema, s), SideTable(s.sra);
    SidesAre(schema, db, s, p, c);
    PlannedSides(schema, s, p, c);
    SideRuns(schema, db, j.sra1, 0, r, c.c1);
    SideRuns(schema, db, j.sra2, 1, r, c.c2);
  }

  // On every file whose tables have rows of the right types and whose indexes lead to rows,
  // however often they have split and whatever signs their values have: the run is bounded, and
  // in every state it can reach the next instruction is defined and finds its cursor positioned.
  lemma JoinIsSafe(schema: seq<SchemaItem>, db: Database, s: Sra, p: Plan)
    requires PlanSelect(schema, s) == Some(p) && p.JoinPlan? && IndexesLinked(p, db)
    requires JoinsTables(schema, s) && Runnable(schema, db, s)
    ensures StopsSafely(JoinCode(p), Initial(db, |p.out|))
  {
    hide DenoteQuery, PlanSelect, PlannedFrom, ResolveAll, SideCmps, JoinResolver, NestedRows, ValidJoin, ValidSource, Runs,
      SideSource, JoinCode, JoinOutput, Runnable, SideRows, Initial, Consumed, IndexesLinked, StopsSafely;
    var c := JoinPlanned(schema, s);
    StatementDenotes(schema, db, s, p, c);
    SourcesRun(schema, db, s, p, c);
    assert ValidQuery(p, db);
    var end := JoinRuns(p, db);
    RunIsSafe(JoinCode(p), Initial(db, |p.out|), JoinOutput(p, db), end);
  }
}
