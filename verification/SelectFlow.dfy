// Every SELECT the code generator accepts: its program halts on every database, and its cursors
// are positioned wherever they are read or advanced.
module SelectFlow {
  import opened Common
  import opened Sql
  import opened Machine
  import opened Relational
  import opened Optimizer
  import opened Planner
  import opened Layout
  import opened TableLayout
  import opened JoinStart
  import opened JoinMeaning
  import opened JoinCorrect
  import opened JoinTheorem
  import opened Pipeline
  import opened ControlFlow
  import opened CursorFlow
  import opened JoinFlow
  import opened JoinReady
  import opened TableFlow

  // ---- accepted plans -----------------------------------------------------------------------------

  lemma ResolvedCompares(list: seq<Cond>, r: Resolver, cmps: seq<ResolvedCmp>)
    requires ResolveAll(list, r) == Some(cmps)
    ensures Compares(cmps)
    ensures r.Single? ==> OnOneSide(cmps, 0)
  {
    hide ResolveAll;
    forall i | 0 <= i < |cmps| ensures SeekOpcode(cmps[i].op).Some? && (r.Single? ==> cmps[i].col.side == 0) {
      assert ResolveComparison(list[i], r) == Some(cmps[i]);
    }
  }

  lemma SourceIsShaped(schema: seq<SchemaItem>, name: string, root: nat, columns: seq<Column>, cmps: seq<ResolvedCmp>)
    requires Compares(cmps)
    ensures SourceShaped(MakeSource(schema, name, root, columns, cmps))
  {
    hide FindIndexOn;
    PlannedAccess(schema, name, columns, cmps);
  }

  lemma JoinIsShaped(schema: seq<SchemaItem>, s: Sra, p: Plan, c: SideConds)
    requires JoinsTables(schema, s) && PlannedFrom(schema, s, p, c)
    ensures JoinShaped(p)
  {
    hide ResolveAll, SourceShaped, StarColumns, SharedColumns, ResolveOutputs;
    var r, j := JoinResolver(schema, s), SideTable(s.sra);
    ResolvedCompares(CondList(j.sra1), r, c.c1);
    ResolvedCompares(CondList(j.sra2), r, c.c2);
    ResolvedCompares(CondList(s.sra), r, p.top);
    var t1, t2 := FindTable(schema, SideTable(j.sra1).name).value, FindTable(schema, SideTable(j.sra2).name).value;
    SourceIsShaped(schema, SideTable(j.sra1).name, t1.root, t1.columns, c.c1);
    SourceIsShaped(schema, SideTable(j.sra2).name, t2.root, t2.columns, c.c2);
  }

  lemma TableIsShaped(schema: seq<SchemaItem>, s: Sra, p: Plan)
    requires PlanSelect(schema, s) == Some(p) && p.TablePlan?
    ensures TableShaped(p)
  {
    hide ResolveAll, ResolveOutputs, SourceShaped, MakeSource;
    assert SideTable(s.sra).Table?;
    var t := FindTable(schema, SideTable(s.sra).name).value;
    EmptyResolves(Single(t.columns));
    var cmps := ResolveAll(CondList(s.sra), Single(t.columns)).value;
    ResolvedCompares(CondList(s.sra), Single(t.columns), cmps);
    SourceIsShaped(schema, SideTable(s.sra).name, t.root, t.columns, cmps);
    FilterOnSide(schema, SideTable(s.sra).name, t.root, t.columns, cmps, 0);
  }

  lemma FilterOnSide(schema: seq<SchemaItem>, name: string, root: nat, columns: seq<Column>, cmps: seq<ResolvedCmp>, side: nat)
    requires OnOneSide(cmps, side)
    ensures OnOneSide(MakeSource(schema, name, root, columns, cmps).filter, side)
  {
    hide PlanAccess;
  }

  // ---- halting --------------------------------------------------------------------------------------

  // The program of every accepted SELECT halts, on every database.
  lemma SelectHalts(schema: seq<SchemaItem>, s: Sra, p: Plan, db: Database)
    requires PlanSelect(schema, s) == Some(p)
    ensures Halts(CodeOf(p), Initial(db, WidthOf(p)))
  {
    hide PlanSelect, Halts, JoinCode, TableCode, JoinShaped, TableShaped;
    if p.JoinPlan? {
      var c := JoinPlanned(schema, s);
      JoinIsShaped(schema, s, p, c);
      JoinHalts(p, Initial(db, WidthOf(p)));
    } else {
      TableIsShaped(schema, s, p);
      TableHalts(p, Initial(db, WidthOf(p)));
    }
  }

  // ---- cursors ----------------------------------------------------------------------------------------

  lemma LeftSideReadsLeft(schema: seq<SchemaItem>, s: Sra, p: Plan, c: SideConds)
    requires JoinsTables(schema, s) && PlannedFrom(schema, s, p, c) && SidesOwn(schema, s)
    ensures LeftReadsLeft(p)
  {
    hide ResolveAll, StarColumns, SharedColumns, ResolveOutputs, MakeSource, OwnLeaf;
    var r, j := JoinResolver(schema, s), SideTable(s.sra);
    OwnsItsSide(CondList(j.sra1), r, c.c1, 0);
    var t := FindTable(schema, SideTable(j.sra1).name).value;
    FilterOnSide(schema, SideTable(j.sra1).name, t.root, t.columns, c.c1, 0);
  }

  // Whatever the database, Key, Column, IdxPKey, Next and Prev find their cursor positioned in
  // every state a program reaches: over one table always, in a join when the conditions on its
  // sides are about these sides.
  lemma SelectReady(schema: seq<SchemaItem>, s: Sra, p: Plan, db: Database)
    requires PlanSelect(schema, s) == Some(p)
    requires p.JoinPlan? ==> JoinsTables(schema, s) && SidesOwn(schema, s)
    ensures CursorsReady(CodeOf(p), Initial(db, WidthOf(p)))
  {
    hide PlanSelect, CursorsReady, JoinCode, TableCode, JoinShaped, TableShaped, LeftReadsLeft, SidesOwn;
    if p.JoinPlan? {
      var c := JoinPlanned(schema, s);
      JoinIsShaped(schema, s, p, c);
      LeftSideReadsLeft(schema, s, p, c);
      JoinCursorsReady(p, Initial(db, WidthOf(p)));
    } else {
      TableIsShaped(schema, s, p);
      TableCursorsReady(p, Initial(db, WidthOf(p)));
    }
  }

  // A join that the parser builds is one of these once it has been optimized.
  lemma PreparedReady(schema: seq<SchemaItem>, s: Sra, p: Plan, db: Database)
    requires PlanSelect(schema, Optimized(schema, s)) == Some(p) && (p.JoinPlan? ==> PlainJoin(s))
    ensures CursorsReady(CodeOf(p), Initial(db, WidthOf(p)))
  {
    hide CursorsReady, CodeOf, WidthOf, PlanSelect, Optimized, SidesOwn;
    var o := Optimized(schema, s);
    if p.JoinPlan? {
      var c := JoinPlanned(schema, o);
      PlainJoinsTables(schema, s);
      OptimizedOwns(schema, s);
    }
    SelectReady(schema, o, p, db);
  }

  lemma PlainJoinsTables(schema: seq<SchemaItem>, s: Sra)
    requires PlainJoin(s) && JoinsTables(schema, Optimized(schema, s))
    ensures JoinsTables(schema, s)
  {
    hide Bucket, Conjuncts;
    if !Pushable(schema, s) {
      Unchanged(schema, s);
    }
  }
}
