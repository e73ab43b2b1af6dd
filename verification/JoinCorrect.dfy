// The compiled natural join yields the rows its statement denotes, for every access path
// the code generator can choose.
module JoinCorrect {
  import opened Common
  import opened Sql
  import opened Values
  import opened Trees
  import opened TreeSnapshot
  import opened Machine
  import opened Relational
  import opened Optimizer
  import opened OptimizerProof
  import opened Planner
  import opened CodeRuns
  import opened JoinRows
  import opened IndexVisits
  import opened JoinOrder

  // ---- files that hold a schema ---------------------------------------------------------------

  ghost predicate TableStored(item: SchemaItem, db: Database)
    requires item.TableItem?
  {
    && item.columns != [] && item.root in db.store && item.root !in db.indexes && item.root < 0x8000_0000
    && TypedTable(item.columns, Entries(db.store[item.root])) && Ascending(Entries(db.store[item.root]))
  }

  // The tables of the schema; of its indexes nothing is said.
  ghost predicate Stored(schema: seq<SchemaItem>, db: Database) {
    forall item :: item in schema && item.TableItem? ==> TableStored(item, db)
  }

  lemma TableRows(schema: seq<SchemaItem>, db: Database, name: string)
    requires Stored(schema, db) && FindTable(schema, name).Some?
    ensures var t := FindTable(schema, name).value;
      TableStored(t, db) && Rows(db, t.root) == Entries(db.store[t.root])
  {
    var t := FindTable(schema, name).value;
    TableSnapshot(db.store[t.root]);
  }

  // ---- access paths ---------------------------------------------------------------------------

  predicate LiteralsInRange(cmps: seq<ResolvedCmp>) {
    forall i :: 0 <= i < |cmps| ==> LiteralInRange(cmps[i].lit)
  }

  // The index that a path reads is there, on an integer column.
  ghost predicate IndexThere(s: Source, db: Database) {
    !s.access.Scan? ==>
      && IndexRoot(s) in db.store && IndexRoot(s) < 0x8000_0000
      && s.access.cmp.col.idx < |s.columns| && s.columns[s.access.cmp.col.idx].dataType == TypeInt
  }

  // Its entries lead to rows. This is all that a program needs to run.
  ghost predicate PathLinked(s: Source, db: Database) {
    IndexThere(s, db) && (!s.access.Scan? ==> Linked(Rows(db, s.root), Rows(db, IndexRoot(s))))
  }

  // Its entries are the pairs of the rows. An index that the path does not read may be anything.
  ghost predicate PathStored(s: Source, db: Database) {
    IndexThere(s, db)
    && (!s.access.Scan? ==> IndexCovers(s.columns, s.access.cmp.col.idx, Rows(db, s.root), Rows(db, IndexRoot(s))))
  }

  lemma StoredIsLinked(s: Source, db: Database)
    requires PathStored(s, db)
    ensures PathLinked(s, db)
  {
    hide IndexCovers, Linked;
    if !s.access.Scan? {
      CoversLinked(s.columns, s.access.cmp.col.idx, Rows(db, s.root), Rows(db, IndexRoot(s)));
    }
  }

  lemma DetectedPair(cmps: seq<ResolvedCmp>)
    requires DetectRangePair(cmps).Some?
    ensures var p := DetectRangePair(cmps).value;
      && |cmps| == 2 && (cmps == [p.lower, p.upper] || cmps == [p.upper, p.lower])
      && p.lower.col == p.upper.col && IsLower(p.lower.op) && IsUpper(p.upper.op)
  {
  }

  // The index an access path reads is the one found on the column of its conjunct.
  predicate ReadsIndexOf(schema: seq<SchemaItem>, name: string, columns: seq<Column>, root: nat, cmp: ResolvedCmp) {
    && cmp.col.idx < |columns| && FindIndexOn(schema, name, columns[cmp.col.idx].name).Some?
    && root == FindIndexOn(schema, name, columns[cmp.col.idx].name).value.root
  }

  // An access path stands for the conjuncts it was made from.
  predicate AccessOf(schema: seq<SchemaItem>, name: string, columns: seq<Column>, cmps: seq<ResolvedCmp>, access: Access) {
    match access
    case Scan => true
    case EqSeek(root, cmp) => cmps == [cmp] && cmp.op == Op_Ne && ReadsIndexOf(schema, name, columns, root, cmp)
    case RangeSeek(root, cmp, None) => cmps == [cmp] && cmp.op != Op_Ne && ReadsIndexOf(schema, name, columns, root, cmp)
    case RangeSeek(root, cmp, Some(u)) =>
      && (cmps == [cmp, u] || cmps == [u, cmp]) && u.col == cmp.col && IsLower(cmp.op) && IsUpper(u.op)
      && ReadsIndexOf(schema, name, columns, root, cmp)
  }

  lemma PlannedAccess(schema: seq<SchemaItem>, name: string, columns: seq<Column>, cmps: seq<ResolvedCmp>)
    ensures AccessOf(schema, name, columns, cmps, PlanAccess(schema, name, columns, cmps))
  {
    hide FindIndexOn, ColumnIndex;
    if DetectRangePair(cmps).Some? {
      DetectedPair(cmps);
    }
  }

  ghost predicate SourceUsable(schema: seq<SchemaItem>, db: Database, name: string, side: nat, cmps: seq<ResolvedCmp>) {
    && Stored(schema, db) && FindTable(schema, name).Some?
    && SideCmps(FindTable(schema, name).value.columns, side, cmps) && LiteralsInRange(cmps)
  }

  // Whatever the planner chooses can be run.
  lemma SourceValid(schema: seq<SchemaItem>, db: Database, name: string, side: nat, cmps: seq<ResolvedCmp>)
    requires SourceUsable(schema, db, name, side, cmps)
    requires var t := FindTable(schema, name).value; PathLinked(MakeSource(schema, name, t.root, t.columns, cmps), db)
    ensures var t := FindTable(schema, name).value;
      var s := MakeSource(schema, name, t.root, t.columns, cmps);
      ValidSource(db, s, side) && SideCmps(t.columns, side, s.filter) && SideCmps(t.columns, side, Consumed(s)) && Ascending(Rows(db, t.root))
  {
    hide Stored, Rows, FindIndexOn, PlanAccess, ColumnIndex, Linked, TypedTable, Ascending;
    var t := FindTable(schema, name).value;
    var s := MakeSource(schema, name, t.root, t.columns, cmps);
    PlannedAccess(schema, name, t.columns, cmps);
    TableRows(schema, db, name);
    match s.access
    case Scan =>
    case EqSeek(root, cmp) =>
      assert cmps[0] == cmp;
    case RangeSeek(root, cmp, upper) =>
      var k := if cmps[0] == cmp then 0 else 1;
      assert cmps[k] == cmp;
      if upper.Some? {
        assert cmps[1 - k] == upper.value;
      }
  }

  // And it stands for the conjuncts it was made from.
  lemma SourceReady(schema: seq<SchemaItem>, db: Database, name: string, side: nat, cmps: seq<ResolvedCmp>)
    requires SourceUsable(schema, db, name, side, cmps)
    requires var t := FindTable(schema, name).value; PathStored(MakeSource(schema, name, t.root, t.columns, cmps), db)
    ensures var t := FindTable(schema, name).value;
      var s := MakeSource(schema, name, t.root, t.columns, cmps);
      ReadySource(db, s, side) && Passing(t.columns, side, cmps, Rows(db, t.root)) == PassingRows(db, s, side)
  {
    hide Stored, IndexCovers, Rows, Passing, FindIndexOn, PlanAccess, ColumnIndex, Linked, TypedTable, Ascending;
    var t := FindTable(schema, name).value;
    var s := MakeSource(schema, name, t.root, t.columns, cmps);
    StoredIsLinked(s, db);
    SourceValid(schema, db, name, side, cmps);
    PlannedAccess(schema, name, t.columns, cmps);
    match s.access
    case Scan =>
    case EqSeek(root, cmp) =>
      assert cmps[0] == cmp;
    case RangeSeek(root, cmp, upper) =>
      var k := if cmps[0] == cmp then 0 else 1;
      assert cmps[k] == cmp;
      if upper.Some? {
        assert cmps[1 - k] == upper.value;
        PassingPair(t.columns, side, cmp, upper.value, Rows(db, t.root));
      }
  }

  // The order of two conjuncts does not matter.
  lemma {:induction false} PassingPair(columns: seq<Column>, side: nat, a: ResolvedCmp, b: ResolvedCmp, es: seq<Entry>)
    requires SideCmp(columns, side, a) && SideCmp(columns, side, b)
    ensures SideCmps(columns, side, [a, b]) && SideCmps(columns, side, [b, a])
    ensures Passing(columns, side, [a, b], es) == Passing(columns, side, [b, a], es)
  {
    hide Passes;
    if es != [] {
      PassingPair(columns, side, a, b, es[1..]);
      PassTwo(columns, side, a, b, es[0]);
      PassTwo(columns, side, b, a, es[0]);
    }
  }

  lemma PassTwo(columns: seq<Column>, side: nat, a: ResolvedCmp, b: ResolvedCmp, e: Entry)
    requires SideCmps(columns, side, [a, b]) && a.col.idx < |columns| && b.col.idx < |columns|
    ensures PassesAll(columns, side, e, [a, b]) <==> Passes(columns, e, a) && Passes(columns, e, b)
  {
    hide Passes;
    assert [a, b][0] == a && [a, b][1] == b;
  }

  // ---- the statement --------------------------------------------------------------------------

  // The conjuncts of a side, or of the whole join.
  function CondList(s: Sra): seq<Cond> {
    if s.Select? then Conjuncts(s.cond) else []
  }

  lemma DenoteConds(schema: seq<SchemaItem>, store: map<nat, Tree>, s: Sra)
    ensures Denote(schema, store, s) == Kept(Denote(schema, store, SideTable(s)), CondList(s))
  {
    hide Denote;
    if s.Select? {
      DenoteSelect(schema, store, s.sra, s.cond);
    } else {
      var d := Denote(schema, store, s);
      if d.Some? {
        KeepNone(d.value.scope, d.value.tuples);
      }
    }
  }

  // A natural join of two sides: a table each, perhaps with a condition of its own.
  predicate JoinsTables(schema: seq<SchemaItem>, s: Sra) {
    s.Project? && SideTable(s.sra).NaturalJoin? && SideNamed(schema, SideTable(s.sra).sra1) && SideNamed(schema, SideTable(s.sra).sra2)
  }

  predicate SideNamed(schema: seq<SchemaItem>, side: Sra) {
    SideTable(side).Table? && FindTable(schema, SideTable(side).name).Some?
  }

  function SideScopeOf(schema: seq<SchemaItem>, side: Sra): TableScope
    requires SideNamed(schema, side)
  {
    TableScopeOf(schema, SideTable(side))
  }

  function JoinResolver(schema: seq<SchemaItem>, s: Sra): Resolver
    requires JoinsTables(schema, s)
  {
    Joined(SideScopeOf(schema, SideTable(s.sra).sra1), SideScopeOf(schema, SideTable(s.sra).sra2))
  }

  // The conjuncts of each side resolve to that side.
  ghost predicate SidesOwn(schema: seq<SchemaItem>, s: Sra)
    requires JoinsTables(schema, s)
  {
    var r, j := JoinResolver(schema, s), SideTable(s.sra);
    && (forall i :: 0 <= i < |CondList(j.sra1)| ==> OwnLeaf(CondList(j.sra1)[i], r, 0))
    && (forall i :: 0 <= i < |CondList(j.sra2)| ==> OwnLeaf(CondList(j.sra2)[i], r, 1))
  }

  predicate OwnLeaf(leaf: Cond, r: Resolver, side: nat) {
    ResolveComparison(leaf, r).Some? ==> ResolveComparison(leaf, r).value.col.side == side
  }

  // Shared columns have one type on both sides.
  predicate SharedTypesAgree(schema: seq<SchemaItem>, s: Sra)
    requires JoinsTables(schema, s)
  {
    var r := JoinResolver(schema, s);
    ValidPairList(r.t1.columns, r.t2.columns, SharedColumns(r.t1.columns, r.t2.columns, 0))
  }

  // Integer literals are 32-bit integers, as the parser reads them.
  predicate LeafInRange(leaf: Cond) {
    leaf.Compare? ==> (leaf.e1.Lit? ==> LiteralInRange(leaf.e1.lit)) && (leaf.e2.Lit? ==> LiteralInRange(leaf.e2.lit))
  }

  predicate ListInRange(list: seq<Cond>) {
    forall i :: 0 <= i < |list| ==> LeafInRange(list[i])
  }

  // The indexes the two paths read, if they read any, have the pairs of the rows.
  ghost predicate PathsStored(p: Plan, db: Database)
    requires p.JoinPlan?
  {
    PathStored(p.s1, db) && PathStored(p.s2, db)
  }

  // Their entries lead to rows, and no more.
  ghost predicate IndexesLinked(p: Plan, db: Database)
    requires p.JoinPlan?
  {
    PathLinked(p.s1, db) && PathLinked(p.s2, db)
  }

  // ---- what PlanSelect makes of it ---------------------------------------------------------------

  // The resolved conjuncts of the two sides.
  datatype SideConds = SideConds(c1: seq<ResolvedCmp>, c2: seq<ResolvedCmp>)

  predicate PlannedFrom(schema: seq<SchemaItem>, s: Sra, p: Plan, c: SideConds)
    requires JoinsTables(schema, s)
  {
    var r, j := JoinResolver(schema, s), SideTable(s.sra);
    && p.JoinPlan?
    && ResolveAll(CondList(j.sra1), r) == Some(c.c1) && ResolveAll(CondList(j.sra2), r) == Some(c.c2)
    && ResolveAll(CondList(s.sra), r) == Some(p.top)
    && p.pairs == SharedColumns(r.t1.columns, r.t2.columns, 0)
    && (if IsStar(s.exprs) then p.out == StarColumns(r.t1.columns, r.t2.columns, p.pairs)
        else ResolveOutputs(s.exprs, r) == Some(p.out))
    && p.s1 == SideSource(schema, j.sra1, c.c1) && p.s2 == SideSource(schema, j.sra2, c.c2)
  }

  function SideSource(schema: seq<SchemaItem>, side: Sra, cmps: seq<ResolvedCmp>): Source
    requires SideNamed(schema, side)
  {
    var name := SideTable(side).name;
    var t := FindTable(schema, name).value;
    MakeSource(schema, name, t.root, t.columns, cmps)
  }

  lemma JoinPlanned(schema: seq<SchemaItem>, s: Sra) returns (c: SideConds)
    requires PlanSelect(schema, s).Some? && PlanSelect(schema, s).value.JoinPlan?
    ensures JoinsTables(schema, s) && PlannedFrom(schema, s, PlanSelect(schema, s).value, c)
  {
    hide ResolveAll, ResolveOutputs, SharedColumns, StarColumns, MakeSource;
    var j := SideTable(s.sra);
    assert j.NaturalJoin?;
    var r := JoinResolver(schema, s);
    EmptyResolves(r);
    c := SideConds(ResolveAll(CondList(j.sra1), r).value, ResolveAll(CondList(j.sra2), r).value);
  }

  lemma EmptyResolves(r: Resolver)
    ensures ResolveAll([], r) == Some([])
  {
  }
}
