// Which rows of a table an access path visits, and which rows a join program emits.
module JoinRows {
  import opened Common
  import opened Sql
  import opened Values
  import opened Trees
  import opened TreeSnapshot
  import opened Machine
  import opened Planner
  import opened Layout
  import opened CodeRuns

  // What a cursor on a root sees.
  function Rows(db: Database, root: nat): seq<Entry> {
    if root in db.store then Collect(root in db.indexes, db.store[root]) else []
  }

  // ---- conjuncts of one side -------------------------------------------------------------

  predicate LiteralInRange(lit: Literal) {
    lit.IntLit? ==> -0x8000_0000 <= lit.i < 0x8000_0000
  }

  predicate SideCmp(columns: seq<Column>, side: nat, cmp: ResolvedCmp) {
    && cmp.col.side == side && cmp.col.idx < |columns|
    && LiteralMatches(cmp.lit, columns[cmp.col.idx].dataType)
    && SeekOpcode(cmp.op).Some?
  }

  predicate SideCmps(columns: seq<Column>, side: nat, cmps: seq<ResolvedCmp>) {
    forall i :: 0 <= i < |cmps| ==> SideCmp(columns, side, cmps[i])
  }

  predicate Passes(columns: seq<Column>, e: Entry, cmp: ResolvedCmp)
    requires cmp.col.idx < |columns|
  {
    var v, lit := ColumnValue(columns, e, cmp.col.idx), LiteralValue(cmp.lit);
    Comparable(v, lit) && !JumpsOn(cmp.op, Order(v, lit))
  }

  predicate PassesAll(columns: seq<Column>, side: nat, e: Entry, cmps: seq<ResolvedCmp>)
    requires SideCmps(columns, side, cmps)
  {
    forall i :: 0 <= i < |cmps| ==> Passes(columns, e, cmps[i])
  }

  // ---- walks -------------------------------------------------------------------------------

  // Every index entry leads to a row of the table.
  ghost predicate Linked(t: seq<Entry>, x: seq<Entry>) {
    forall i :: 0 <= i < |x| ==> x[i].pk < 0x8000_0000 && SeekUp(Op_Seek, t, x[i].pk, 0).Some?
  }

  function SeekKey(lit: Literal): nat {
    if lit.IntLit? && LiteralInRange(lit) then Wrap(lit.i) else 0
  }

  ghost predicate ValidAccess(s: Source, side: nat, t: seq<Entry>, x: seq<Entry>) {
    match s.access
    case Scan => true
    case EqSeek(root, cmp) =>
      SideCmp(s.columns, side, cmp) && cmp.op == Op_Ne && cmp.lit.IntLit? && LiteralInRange(cmp.lit) && Linked(t, x)
    case RangeSeek(root, cmp, upper) =>
      && SideCmp(s.columns, side, cmp) && cmp.op != Op_Ne && cmp.lit.IntLit? && LiteralInRange(cmp.lit) && Linked(t, x)
      && (upper.Some? ==> SideCmp(s.columns, side, upper.value) && SeeksForward(SeekOf(cmp)))
  }

  // The cursor that drives a side's loop runs over its table or over its index.
  function Driver(s: Source, t: seq<Entry>, x: seq<Entry>): seq<Entry> {
    if s.access.Scan? then t else x
  }

  ghost function TablePos(s: Source, t: seq<Entry>, x: seq<Entry>, d: nat): (j: nat)
    requires d < |Driver(s, t, x)| && (!s.access.Scan? ==> Linked(t, x))
    ensures j < |t|
  {
    if s.access.Scan? then d else SeekUp(Op_Seek, t, x[d].pk, 0).value
  }

  ghost predicate StopsAt(s: Source, side: nat, t: seq<Entry>, x: seq<Entry>, j: nat)
    requires ValidAccess(s, side, t, x) && j < |t|
  {
    HasUpper(s.access) && !Passes(s.columns, t[j], s.access.upper.value)
  }

  function WalkMeasure(s: Source, n: nat, d: nat): nat
    requires d < n
  {
    if AdvanceOf(s.access) == Op_Prev then d else n - d
  }

  // Table positions visited when the driver stands on d.
  ghost function Walk(s: Source, side: nat, t: seq<Entry>, x: seq<Entry>, d: nat): (v: seq<nat>)
    requires ValidAccess(s, side, t, x) && d < |Driver(s, t, x)|
    ensures forall k :: 0 <= k < |v| ==> v[k] < |t|
    decreases WalkMeasure(s, |Driver(s, t, x)|, d)
  {
    var j := TablePos(s, t, x, d);
    if StopsAt(s, side, t, x, j) then []
    else
      match NextPosition(AdvanceOf(s.access), |Driver(s, t, x)|, d)
      case None => [j]
      case Some(d') => [j] + Walk(s, side, t, x, d')
  }

  // Where a side's loop starts.
  function StartPosition(s: Source, t: seq<Entry>, x: seq<Entry>): (r: Option<nat>)
    ensures r.Some? ==> r.value < |Driver(s, t, x)|
  {
    match s.access
    case Scan => if t == [] then None else Some(0)
    case EqSeek(_, cmp) => SeekPosition(Op_Seek, x, SeekKey(cmp.lit))
    case RangeSeek(_, cmp, _) => SeekPosition(SeekOf(cmp), x, SeekKey(cmp.lit))
  }

  // All table positions a side visits, in order.
  ghost function Visit(s: Source, side: nat, t: seq<Entry>, x: seq<Entry>): (v: seq<nat>)
    requires ValidAccess(s, side, t, x)
    ensures forall k :: 0 <= k < |v| ==> v[k] < |t|
  {
    match StartPosition(s, t, x)
    case None => []
    case Some(d) => if s.access.EqSeek? then [TablePos(s, t, x, d)] else Walk(s, side, t, x, d)
  }

  // ---- emitted rows --------------------------------------------------------------------------

  // A plan whose conjuncts, shared columns and outputs fit its two tables.
  ghost predicate ValidJoin(p: Plan) {
    && p.JoinPlan?
    && SideCmps(p.s1.columns, 0, p.s1.filter) && SideCmps(p.s2.columns, 1, p.s2.filter)
    && ValidCmps(p.s1.columns, p.s2.columns, p.top)
    && ValidPairList(p.s1.columns, p.s2.columns, p.pairs)
    && ValidOut(p.s1.columns, p.s2.columns, p.out) && p.out != []
  }

  // What the inner loop checks before it emits.
  ghost predicate Matches(p: Plan, e1: Entry, e2: Entry)
    requires ValidJoin(p)
  {
    && PairsAgree(p.s1.columns, p.s2.columns, e1, e2, p.pairs)
    && PassesAll(p.s2.columns, 1, e2, p.s2.filter)
    && AllPass(p.s1.columns, p.s2.columns, e1, e2, p.top)
  }

  ghost function EmitOne(p: Plan, e1: Entry, e2: Entry): seq<Row>
    requires ValidJoin(p)
  {
    if Matches(p, e1, e2) then [OutRow(p.s1.columns, p.s2.columns, e1, e2, p.out)] else []
  }

  // Rows for one left row, over the right positions vs.
  ghost function RowsFor(p: Plan, e1: Entry, t2: seq<Entry>, vs: seq<nat>): seq<Row>
    requires ValidJoin(p) && forall k :: 0 <= k < |vs| ==> vs[k] < |t2|
  {
    if vs == [] then [] else EmitOne(p, e1, t2[vs[0]]) + RowsFor(p, e1, t2, vs[1..])
  }

  // Rows over the left positions us.
  ghost function RowsOver(p: Plan, t1: seq<Entry>, us: seq<nat>, t2: seq<Entry>, vs: seq<nat>): seq<Row>
    requires ValidJoin(p)
    requires forall k :: 0 <= k < |us| ==> us[k] < |t1|
    requires forall k :: 0 <= k < |vs| ==> vs[k] < |t2|
  {
    if us == [] then []
    else (if PassesAll(p.s1.columns, 0, t1[us[0]], p.s1.filter) then RowsFor(p, t1[us[0]], t2, vs) else [])
         + RowsOver(p, t1, us[1..], t2, vs)
  }

  // ---- the tables of a plan --------------------------------------------------------------------

  function IndexRoot(s: Source): nat {
    if s.access.Scan? then 0 else s.access.indexRoot
  }

  ghost predicate ValidSource(db: Database, s: Source, side: nat) {
    && s.root in db.store && s.root < 0x8000_0000
    && (!s.access.Scan? ==> IndexRoot(s) in db.store && IndexRoot(s) < 0x8000_0000)
    && TypedTable(s.columns, Rows(db, s.root))
    && ValidAccess(s, side, Rows(db, s.root), Rows(db, IndexRoot(s)))
    && (!s.access.Scan? ==> s.filter == [])
  }

  ghost predicate ValidQuery(p: Plan, db: Database) {
    ValidJoin(p) && ValidSource(db, p.s1, 0) && ValidSource(db, p.s2, 1)
  }

  ghost function VisitOf(db: Database, s: Source, side: nat): (v: seq<nat>)
    requires ValidSource(db, s, side)
    ensures forall k :: 0 <= k < |v| ==> v[k] < |Rows(db, s.root)|
  {
    Visit(s, side, Rows(db, s.root), Rows(db, IndexRoot(s)))
  }

  // All the rows the join program yields, in order.
  ghost function JoinOutput(p: Plan, db: Database): seq<Row>
    requires ValidQuery(p, db)
  {
    RowsOver(p, Rows(db, p.s1.root), VisitOf(db, p.s1, 0), Rows(db, p.s2.root), VisitOf(db, p.s2, 1))
  }
}
