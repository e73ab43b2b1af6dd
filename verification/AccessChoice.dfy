// Which access path is chosen for a table and which columns two tables are joined on, told from
// the schema and the conjuncts alone.
module AccessChoice {
  import opened Common
  import opened Sql
  import opened Machine
  import opened Planner
  import opened Naming

  // ---- access paths ------------------------------------------------------------------------------------

  // The negated comparisons of a lower bound, > and >=, and of an upper bound, < and <=.
  predicate BoundsBelow(cmp: ResolvedCmp) {
    cmp.op == Op_Le || cmp.op == Op_Lt
  }

  predicate BoundsAbove(cmp: ResolvedCmp) {
    cmp.op == Op_Ge || cmp.op == Op_Gt
  }

  // The column of a conjunct has an index.
  ghost predicate Indexed(schema: seq<SchemaItem>, name: string, columns: seq<Column>, cmp: ResolvedCmp) {
    cmp.col.idx < |columns| && HasIndexOn(schema, name, columns[cmp.col.idx].name)
  }

  // root is that of the first index on the column of a conjunct.
  ghost predicate IndexRootOf(schema: seq<SchemaItem>, name: string, columns: seq<Column>, cmp: ResolvedCmp, root: nat) {
    cmp.col.idx < |columns| && exists item :: item in schema && IsIndexOn(schema, name, columns[cmp.col.idx].name, item) && item.root == root
  }

  // A single equality, a single bound, and a lower and an upper bound on one column are read
  // through an index if there is one; everything else is scanned.
  ghost predicate SeeksEqual(schema: seq<SchemaItem>, name: string, columns: seq<Column>, cmps: seq<ResolvedCmp>) {
    |cmps| == 1 && cmps[0].op == Op_Ne && Indexed(schema, name, columns, cmps[0])
  }

  ghost predicate SeeksBound(schema: seq<SchemaItem>, name: string, columns: seq<Column>, cmps: seq<ResolvedCmp>) {
    |cmps| == 1 && (BoundsBelow(cmps[0]) || BoundsAbove(cmps[0])) && Indexed(schema, name, columns, cmps[0])
  }

  ghost predicate SeeksBetween(schema: seq<SchemaItem>, name: string, columns: seq<Column>, cmps: seq<ResolvedCmp>, lower: nat) {
    && |cmps| == 2 && lower <= 1 && BoundsBelow(cmps[lower]) && BoundsAbove(cmps[1 - lower])
    && cmps[0].col == cmps[1].col && Indexed(schema, name, columns, cmps[lower])
  }

  // The path that the conjuncts and the schema call for.
  ghost predicate RightAccess(schema: seq<SchemaItem>, name: string, columns: seq<Column>, cmps: seq<ResolvedCmp>, access: Access) {
    if SeeksEqual(schema, name, columns, cmps) then
      access.EqSeek? && access.cmp == cmps[0] && IndexRootOf(schema, name, columns, cmps[0], access.indexRoot)
    else if SeeksBound(schema, name, columns, cmps) then
      access.RangeSeek? && access.cmp == cmps[0] && access.upper == None && IndexRootOf(schema, name, columns, cmps[0], access.indexRoot)
    else if SeeksBetween(schema, name, columns, cmps, 0) then
      access.RangeSeek? && access.cmp == cmps[0] && access.upper == Some(cmps[1])
      && IndexRootOf(schema, name, columns, cmps[0], access.indexRoot)
    else if SeeksBetween(schema, name, columns, cmps, 1) then
      access.RangeSeek? && access.cmp == cmps[1] && access.upper == Some(cmps[0])
      && IndexRootOf(schema, name, columns, cmps[1], access.indexRoot)
    else access.Scan?
  }

  lemma IndexFound(schema: seq<SchemaItem>, name: string, columns: seq<Column>, cmp: ResolvedCmp)
    requires cmp.col.idx < |columns|
    ensures var r := FindIndexOn(schema, name, columns[cmp.col.idx].name);
      (r.Some? <==> Indexed(schema, name, columns, cmp)) && (r.Some? ==> IndexRootOf(schema, name, columns, cmp, r.value.root))
  {
    hide FindIndexOn, IsIndexOn, HasIndexOn;
    FindIndexOnIs(schema, name, columns[cmp.col.idx].name);
  }

  // The planner chooses that path, for conjuncts that are comparisons.
  lemma PlanAccessIs(schema: seq<SchemaItem>, name: string, columns: seq<Column>, cmps: seq<ResolvedCmp>)
    requires forall i :: 0 <= i < |cmps| ==> cmps[i].op == Op_Ne || BoundsBelow(cmps[i]) || BoundsAbove(cmps[i])
    ensures RightAccess(schema, name, columns, cmps, PlanAccess(schema, name, columns, cmps))
  {
    hide FindIndexOn, IndexRootOf, HasIndexOn;
    if 0 < |cmps| && cmps[0].col.idx < |columns| {
      IndexFound(schema, name, columns, cmps[0]);
    }
    if 1 < |cmps| && cmps[1].col.idx < |columns| {
      IndexFound(schema, name, columns, cmps[1]);
    }
  }

  // A table that is scanned is checked for all its conjuncts, one that is not for none.
  lemma SourceIs(schema: seq<SchemaItem>, name: string, root: nat, columns: seq<Column>, cmps: seq<ResolvedCmp>)
    requires forall i :: 0 <= i < |cmps| ==> cmps[i].op == Op_Ne || BoundsBelow(cmps[i]) || BoundsAbove(cmps[i])
    ensures var s := MakeSource(schema, name, root, columns, cmps);
      && s.root == root && s.columns == columns && RightAccess(schema, name, columns, cmps, s.access)
      && s.filter == if s.access.Scan? then cmps else []
  {
    hide PlanAccess, RightAccess;
    PlanAccessIs(schema, name, columns, cmps);
  }

  // ---- join columns --------------------------------------------------------------------------------------

  // Column i of the left table is joined with column j of the right: its first column of that name.
  predicate JoinedOn(cols1: seq<Column>, cols2: seq<Column>, i: nat, j: nat) {
    i < |cols1| && IsColumn(cols2, cols1[i].name, j)
  }

  lemma {:induction false} SharedFrom(cols1: seq<Column>, cols2: seq<Column>, k: nat, i: nat, j: nat)
    requires k <= |cols1|
    ensures (i, j) in SharedColumns(cols1, cols2, k) <==> k <= i && JoinedOn(cols1, cols2, i, j)
    decreases |cols1| - k
  {
    hide IsColumn, ColumnIndex;
    if k < |cols1| {
      SharedFrom(cols1, cols2, k + 1, i, j);
      ColumnIndexIs(cols2, cols1[k].name, j);
    }
  }

  // The join columns are exactly these pairs.
  lemma SharedAre(cols1: seq<Column>, cols2: seq<Column>, i: nat, j: nat)
    ensures (i, j) in SharedColumns(cols1, cols2, 0) <==> JoinedOn(cols1, cols2, i, j)
  {
    SharedFrom(cols1, cols2, 0, i, j);
  }

  lemma {:induction false} OwnFrom(n: nat, pairs: seq<(nat, nat)>, k: nat, rc: RCol)
    requires k <= n
    ensures rc in OwnColumns(n, pairs, k) <==> rc.side == 1 && k <= rc.idx < n && !IsShared(pairs, rc.idx)
    decreases n - k
  {
    if k < n {
      OwnFrom(n, pairs, k + 1, rc);
    }
  }

  // `*` shows every column of the left table, and of the right table those that no column of the
  // left is joined with.
  lemma StarAre(cols1: seq<Column>, cols2: seq<Column>, rc: RCol)
    ensures rc in StarColumns(cols1, cols2, SharedColumns(cols1, cols2, 0)) <==>
      || (rc.side == 0 && rc.idx < |cols1|)
      || (rc.side == 1 && rc.idx < |cols2| && forall i: nat :: !JoinedOn(cols1, cols2, i, rc.idx))
  {
    hide SharedColumns, JoinedOn;
    var pairs := SharedColumns(cols1, cols2, 0);
    OwnFrom(|cols2|, pairs, 0, rc);
    if IsShared(pairs, rc.idx) {
      var k :| 0 <= k < |pairs| && pairs[k].1 == rc.idx;
      assert (pairs[k].0, rc.idx) in pairs;
      SharedAre(cols1, cols2, pairs[k].0, rc.idx);
    }
    forall i: nat | JoinedOn(cols1, cols2, i, rc.idx) ensures IsShared(pairs, rc.idx) {
      SharedAre(cols1, cols2, i, rc.idx);
      var k :| 0 <= k < |pairs| && pairs[k] == (i, rc.idx);
    }
    var left := seq(|cols1|, i requires 0 <= i < |cols1| => RCol(0, i));
    assert rc in left <==> rc.side == 0 && rc.idx < |cols1| by {
      if rc.side == 0 && rc.idx < |cols1| { assert left[rc.idx] == rc; }
    }
  }
}
