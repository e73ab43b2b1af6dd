// Which SELECT statements are accepted, told from the statement and the schema alone, without the
// plan: the counterpart of what the code generator decides by compiling.
module Acceptance {
  import opened Common
  import opened Sql
  import opened Relational
  import opened Optimizer
  import opened Planner
  import opened Naming

  // ---- columns -----------------------------------------------------------------------------------------

  predicate NamesTable(t: TableScope, qualifier: string) {
    SameLetters(qualifier, t.name) || (t.alias.Some? && SameLetters(qualifier, t.alias.value))
  }

  function ColumnsAt(r: Resolver, side: nat): seq<Column> {
    match r
    case Single(columns) => columns
    case Joined(t1, t2) => if side == 0 then t1.columns else t2.columns
  }

  // What a reference means. Over one table, its column of that name. Over two, a column of the
  // table the qualifier names, the left one first; without qualifier a column of the left
  // table, and of the right one if the left has none.
  ghost predicate RefMeans(r: Resolver, ref: ColumnRef, side: nat, i: nat) {
    match r
    case Single(columns) => side == 0 && IsColumn(columns, ref.column, i)
    case Joined(t1, t2) =>
      if ref.table.Some? && NamesTable(t1, ref.table.value) then side == 0 && IsColumn(t1.columns, ref.column, i)
      else if ref.table.Some? then side == 1 && NamesTable(t2, ref.table.value) && IsColumn(t2.columns, ref.column, i)
      else if HasColumnNamed(t1.columns, ref.column) then side == 0 && IsColumn(t1.columns, ref.column, i)
      else side == 1 && IsColumn(t2.columns, ref.column, i)
  }

  lemma NamesIs(t: TableScope, qualifier: string)
    ensures Names(t.name, t.alias, qualifier) <==> NamesTable(t, qualifier)
  {
    hide SameName, SameLetters;
    SameNameIs(qualifier, t.name);
    if t.alias.Some? {
      SameNameIs(qualifier, t.alias.value);
    }
  }

  // The resolver finds what the reference means, with its type.
  lemma ResolveIs(r: Resolver, ref: ColumnRef, side: nat, i: nat)
    ensures RefMeans(r, ref, side, i) ==> i < |ColumnsAt(r, side)|
    ensures RefMeans(r, ref, side, i) <==>
      ResolveColumn(r, ref).Some? && ResolveColumn(r, ref).value.col == RCol(side, i)
    ensures RefMeans(r, ref, side, i) ==> ResolveColumn(r, ref) == Some(Resolved(RCol(side, i), ColumnsAt(r, side)[i].dataType))
  {
    hide ColumnIndex, Names, NamesTable, SameLetters, HasColumnNamed;
    match r
    case Single(columns) => ColumnIndexIs(columns, ref.column, i);
    case Joined(t1, t2) =>
      ColumnIndexIs(t1.columns, ref.column, i);
      ColumnIndexIs(t2.columns, ref.column, i);
      if ref.table.Some? {
        NamesIs(t1, ref.table.value);
        NamesIs(t2, ref.table.value);
      }
  }

  ghost predicate RefKnown(r: Resolver, ref: ColumnRef) {
    exists side: nat, i: nat :: RefMeans(r, ref, side, i)
  }

  lemma ResolvesKnown(r: Resolver, ref: ColumnRef)
    ensures RefKnown(r, ref) <==> ResolveColumn(r, ref).Some?
  {
    hide ResolveColumn, RefMeans;
    if ResolveColumn(r, ref).Some? {
      var c := ResolveColumn(r, ref).value.col;
      ResolveIs(r, ref, c.side, c.idx);
    }
    if RefKnown(r, ref) {
      var side: nat, i: nat :| RefMeans(r, ref, side, i);
      ResolveIs(r, ref, side, i);
    }
  }

  // ---- conditions ---------------------------------------------------------------------------------------

  // A column and a literal of its type.
  ghost predicate Takes(r: Resolver, column: Expr, value: Expr) {
    column.Col? && value.Lit? && exists side: nat, i: nat :: TakesAt(r, column.ref, value.lit, side, i)
  }

  ghost predicate TakesAt(r: Resolver, ref: ColumnRef, lit: Literal, side: nat, i: nat) {
    RefMeans(r, ref, side, i) && i < |ColumnsAt(r, side)| && OfType(lit, ColumnsAt(r, side)[i].dataType)
  }

  // A comparison of a column with a literal of its type, on either side.
  ghost predicate LeafAccepted(r: Resolver, leaf: Cond) {
    leaf.Compare? && (Takes(r, leaf.e1, leaf.e2) || Takes(r, leaf.e2, leaf.e1))
  }

  // An AND chain of such comparisons.
  ghost predicate ChainAccepted(r: Resolver, c: Cond) {
    if c.And? then ChainAccepted(r, c.c1) && ChainAccepted(r, c.c2) else LeafAccepted(r, c)
  }

  lemma MatchesType(lit: Literal, t: DataType)
    ensures LiteralMatches(lit, t) <==> OfType(lit, t)
  {
  }

  lemma TakesIs(r: Resolver, ref: ColumnRef, value: Expr, op: CompareOp)
    ensures Takes(r, Col(ref), value) <==> ResolveColumnLiteral(r, ref, value, op).Some?
  {
    hide ResolveColumn, RefMeans, LiteralMatches, OfType;
    ResolvesKnown(r, ref);
    if ResolveColumn(r, ref).Some? && value.Lit? {
      var c := ResolveColumn(r, ref).value;
      ResolveIs(r, ref, c.col.side, c.col.idx);
      MatchesType(value.lit, c.dataType);
      if LiteralMatches(value.lit, c.dataType) {
        assert TakesAt(r, ref, value.lit, c.col.side, c.col.idx);
      }
    }
    if Takes(r, Col(ref), value) {
      var side: nat, i: nat :| TakesAt(r, ref, value.lit, side, i);
      ResolveIs(r, ref, side, i);
    }
  }

  lemma LeafIs(r: Resolver, leaf: Cond)
    ensures LeafAccepted(r, leaf) <==> ResolveComparison(leaf, r).Some?
  {
    hide ResolveColumnLiteral, TakesAt;
    if leaf.Compare? {
      if leaf.e1.Col? { TakesIs(r, leaf.e1.ref, leaf.e2, leaf.op); }
      if leaf.e2.Col? { TakesIs(r, leaf.e2.ref, leaf.e1, Flip(leaf.op)); }
    }
  }

  ghost predicate AllAccepted(r: Resolver, list: seq<Cond>) {
    forall i :: 0 <= i < |list| ==> LeafAccepted(r, list[i])
  }

  lemma ListIs(r: Resolver, list: seq<Cond>)
    ensures AllAccepted(r, list) <==> ResolveAll(list, r).Some?
  {
    hide ResolveComparison, LeafAccepted;
    forall i | 0 <= i < |list| ensures LeafAccepted(r, list[i]) <==> ResolveComparison(list[i], r).Some? {
      LeafIs(r, list[i]);
    }
  }

  lemma {:induction false} ChainIs(r: Resolver, c: Cond)
    ensures ChainAccepted(r, c) <==> AllAccepted(r, Conjuncts(c))
  {
    hide LeafAccepted;
    if c.And? {
      ChainIs(r, c.c1);
      ChainIs(r, c.c2);
      var a, b := Conjuncts(c.c1), Conjuncts(c.c2);
      if AllAccepted(r, a + b) {
        forall i | 0 <= i < |a| ensures LeafAccepted(r, a[i]) { assert (a + b)[i] == a[i]; }
        forall i | 0 <= i < |b| ensures LeafAccepted(r, b[i]) { assert (a + b)[|a| + i] == b[i]; }
      }
    } else {
      assert Conjuncts(c)[0] == c;
    }
  }

  // The condition of a Select, if there is one.
  ghost predicate ConditionAccepted(r: Resolver, s: Sra) {
    s.Select? ==> ChainAccepted(r, s.cond)
  }

  lemma ConditionIs(r: Resolver, s: Sra)
    ensures ConditionAccepted(r, s) <==> ResolveConjuncts(SideCondition(s), r).Some?
  {
    hide Conjuncts, ChainAccepted, AllAccepted;
    if s.Select? {
      ChainIs(r, s.cond);
      ListIs(r, Conjuncts(s.cond));
    }
  }

  // ---- outputs --------------------------------------------------------------------------------------------

  // `*` or columns.
  ghost predicate OutputsAccepted(r: Resolver, exprs: seq<Expr>) {
    || (|exprs| == 1 && exprs[0].Col? && exprs[0].ref.column == "*")
    || forall i :: 0 <= i < |exprs| ==> exprs[i].Col? && RefKnown(r, exprs[i].ref)
  }

  lemma {:induction false} OutputsAre(r: Resolver, exprs: seq<Expr>)
    ensures ResolveOutputs(exprs, r).Some? <==> forall i :: 0 <= i < |exprs| ==> exprs[i].Col? && RefKnown(r, exprs[i].ref)
  {
    hide ResolveColumn, RefKnown;
    if exprs != [] {
      var front, last := exprs[..|exprs| - 1], exprs[|exprs| - 1];
      OutputsAre(r, front);
      if last.Col? { ResolvesKnown(r, last.ref); }
      if ResolveOutputs(exprs, r).Some? {
        forall i | 0 <= i < |exprs| ensures exprs[i].Col? && RefKnown(r, exprs[i].ref) {
          if i < |front| { assert exprs[i] == front[i]; }
        }
      }
    }
  }

  // ---- statements -----------------------------------------------------------------------------------------

  // A table of the schema, perhaps with a condition of its own.
  function TableUnder(s: Sra): Sra {
    if s.Select? then s.sra else s
  }

  function ScopeOf(t: Sra, item: SchemaItem): TableScope
    requires t.Table? && item.TableItem?
  {
    TableScope(t.name, t.alias, item.columns)
  }

  ghost predicate TableAccepted(schema: seq<SchemaItem>, s: Sra, item: SchemaItem)
    requires s.Project? && TableUnder(s.sra).Table? && item.TableItem?
  {
    var r := Single(item.columns);
    IsTable(schema, TableUnder(s.sra).name, item) && OutputsAccepted(r, s.exprs) && ConditionAccepted(r, s.sra)
  }

  ghost predicate JoinAccepted(schema: seq<SchemaItem>, s: Sra, item1: SchemaItem, item2: SchemaItem)
    requires s.Project? && TableUnder(s.sra).NaturalJoin? && item1.TableItem? && item2.TableItem?
  {
    var j := TableUnder(s.sra);
    var b1, b2 := TableUnder(j.sra1), TableUnder(j.sra2);
    && b1.Table? && b2.Table? && IsTable(schema, b1.name, item1) && IsTable(schema, b2.name, item2)
    && var r := Joined(ScopeOf(b1, item1), ScopeOf(b2, item2));
       && OutputsAccepted(r, s.exprs) && ConditionAccepted(r, j.sra1) && ConditionAccepted(r, j.sra2)
       && ConditionAccepted(r, s.sra)
  }

  // A projection of one table, or of the natural join of two, with conditions that are AND chains
  // of comparisons of a column with a literal.
  ghost predicate Accepted(schema: seq<SchemaItem>, s: Sra) {
    s.Project? &&
    match TableUnder(s.sra)
    case Table(_, _) => exists item :: item in schema && item.TableItem? && TableAccepted(schema, s, item)
    case NaturalJoin(_, _) =>
      exists item1, item2 :: item1 in schema && item2 in schema && item1.TableItem? && item2.TableItem?
                             && JoinAccepted(schema, s, item1, item2)
    case _ => false
  }

  lemma TableAcceptedIs(schema: seq<SchemaItem>, s: Sra)
    requires s.Project? && TableUnder(s.sra).Table?
    ensures Accepted(schema, s) <==> PlanSelect(schema, s).Some?
  {
    hide FindTable, IsTable, OutputsAccepted, ConditionAccepted, ResolveConjuncts, ResolveOutputs, MakeSource;
    var name, found := TableUnder(s.sra).name, FindTable(schema, TableUnder(s.sra).name);
    if found.Some? {
      var r := Single(found.value.columns);
      FindTableIs(schema, name, found.value);
      OutputsIs(r, s.exprs);
      ConditionIs(r, s.sra);
      assert TableAccepted(schema, s, found.value) <==> PlanSelect(schema, s).Some?;
    }
    if Accepted(schema, s) {
      var item :| item in schema && item.TableItem? && TableAccepted(schema, s, item);
      FindTableIs(schema, name, item);
    }
  }

  lemma OutputsIs(r: Resolver, exprs: seq<Expr>)
    ensures OutputsAccepted(r, exprs) <==> IsStar(exprs) || ResolveOutputs(exprs, r).Some?
  {
    hide RefKnown, ResolveOutputs;
    OutputsAre(r, exprs);
  }

  lemma JoinAcceptedAt(schema: seq<SchemaItem>, s: Sra, item1: SchemaItem, item2: SchemaItem)
    requires s.Project? && TableUnder(s.sra).NaturalJoin? && item1.TableItem? && item2.TableItem?
    requires var j := TableUnder(s.sra);
      && TableUnder(j.sra1).Table? && TableUnder(j.sra2).Table?
      && FindTable(schema, TableUnder(j.sra1).name) == Some(item1) && FindTable(schema, TableUnder(j.sra2).name) == Some(item2)
    ensures JoinAccepted(schema, s, item1, item2) <==> PlanSelect(schema, s).Some?
  {
    hide FindTable, IsTable, OutputsAccepted, ConditionAccepted, ResolveConjuncts, ResolveOutputs, MakeSource, SharedColumns, StarColumns,
      IsStar;
    var j := TableUnder(s.sra);
    var b1, b2 := TableUnder(j.sra1), TableUnder(j.sra2);
    var r := Joined(ScopeOf(b1, item1), ScopeOf(b2, item2));
    FindTableIs(schema, b1.name, item1);
    FindTableIs(schema, b2.name, item2);
    OutputsIs(r, s.exprs);
    ConditionIs(r, j.sra1);
    ConditionIs(r, j.sra2);
    ConditionIs(r, s.sra);
  }

  lemma JoinAcceptedIs(schema: seq<SchemaItem>, s: Sra)
    requires s.Project? && TableUnder(s.sra).NaturalJoin?
    ensures Accepted(schema, s) <==> PlanSelect(schema, s).Some?
  {
    hide FindTable, IsTable, OutputsAccepted, ConditionAccepted, ResolveConjuncts, ResolveOutputs, MakeSource, SharedColumns, StarColumns,
      IsStar;
    var j := TableUnder(s.sra);
    var b1, b2 := TableUnder(j.sra1), TableUnder(j.sra2);
    if PlanSelect(schema, s).Some? {
      JoinAcceptedAt(schema, s, FindTable(schema, b1.name).value, FindTable(schema, b2.name).value);
    }
    if Accepted(schema, s) {
      var item1, item2 :| item1 in schema && item2 in schema && item1.TableItem? && item2.TableItem? && JoinAccepted(schema, s, item1, item2);
      FindTableIs(schema, b1.name, item1);
      FindTableIs(schema, b2.name, item2);
      JoinAcceptedAt(schema, s, item1, item2);
    }
  }

  // A SELECT has a plan if and only if it is accepted as told above.
  lemma AcceptedIs(schema: seq<SchemaItem>, s: Sra)
    ensures PlanSelect(schema, s).Some? <==> Accepted(schema, s)
  {
    hide PlanJoin, PlanTable, TableAccepted, JoinAccepted;
    if s.Project? {
      match TableUnder(s.sra)
      case Table(_, _) => TableAcceptedIs(schema, s);
      case NaturalJoin(_, _) => JoinAcceptedIs(schema, s);
      case _ =>
    }
  }
}
