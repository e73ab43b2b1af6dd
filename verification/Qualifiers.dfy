// A statement over one table and its qualifiers. The code generator does not look at them; the
// statement denotes something only if they name the table.
module Qualifiers {
  import opened Common
  import opened Sql
  import opened Trees
  import opened Relational
  import opened Optimizer
  import opened OptimizerProof
  import opened Planner
  import opened JoinCorrect

  predicate ReadsTable(schema: seq<SchemaItem>, s: Sra) {
    s.Project? && SideNamed(schema, s.sra)
  }

  // ---- names -----------------------------------------------------------------------------------------

  predicate RefNames(t: TableScope, ref: ColumnRef) {
    ref.table.Some? ==> Names(t.name, t.alias, ref.table.value)
  }

  predicate ExprNames(t: TableScope, e: Expr) {
    e.Col? ==> RefNames(t, e.ref)
  }

  predicate LeafNames(t: TableScope, leaf: Cond) {
    leaf.Compare? ==> ExprNames(t, leaf.e1) && ExprNames(t, leaf.e2)
  }

  // Every qualifier names the table; that of a star is not looked at.
  predicate QualifiersName(t: TableScope, exprs: seq<Expr>, list: seq<Cond>) {
    && (IsStar(exprs) || forall i :: 0 <= i < |exprs| ==> ExprNames(t, exprs[i]))
    && (forall i :: 0 <= i < |list| ==> LeafNames(t, list[i]))
  }

  // ---- what denotes something --------------------------------------------------------------------------

  lemma ScopedNames(t: TableScope, e: Expr)
    requires ExprScoped([t], e)
    ensures ExprNames(t, e)
  {
    if e.Col? {
      assert [t][1..] == [];
    }
  }

  // Whoever denotes something has qualifiers that name the table.
  lemma DenotedNames(schema: seq<SchemaItem>, store: map<nat, Tree>, s: Sra)
    requires ReadsTable(schema, s) && DenoteQuery(schema, store, s).Some?
    ensures QualifiersName(SideScopeOf(schema, s.sra), s.exprs, CondList(s.sra))
  {
    hide Denote, Keep, Resolve, Names, Conjuncts, ExprScoped, FindTable, Outputs;
    var t, list := SideScopeOf(schema, s.sra), CondList(s.sra);
    QueryOfInner(schema, store, s);
    DenoteConds(schema, store, s.sra);
    TableDenotesScope(schema, store, SideTable(s.sra));
    forall i | 0 <= i < |list| ensures LeafNames(t, list[i]) {
      assert CondScoped([t], list[i]);
      if list[i].Compare? {
        ScopedNames(t, list[i].e1);
        ScopedNames(t, list[i].e2);
      }
    }
    if !IsStar(s.exprs) {
      forall i | 0 <= i < |s.exprs| ensures ExprNames(t, s.exprs[i]) {
        assert ExprScoped([t], s.exprs[i]);
        ScopedNames(t, s.exprs[i]);
      }
    }
  }

  lemma QueryOfInner(schema: seq<SchemaItem>, store: map<nat, Tree>, s: Sra)
    requires s.Project? && DenoteQuery(schema, store, s).Some?
    ensures Denote(schema, store, s.sra).Some? && ExprsScoped(Denote(schema, store, s.sra).value, s.exprs)
  {
  }

  lemma TableDenotesScope(schema: seq<SchemaItem>, store: map<nat, Tree>, s: Sra)
    requires s.Table? && FindTable(schema, s.name).Some? && Denote(schema, store, s).Some?
    ensures Denote(schema, store, s).value.scope == [TableScopeOf(schema, s)]
  {
  }

  // ---- the statement without qualifiers ------------------------------------------------------------------

  function PlainExpr(e: Expr): Expr {
    match e
    case Col(ref) => Col(ColumnRef(None, ref.column))
    case Func(name, a) => Func(name, PlainExpr(a))
    case Binary(op, a, b) => Binary(op, PlainExpr(a), PlainExpr(b))
    case Neg(a) => Neg(PlainExpr(a))
    case _ => e
  }

  function PlainCond(c: Cond): Cond {
    match c
    case Compare(op, a, b) => Compare(op, PlainExpr(a), PlainExpr(b))
    case And(a, b) => And(PlainCond(a), PlainCond(b))
    case Or(a, b) => Or(PlainCond(a), PlainCond(b))
    case Not(a) => Not(PlainCond(a))
    case In(a, values) => In(PlainExpr(a), values)
  }

  function PlainExprs(exprs: seq<Expr>): (r: seq<Expr>)
    ensures |r| == |exprs| && forall i :: 0 <= i < |exprs| ==> r[i] == PlainExpr(exprs[i])
  {
    seq(|exprs|, i requires 0 <= i < |exprs| => PlainExpr(exprs[i]))
  }

  function PlainList(list: seq<Cond>): (r: seq<Cond>)
    ensures |r| == |list| && forall i :: 0 <= i < |list| ==> r[i] == PlainCond(list[i])
  {
    seq(|list|, i requires 0 <= i < |list| => PlainCond(list[i]))
  }

  function Unqualified(s: Sra): Sra
    requires s.Project?
  {
    Project(if s.sra.Select? then Select(s.sra.sra, PlainCond(s.sra.cond)) else s.sra, PlainExprs(s.exprs))
  }

  lemma {:induction false} PlainConjuncts(c: Cond)
    ensures Conjuncts(PlainCond(c)) == PlainList(Conjuncts(c))
  {
    if c.And? {
      PlainConjuncts(c.c1);
      PlainConjuncts(c.c2);
    }
  }

  lemma PlainConds(s: Sra)
    requires s.Project?
    ensures CondList(Unqualified(s).sra) == PlainList(CondList(s.sra))
  {
    hide Conjuncts, PlainCond;
    if s.sra.Select? {
      PlainConjuncts(s.sra.cond);
    }
  }

  // It names nothing wrong.
  lemma PlainNames(t: TableScope, s: Sra)
    requires s.Project?
    ensures QualifiersName(t, Unqualified(s).exprs, CondList(Unqualified(s).sra))
  {
    hide Conjuncts, Names;
    PlainConds(s);
    var list, plain := CondList(s.sra), CondList(Unqualified(s).sra);
    forall i | 0 <= i < |plain| ensures LeafNames(t, plain[i]) {
      assert plain[i] == PlainCond(list[i]);
    }
  }

  lemma PlainInRange(s: Sra)
    requires s.Project? && ListInRange(CondList(s.sra))
    ensures ListInRange(CondList(Unqualified(s).sra))
  {
    hide Conjuncts;
    PlainConds(s);
    var list, plain := CondList(s.sra), CondList(Unqualified(s).sra);
    forall i | 0 <= i < |plain| ensures LeafInRange(plain[i]) {
      assert plain[i] == PlainCond(list[i]) && LeafInRange(list[i]);
    }
  }

  lemma {:induction false} PlainResolves(list: seq<Cond>, columns: seq<Column>)
    ensures ResolveAll(PlainList(list), Single(columns)) == ResolveAll(list, Single(columns))
  {
    if list != [] {
      var front := list[..|list| - 1];
      PlainResolves(front, columns);
      assert PlainList(list)[..|list| - 1] == PlainList(front);
      PlainComparison(list[|list| - 1], columns);
    }
  }

  lemma PlainComparison(leaf: Cond, columns: seq<Column>)
    ensures ResolveComparison(PlainCond(leaf), Single(columns)) == ResolveComparison(leaf, Single(columns))
  {
  }

  lemma {:induction false} PlainOutputs(exprs: seq<Expr>, columns: seq<Column>)
    ensures ResolveOutputs(PlainExprs(exprs), Single(columns)) == ResolveOutputs(exprs, Single(columns))
  {
    if exprs != [] {
      var front := exprs[..|exprs| - 1];
      PlainOutputs(front, columns);
      assert PlainExprs(exprs)[..|exprs| - 1] == PlainExprs(front);
    }
  }

  // The code generator makes the same of a statement with and without its qualifiers.
  lemma PlainPlan(schema: seq<SchemaItem>, s: Sra)
    requires ReadsTable(schema, s)
    ensures ReadsTable(schema, Unqualified(s)) && PlanSelect(schema, Unqualified(s)) == PlanSelect(schema, s)
  {
    hide ResolveAll, ResolveOutputs, MakeSource, FindTable, Conjuncts, PlainCond;
    var columns := FindTable(schema, SideTable(s.sra).name).value.columns;
    if s.sra.Select? {
      PlainConjuncts(s.sra.cond);
      PlainResolves(Conjuncts(s.sra.cond), columns);
    }
    PlainOutputs(s.exprs, columns);
    assert IsStar(PlainExprs(s.exprs)) <==> IsStar(s.exprs);
  }
}
