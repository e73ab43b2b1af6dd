// From a statement tree to its program (codegen_select, codegen_select_join): columns and
// conditions resolved by loops over the trees, then the program emitted.
module CodegenSelects {
  import opened Common
  import opened Sql
  import opened Relational
  import opened Optimizer
  import opened Planner
  import opened Acceptance
  import opened Pipeline
  import opened Layout
  import opened TableLayout
  import opened Dbms
  import opened Codegens
  import opened CodegenJoins
  import opened CodegenTables

  // ---- conditions and columns --------------------------------------------------------------------

  // resolve_conjuncts
  method ResolveConditions(cond: Option<Cond>, r: Resolver) returns (ok: bool, cmps: seq<ResolvedCmp>)
    ensures ok <==> ResolveConjuncts(cond, r).Some?
    ensures ok ==> ResolveConjuncts(cond, r) == Some(cmps) && AllCompiled(cmps)
  {
    hide ResolveComparison;
    ok, cmps := true, [];
    if cond.Some? {
      var list := new ConditionList();
      FlattenConjuncts(cond.value, list);
      var items := list.items;
      assert items == Conjuncts(cond.value);
      for i := 0 to |items|
        invariant ResolveAll(items[..i], r) == Some(cmps) && AllCompiled(cmps)
      {
        var cmp := ResolveComparison(items[i], r);
        if cmp.None? {
          return false, [];
        }
        ResolvedCompiled(items[i], r);
        assert items[..i + 1][..i] == items[..i];
        cmps := cmps + [cmp.value];
      }
      assert items[..|items|] == items;
    }
  }

  lemma ResolvedCompiled(c: Cond, r: Resolver)
    ensures ResolveComparison(c, r).Some? ==> Compiled(ResolveComparison(c, r).value.lit)
  {
  }

  // The output columns of a statement without `*`.
  method ResolveColumns(exprs: seq<Expr>, r: Resolver) returns (ok: bool, out: seq<RCol>)
    ensures ok <==> ResolveOutputs(exprs, r).Some?
    ensures ok ==> ResolveOutputs(exprs, r) == Some(out)
  {
    hide ResolveColumn;
    ok, out := true, [];
    for k := 0 to |exprs|
      invariant ResolveOutputs(exprs[..k], r) == Some(out)
    {
      assert exprs[..k + 1][..k] == exprs[..k];
      if !exprs[k].Col? || ResolveColumn(r, exprs[k].ref).None? {
        FailureStays(exprs, k + 1, r);
        return false, [];
      }
      out := out + [ResolveColumn(r, exprs[k].ref).value.col];
    }
    assert exprs[..|exprs|] == exprs;
  }

  lemma {:induction false} FailureStays(exprs: seq<Expr>, k: nat, r: Resolver)
    requires k <= |exprs| && ResolveOutputs(exprs[..k], r).None?
    ensures ResolveOutputs(exprs, r).None?
  {
    if k == |exprs| {
      assert exprs[..k] == exprs;
    } else {
      assert exprs[..|exprs| - 1][..k] == exprs[..k];
      FailureStays(exprs[..|exprs| - 1], k, r);
    }
  }

  // Every name that both tables have.
  method PairColumns(cols1: seq<Column>, cols2: seq<Column>) returns (pairs: seq<(nat, nat)>)
    ensures pairs == SharedColumns(cols1, cols2, 0)
  {
    pairs := [];
    for i := 0 to |cols1|
      invariant pairs + SharedColumns(cols1, cols2, i) == SharedColumns(cols1, cols2, 0)
    {
      var j := ColumnIndex(cols2, cols1[i].name);
      if j.Some? {
        pairs := pairs + [(i, j.value)];
      }
    }
  }

  // `*`: the columns of the left table, then those of the right table that are not join columns.
  method AllColumns(cols1: seq<Column>, cols2: seq<Column>, pairs: seq<(nat, nat)>) returns (out: seq<RCol>)
    ensures out == StarColumns(cols1, cols2, pairs)
  {
    out := [];
    for i := 0 to |cols1|
      invariant out == seq(i, k requires 0 <= k < i => RCol(0, k))
    {
      out := out + [RCol(0, i)];
    }
    for i := 0 to |cols2|
      invariant out + OwnColumns(|cols2|, pairs, i) == StarColumns(cols1, cols2, pairs)
    {
      var joined := false;
      for p := 0 to |pairs|
        invariant !joined && !IsShared(pairs[..p], i)
      {
        if pairs[p].1 == i {
          joined := true;
          assert IsShared(pairs, i);
          break;
        }
      }
      assert pairs[..|pairs|] == pairs;
      if !joined {
        out := out + [RCol(1, i)];
      }
    }
  }

  // ---- statements ----------------------------------------------------------------------------------

  // The statement holds the program of a plan, or nothing when there is no plan.
  ghost predicate Generated(stmt: Stmt, ok: bool, plan: Option<Plan>)
    reads stmt
  {
    && (ok <==> plan.Some?)
    && match plan
       case None => stmt.ops == [] && stmt.nRR == stmt.nCols == 0
       case Some(p) => stmt.ops == CodeOf(p) && stmt.nRR == stmt.nCols == WidthOf(p)
  }

  lemma SourceIsCompiled(schema: seq<SchemaItem>, name: string, root: nat, columns: seq<Column>, cmps: seq<ResolvedCmp>)
    requires AllCompiled(cmps)
    ensures SourceCompiled(MakeSource(schema, name, root, columns, cmps))
  {
    hide FindIndexOn;
  }

  method CodegenJoin(stmt: Stmt, schema: seq<SchemaItem>, s1: Sra, s2: Sra, exprs: seq<Expr>, cond: Option<Cond>) returns (ok: bool)
    requires stmt.ops == [] && stmt.nRR == stmt.nCols == 0
    modifies stmt`ops, stmt`nRR, stmt`nCols
    ensures Generated(stmt, ok, PlanJoin(schema, s1, s2, exprs, cond))
  {
    hide ResolveConjuncts, ResolveOutputs, SharedColumns, StarColumns, MakeSource, JoinCode, FindTable, AllCompiled, SourceCompiled, IsStar;
    var b1, b2 := SideTable(s1), SideTable(s2);
    if !b1.Table? || !b2.Table? {
      return false;
    }
    var t1, t2 := FindTable(schema, b1.name), FindTable(schema, b2.name);
    if t1.None? || t2.None? {
      return false;
    }
    var cols1, cols2 := t1.value.columns, t2.value.columns;
    var r := Joined(TableScope(b1.name, b1.alias, cols1), TableScope(b2.name, b2.alias, cols2));
    var pairs := PairColumns(cols1, cols2);
    var out;
    if IsStar(exprs) {
      out := AllColumns(cols1, cols2, pairs);
    } else {
      ok, out := ResolveColumns(exprs, r);
      if !ok {
        return;
      }
    }
    var c1, c2, top;
    ok, c1 := ResolveConditions(SideCondition(s1), r);
    if !ok {
      return;
    }
    ok, c2 := ResolveConditions(SideCondition(s2), r);
    if !ok {
      return;
    }
    ok, top := ResolveConditions(cond, r);
    if !ok {
      return;
    }
    var p := JoinPlan(MakeSource(schema, b1.name, t1.value.root, cols1, c1), MakeSource(schema, b2.name, t2.value.root, cols2, c2),
                      pairs, top, out);
    SourceIsCompiled(schema, b1.name, t1.value.root, cols1, c1);
    SourceIsCompiled(schema, b2.name, t2.value.root, cols2, c2);
    EmitJoin(stmt, p);
    stmt.nCols, stmt.nRR := |out|, |out|;
  }

  method CodegenTable(stmt: Stmt, schema: seq<SchemaItem>, t: Sra, exprs: seq<Expr>, cond: Option<Cond>) returns (ok: bool)
    requires t.Table? && stmt.ops == [] && stmt.nRR == stmt.nCols == 0
    modifies stmt`ops, stmt`nRR, stmt`nCols
    ensures Generated(stmt, ok, PlanTable(schema, t, exprs, cond))
  {
    hide ResolveConjuncts, ResolveOutputs, MakeSource, TableCode, FindTable, AllCompiled, SourceCompiled, IsStar;
    var item := FindTable(schema, t.name);
    if item.None? {
      return false;
    }
    var columns, r := item.value.columns, Single(item.value.columns);
    var out;
    if IsStar(exprs) {
      out := seq(|columns|, i requires 0 <= i < |columns| => RCol(0, i));
    } else {
      ok, out := ResolveColumns(exprs, r);
      if !ok {
        return;
      }
    }
    var cmps;
    ok, cmps := ResolveConditions(cond, r);
    if !ok {
      return;
    }
    var s, outIdx := MakeSource(schema, t.name, item.value.root, columns, cmps), seq(|out|, i requires 0 <= i < |out| => out[i].idx);
    SourceIsCompiled(schema, t.name, item.value.root, columns, cmps);
    if s.access.Scan? {
      EmitScan(stmt, TablePlan(s, outIdx));
    } else {
      EmitIndexed(stmt, TablePlan(s, outIdx));
    }
    stmt.nCols, stmt.nRR := |outIdx|, |outIdx|;
  }

  // chidb_stmt_codegen on a SELECT statement; false is CHIDB_EINVALIDSQL.
  method CodegenSelect(stmt: Stmt, schema: seq<SchemaItem>, s: Sra) returns (ok: bool)
    requires stmt.ops == [] && stmt.nRR == stmt.nCols == 0
    modifies stmt`ops, stmt`nRR, stmt`nCols
    ensures Generated(stmt, ok, PlanSelect(schema, s)) && (ok <==> Accepted(schema, s))
  {
    hide PlanJoin, PlanTable, JoinCode, TableCode, Accepted;
    AcceptedIs(schema, s);
    if !s.Project? {
      return false;
    }
    var cond, from := SideCondition(s.sra), SideTable(s.sra);
    if from.NaturalJoin? {
      ok := CodegenJoin(stmt, schema, from.sra1, from.sra2, s.exprs, cond);
    } else if from.Table? {
      ok := CodegenTable(stmt, schema, from, s.exprs, cond);
    } else {
      ok := false;
    }
  }

  // chidb_prepare: optimize, then generate.
  method Prepare(stmt: Stmt, schema: seq<SchemaItem>, s: Sra) returns (ok: bool)
    requires stmt.ops == [] && stmt.nRR == stmt.nCols == 0
    modifies stmt`ops, stmt`nRR, stmt`nCols
    ensures Generated(stmt, ok, PlanSelect(schema, Optimized(schema, s))) && (ok <==> Accepted(schema, s))
  {
    hide PlanSelect, Optimized, Accepted;
    OptimizedAccepted(schema, s);
    AcceptedIs(schema, s);
    var better := Optimize(schema, s);
    ok := CodegenSelect(stmt, schema, better);
  }
}
