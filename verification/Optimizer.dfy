// Sigma-pushing (optimizer.c): what it does to a statement tree, and why the query
// keeps its meaning.
module Optimizer {
  import opened Common
  import opened Sql
  import opened Values
  import opened Trees
  import opened Relational

  // Where a conjunct may be moved.
  datatype Side = Left | Right | Top

  predicate HasColumn(columns: seq<Column>, name: string) {
    ColumnIndex(columns, name).Some?
  }

  function ClassifyColumn(ref: ColumnRef, t1: TableScope, t2: TableScope): Side {
    if ref.table.Some? then
      if Names(t1.name, t1.alias, ref.table.value) then Left
      else if Names(t2.name, t2.alias, ref.table.value) then Right
      else Top
    else
      var in1, in2 := HasColumn(t1.columns, ref.column), HasColumn(t2.columns, ref.column);
      if in1 && !in2 then Left else if in2 && !in1 then Right else Top
  }

  // Only a comparison of one column with one literal is ever moved.
  function ClassifyLeaf(leaf: Cond, t1: TableScope, t2: TableScope): Side {
    if !leaf.Compare? then Top
    else if leaf.e1.Col? && leaf.e2.Lit? then ClassifyColumn(leaf.e1.ref, t1, t2)
    else if leaf.e2.Col? && leaf.e1.Lit? then ClassifyColumn(leaf.e2.ref, t1, t2)
    else Top
  }

  // The leaves of the top-level AND chain.
  function Conjuncts(c: Cond): (r: seq<Cond>)
    ensures r != []
  {
    if c.And? then Conjuncts(c.c1) + Conjuncts(c.c2) else [c]
  }

  // The chain And(And(l[0], l[1]), l[2]) ...
  function FoldAnd(list: seq<Cond>): Cond
    requires list != []
  {
    if |list| == 1 then list[0] else And(FoldAnd(list[..|list| - 1]), list[|list| - 1])
  }

  function Bucket(list: seq<Cond>, side: Side, t1: TableScope, t2: TableScope): seq<Cond> {
    if list == [] then []
    else Bucket(list[..|list| - 1], side, t1, t2)
         + (if ClassifyLeaf(list[|list| - 1], t1, t2) == side then [list[|list| - 1]] else [])
  }

  function Wrap(s: Sra, conds: seq<Cond>): Sra {
    if conds == [] then s else Select(s, FoldAnd(conds))
  }

  // Select over a natural join of two base tables that exist: the shape that is rewritten.
  predicate Pushable(schema: seq<SchemaItem>, s: Sra) {
    && s.Project? && s.sra.Select? && s.sra.sra.NaturalJoin?
    && s.sra.sra.sra1.Table? && s.sra.sra.sra2.Table?
    && FindTable(schema, s.sra.sra.sra1.name).Some?
    && FindTable(schema, s.sra.sra.sra2.name).Some?
  }

  function TableScopeOf(schema: seq<SchemaItem>, s: Sra): TableScope
    requires s.Table? && FindTable(schema, s.name).Some?
  {
    TableScope(s.name, s.alias, FindTable(schema, s.name).value.columns)
  }

  function Pushed(s: Sra, list: seq<Cond>, t1: TableScope, t2: TableScope): Sra
    requires s.Project? && s.sra.Select? && s.sra.sra.NaturalJoin?
  {
    var join := s.sra.sra;
    var side1, side2, top := Bucket(list, Left, t1, t2), Bucket(list, Right, t1, t2), Bucket(list, Top, t1, t2);
    if side1 == [] && side2 == [] then s
    else Project(Wrap(NaturalJoin(Wrap(join.sra1, side1), Wrap(join.sra2, side2)), top), s.exprs)
  }

  function Optimized(schema: seq<SchemaItem>, s: Sra): Sra {
    if !Pushable(schema, s) then s
    else Pushed(s, Conjuncts(s.sra.cond), TableScopeOf(schema, s.sra.sra.sra1), TableScopeOf(schema, s.sra.sra.sra2))
  }

  // ---- the loops of the source ---------------------------------------------------------

  // The growing array that flatten_conjuncts pushes into.
  class ConditionList {
    var items: seq<Cond>

    constructor ()
      ensures items == []
    {
      items := [];
    }

    method Push(c: Cond)
      modifies this
      ensures items == old(items) + [c]
    {
      items := items + [c];
    }
  }

  method FlattenConjuncts(c: Cond, list: ConditionList)
    modifies list
    ensures list.items == old(list.items) + Conjuncts(c)
  {
    if c.And? {
      FlattenConjuncts(c.c1, list);
      FlattenConjuncts(c.c2, list);
    } else {
      list.Push(c);
    }
  }

  method FoldAll(list: seq<Cond>) returns (result: Cond)
    requires list != []
    ensures result == FoldAnd(list)
  {
    result := list[0];
    assert list[..1] == [list[0]];
    for i := 1 to |list|
      invariant result == FoldAnd(list[..i])
    {
      assert list[..i + 1][..i] == list[..i];
      result := And(result, list[i]);
    }
    assert list[..|list|] == list;
  }

  method WrapSide(s: Sra, conds: seq<Cond>) returns (r: Sra)
    ensures r == Wrap(s, conds)
  {
    if |conds| > 0 {
      var c := FoldAll(conds);
      r := Select(s, c);
    } else {
      r := s;
    }
  }

  method SplitBuckets(list: seq<Cond>, t1: TableScope, t2: TableScope)
    returns (side1: seq<Cond>, side2: seq<Cond>, top: seq<Cond>)
    ensures side1 == Bucket(list, Left, t1, t2)
    ensures side2 == Bucket(list, Right, t1, t2)
    ensures top == Bucket(list, Top, t1, t2)
  {
    side1, side2, top := [], [], [];
    for i := 0 to |list|
      invariant side1 == Bucket(list[..i], Left, t1, t2)
      invariant side2 == Bucket(list[..i], Right, t1, t2)
      invariant top == Bucket(list[..i], Top, t1, t2)
    {
      assert list[..i + 1][..i] == list[..i];
      match ClassifyLeaf(list[i], t1, t2)
      case Left => side1 := side1 + [list[i]];
      case Right => side2 := side2 + [list[i]];
      case Top => top := top + [list[i]];
    }
    assert list[..|list|] == list;
  }

  // chidb_stmt_optimize on a SELECT statement.
  method Optimize(schema: seq<SchemaItem>, s: Sra) returns (r: Sra)
    ensures r == Optimized(schema, s)
  {
    if !s.Project? || !s.sra.Select? || !s.sra.sra.NaturalJoin? {
      return s;
    }
    var join := s.sra.sra;
    if !join.sra1.Table? || !join.sra2.Table? {
      return s;
    }
    if FindTable(schema, join.sra1.name).None? || FindTable(schema, join.sra2.name).None? {
      return s;
    }
    var t1, t2 := TableScopeOf(schema, join.sra1), TableScopeOf(schema, join.sra2);
    var list := new ConditionList();
    FlattenConjuncts(s.sra.cond, list);
    assert list.items == Conjuncts(s.sra.cond);
    var side1, side2, top := SplitBuckets(list.items, t1, t2);
    if |side1| == 0 && |side2| == 0 {
      return s;
    }
    var left := WrapSide(join.sra1, side1);
    var right := WrapSide(join.sra2, side2);
    var newTop := WrapSide(NaturalJoin(left, right), top);
    r := Project(newTop, s.exprs);
  }
}
