// Where the optimizer moves each conjunct, told from the two tables alone, and that it moves all
// that it can.
module Pushing {
  import opened Common
  import opened Sql
  import opened Relational
  import opened Optimizer
  import opened OptimizerProof
  import opened Planner
  import opened Naming
  import opened Acceptance

  // ---- one conjunct --------------------------------------------------------------------------------------

  // A comparison of this column with a literal, on either side.
  predicate ComparesColumn(leaf: Cond, ref: ColumnRef) {
    leaf.Compare? && ((leaf.e1 == Col(ref) && leaf.e2.Lit?) || (leaf.e2 == Col(ref) && leaf.e1.Lit?))
  }

  // A qualified column belongs to the table it names, the left one first; an unqualified one to
  // the table that has it, if the other has not.
  ghost predicate OfLeft(ref: ColumnRef, t1: TableScope, t2: TableScope) {
    if ref.table.Some? then NamesTable(t1, ref.table.value)
    else HasColumnNamed(t1.columns, ref.column) && !HasColumnNamed(t2.columns, ref.column)
  }

  ghost predicate OfRight(ref: ColumnRef, t1: TableScope, t2: TableScope) {
    if ref.table.Some? then NamesTable(t2, ref.table.value) && !NamesTable(t1, ref.table.value)
    else HasColumnNamed(t2.columns, ref.column) && !HasColumnNamed(t1.columns, ref.column)
  }

  ghost predicate Belongs(leaf: Cond, t1: TableScope, t2: TableScope, side: Side) {
    match side
    case Left => exists ref :: ComparesColumn(leaf, ref) && OfLeft(ref, t1, t2)
    case Right => exists ref :: ComparesColumn(leaf, ref) && OfRight(ref, t1, t2)
    case Top => forall ref :: ComparesColumn(leaf, ref) ==> !OfLeft(ref, t1, t2) && !OfRight(ref, t1, t2)
  }

  lemma ColumnSideIs(ref: ColumnRef, t1: TableScope, t2: TableScope)
    ensures ClassifyColumn(ref, t1, t2) == Left <==> OfLeft(ref, t1, t2)
    ensures ClassifyColumn(ref, t1, t2) == Right <==> OfRight(ref, t1, t2)
  {
    hide ColumnIndex, Names, NamesTable, HasColumnNamed;
    ColumnIndexIs(t1.columns, ref.column, 0);
    ColumnIndexIs(t2.columns, ref.column, 0);
    if ref.table.Some? {
      NamesIs(t1, ref.table.value);
      NamesIs(t2, ref.table.value);
    }
  }

  // The classifier sends a conjunct where it belongs, and a conjunct belongs to one place.
  lemma LeafSideIs(leaf: Cond, t1: TableScope, t2: TableScope, side: Side)
    ensures ClassifyLeaf(leaf, t1, t2) == side <==> Belongs(leaf, t1, t2, side)
  {
    hide ClassifyColumn, OfLeft, OfRight;
    if leaf.Compare? && leaf.e1.Col? && leaf.e2.Lit? {
      assert ComparesColumn(leaf, leaf.e1.ref);
      ColumnSideIs(leaf.e1.ref, t1, t2);
    } else if leaf.Compare? && leaf.e2.Col? && leaf.e1.Lit? {
      assert ComparesColumn(leaf, leaf.e2.ref);
      ColumnSideIs(leaf.e2.ref, t1, t2);
    }
  }

  // ---- lists of conjuncts --------------------------------------------------------------------------------

  // The conjuncts that belong to a place, in their order.
  ghost function Those(list: seq<Cond>, t1: TableScope, t2: TableScope, side: Side): (r: seq<Cond>)
    ensures forall c :: c in r <==> c in list && Belongs(c, t1, t2, side)
  {
    if list == [] then []
    else (if Belongs(list[0], t1, t2, side) then [list[0]] else []) + Those(list[1..], t1, t2, side)
  }

  lemma {:induction false} ThoseLast(list: seq<Cond>, last: Cond, t1: TableScope, t2: TableScope, side: Side)
    ensures Those(list + [last], t1, t2, side) == Those(list, t1, t2, side) + if Belongs(last, t1, t2, side) then [last] else []
  {
    hide Belongs;
    if list == [] {
      assert [last][1..] == [] && [] + [last] == [last];
    } else {
      assert (list + [last])[1..] == list[1..] + [last];
      ThoseLast(list[1..], last, t1, t2, side);
    }
  }

  lemma {:induction false} BucketIsThose(list: seq<Cond>, t1: TableScope, t2: TableScope, side: Side)
    ensures Bucket(list, side, t1, t2) == Those(list, t1, t2, side)
  {
    hide Belongs, ClassifyLeaf;
    if list != [] {
      var front, last := list[..|list| - 1], list[|list| - 1];
      BucketIsThose(front, t1, t2, side);
      ThoseLast(front, last, t1, t2, side);
      LeafSideIs(last, t1, t2, side);
      assert list == front + [last];
    }
  }

  // ---- statements ----------------------------------------------------------------------------------------

  // A selection over the natural join of two tables that exist.
  ghost predicate SelectsJoin(schema: seq<SchemaItem>, s: Sra, item1: SchemaItem, item2: SchemaItem) {
    && s.Project? && s.sra.Select? && s.sra.sra.NaturalJoin? && s.sra.sra.sra1.Table? && s.sra.sra.sra2.Table?
    && IsTable(schema, s.sra.sra.sra1.name, item1) && IsTable(schema, s.sra.sra.sra2.name, item2)
  }

  // A selection with these conjuncts, or what is under it when there are none.
  predicate SelectionOf(s: Sra, list: seq<Cond>, under: Sra) {
    if list == [] then s == under else s.Select? && s.sra == under && Conjuncts(s.cond) == list
  }

  // The statement with every conjunct where it belongs: over the left table, over the right
  // table, or over the join.
  ghost predicate AllPushed(s: Sra, o: Sra, t1: TableScope, t2: TableScope)
    requires s.Project? && s.sra.Select? && s.sra.sra.NaturalJoin?
  {
    var all, join := Conjuncts(s.sra.cond), s.sra.sra;
    && o.Project? && o.exprs == s.exprs
    && exists left, right ::
         && SelectionOf(left, Those(all, t1, t2, Left), join.sra1) && SelectionOf(right, Those(all, t1, t2, Right), join.sra2)
         && SelectionOf(o.sra, Those(all, t1, t2, Top), NaturalJoin(left, right))
  }

  lemma WrapSelects(s: Sra, list: seq<Cond>)
    requires Leaves(list)
    ensures SelectionOf(Optimizer.Wrap(s, list), list, s)
  {
    if list != [] {
      ConjunctsFold(list);
    }
  }

  lemma {:induction false} AllAtTop(list: seq<Cond>, t1: TableScope, t2: TableScope)
    requires Those(list, t1, t2, Left) == [] && Those(list, t1, t2, Right) == []
    ensures Those(list, t1, t2, Top) == list
  {
    if list != [] {
      AllAtTop(list[1..], t1, t2);
    }
  }

  // Pushing is complete: the optimizer moves every conjunct to where it belongs, in order.
  lemma PushedCompletely(schema: seq<SchemaItem>, s: Sra, item1: SchemaItem, item2: SchemaItem)
    requires SelectsJoin(schema, s, item1, item2)
    ensures item1.TableItem? && item2.TableItem?
    ensures AllPushed(s, Optimized(schema, s), ScopeOf(s.sra.sra.sra1, item1), ScopeOf(s.sra.sra.sra2, item2))
  {
    hide FindTable, IsTable, Conjuncts, Belongs, Bucket, Those, SelectionOf;
    var join, all := s.sra.sra, Conjuncts(s.sra.cond);
    FindTableIs(schema, join.sra1.name, item1);
    FindTableIs(schema, join.sra2.name, item2);
    var t1, t2 := ScopeOf(join.sra1, item1), ScopeOf(join.sra2, item2);
    BucketIsThose(all, t1, t2, Left);
    BucketIsThose(all, t1, t2, Right);
    BucketIsThose(all, t1, t2, Top);
    ConjunctsAreLeaves(s.sra.cond);
    if Those(all, t1, t2, Left) == [] && Those(all, t1, t2, Right) == [] {
      AllAtTop(all, t1, t2);
      NothingSelected(join.sra1);
      NothingSelected(join.sra2);
      SelectionStays(s.sra.sra, s.sra.cond);
      assert SelectionOf(s.sra, Those(all, t1, t2, Top), NaturalJoin(join.sra1, join.sra2));
    } else {
      PushedWraps(s, t1, t2);
    }
  }

  lemma NothingSelected(s: Sra)
    ensures SelectionOf(s, [], s)
  {
  }

  lemma SelectionStays(s: Sra, c: Cond)
    ensures SelectionOf(Select(s, c), Conjuncts(c), s)
  {
  }

  lemma PushedWraps(s: Sra, t1: TableScope, t2: TableScope)
    requires s.Project? && s.sra.Select? && s.sra.sra.NaturalJoin?
    requires var all := Conjuncts(s.sra.cond); Those(all, t1, t2, Left) != [] || Those(all, t1, t2, Right) != []
    ensures AllPushed(s, Pushed(s, Conjuncts(s.sra.cond), t1, t2), t1, t2)
  {
    hide Conjuncts, Belongs, Bucket, Those, SelectionOf, Optimizer.Wrap;
    var join, all := s.sra.sra, Conjuncts(s.sra.cond);
    BucketIsThose(all, t1, t2, Left);
    BucketIsThose(all, t1, t2, Right);
    BucketIsThose(all, t1, t2, Top);
    ConjunctsAreLeaves(s.sra.cond);
    BucketLeaves(all, Left, t1, t2);
    BucketLeaves(all, Right, t1, t2);
    BucketLeaves(all, Top, t1, t2);
    var left, right := Optimizer.Wrap(join.sra1, Those(all, t1, t2, Left)), Optimizer.Wrap(join.sra2, Those(all, t1, t2, Right));
    WrapSelects(join.sra1, Those(all, t1, t2, Left));
    WrapSelects(join.sra2, Those(all, t1, t2, Right));
    WrapSelects(NaturalJoin(left, right), Those(all, t1, t2, Top));
  }

  // No other statement is changed.
  lemma OnlyJoinsChange(schema: seq<SchemaItem>, s: Sra) returns (item1: SchemaItem, item2: SchemaItem)
    requires Optimized(schema, s) != s
    ensures SelectsJoin(schema, s, item1, item2)
  {
    hide FindTable, IsTable, Pushed;
    item1, item2 := FindTable(schema, s.sra.sra.sra1.name).value, FindTable(schema, s.sra.sra.sra2.name).value;
    FindTableIs(schema, s.sra.sra.sra1.name, item1);
    FindTableIs(schema, s.sra.sra.sra2.name, item2);
  }

  // The leaves of an AND chain.
  predicate InChain(leaf: Cond, c: Cond) {
    if c.And? then InChain(leaf, c.c1) || InChain(leaf, c.c2) else leaf == c
  }

  lemma {:induction false} ChainMembers(leaf: Cond, c: Cond)
    ensures leaf in Conjuncts(c) <==> InChain(leaf, c)
  {
    if c.And? {
      ChainMembers(leaf, c.c1);
      ChainMembers(leaf, c.c2);
    }
  }

  // One conjunct at a time: it ends up over the left table exactly when it belongs there, and
  // likewise over the right table and over the join.
  lemma PushedLeaf(schema: seq<SchemaItem>, s: Sra, item1: SchemaItem, item2: SchemaItem, leaf: Cond) returns (left: Sra, right: Sra)
    requires SelectsJoin(schema, s, item1, item2)
    ensures item1.TableItem? && item2.TableItem?
    ensures var o, t1, t2 := Optimized(schema, s), ScopeOf(s.sra.sra.sra1, item1), ScopeOf(s.sra.sra.sra2, item2);
      && o.Project? && SideTable(o.sra) == NaturalJoin(left, right)
      && SideTable(left) == s.sra.sra.sra1 && SideTable(right) == s.sra.sra.sra2
      && (left.Select? && InChain(leaf, left.cond) <==> InChain(leaf, s.sra.cond) && Belongs(leaf, t1, t2, Left))
      && (right.Select? && InChain(leaf, right.cond) <==> InChain(leaf, s.sra.cond) && Belongs(leaf, t1, t2, Right))
      && (o.sra.Select? && InChain(leaf, o.sra.cond) <==> InChain(leaf, s.sra.cond) && Belongs(leaf, t1, t2, Top))
  {
    hide FindTable, IsTable, Conjuncts, Belongs, Bucket, Optimized;
    PushedCompletely(schema, s, item1, item2);
    var o, t1, t2 := Optimized(schema, s), ScopeOf(s.sra.sra.sra1, item1), ScopeOf(s.sra.sra.sra2, item2);
    var all, join := Conjuncts(s.sra.cond), s.sra.sra;
    left, right :|
      && SelectionOf(left, Those(all, t1, t2, Left), join.sra1) && SelectionOf(right, Those(all, t1, t2, Right), join.sra2)
      && SelectionOf(o.sra, Those(all, t1, t2, Top), NaturalJoin(left, right));
    ChainMembers(leaf, s.sra.cond);
    if left.Select? { ChainMembers(leaf, left.cond); }
    if right.Select? { ChainMembers(leaf, right.cond); }
    if o.sra.Select? { ChainMembers(leaf, o.sra.cond); }
  }
}
