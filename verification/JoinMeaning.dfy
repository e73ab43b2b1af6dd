// The compiled join yields the rows its statement denotes.
module JoinMeaning {
  import opened Common
  import opened Sql
  import opened Values
  import opened Comparisons
  import opened Trees
  import opened Machine
  import opened Relational
  import opened OptimizerProof
  import opened Planner
  import opened CodeRuns
  import opened JoinRows
  import opened IndexVisits

  // ---- comparisons ---------------------------------------------------------------------------

  lemma OrderFlips(a: Value, b: Value)
    requires Comparable(a, b)
    ensures Order(a, b) == -Order(b, a)
  {
    if a.Str? && a.s != b.s {
      OneIsFirst(a.s, b.s);
    }
  }

  // The negated jump is taken exactly when the comparison does not hold.
  lemma NegatedJump(op: CompareOp, v: Value, lit: Value)
    ensures CompareHolds(op, v, lit) <==> Comparable(v, lit) && !JumpsOn(Negated(op), Order(v, lit))
  {
    hide Order;
  }

  lemma FlippedCompare(op: CompareOp, v: Value, lit: Value)
    ensures CompareHolds(op, lit, v) <==> CompareHolds(Flip(op), v, lit)
  {
    hide Order;
    if Comparable(v, lit) {
      OrderFlips(v, lit);
    }
  }

  // ---- column references ---------------------------------------------------------------------

  // The resolver of the code generator and the scope agree.
  lemma ResolveJoinIsScope(t1: TableScope, t2: TableScope, ref: ColumnRef)
    ensures ResolveJoin(t1, t2, ref).Some? <==> Resolve([t1, t2], ref).Some?
    ensures ResolveJoin(t1, t2, ref).Some? ==>
      var c := ResolveJoin(t1, t2, ref).value;
      && c.col.side <= 1 && c.col.idx < |SideColumns(t1.columns, t2.columns, c.col.side)|
      && c.dataType == SideColumns(t1.columns, t2.columns, c.col.side)[c.col.idx].dataType
      && Resolve([t1, t2], ref) == Some(Place(c.col.side, c.col.idx))
  {
    assert [t1, t2][1..] == [t2];
    assert [t2][1..] == [];
  }

  // A reference that resolves to a side resolves the same in the scope of that side alone.
  lemma ResolveOnSide(t1: TableScope, t2: TableScope, ref: ColumnRef, side: nat)
    requires ResolveJoin(t1, t2, ref).Some? && ResolveJoin(t1, t2, ref).value.col.side == side <= 1
    ensures Resolve([if side == 0 then t1 else t2], ref) == Some(Place(0, ResolveJoin(t1, t2, ref).value.col.idx))
  {
    assert [t1][1..] == [] && [t2][1..] == [];
  }

  // ---- one conjunct ----------------------------------------------------------------------------

  function TuplePair(t1: TableScope, t2: TableScope, e1: Entry, e2: Entry): (t: Tuple)
    ensures ValidTuple([t1, t2], t)
  {
    [RowOf(t1.columns, e1), RowOf(t2.columns, e2)]
  }

  lemma RowAt(t1: TableScope, t2: TableScope, e1: Entry, e2: Entry, rc: RCol)
    requires ValidRCol(t1.columns, t2.columns, rc)
    ensures TuplePair(t1, t2, e1, e2)[rc.side][rc.idx] == RColValue(t1.columns, t2.columns, e1, e2, rc)
  {
    hide ColumnValue;
  }

  // The reference and literal a resolvable conjunct is made of.
  lemma ResolvedLeaf(t1: TableScope, t2: TableScope, leaf: Cond, cmp: ResolvedCmp) returns (ref: ColumnRef, op: CompareOp)
    requires ResolveComparison(leaf, Joined(t1, t2)) == Some(cmp)
    ensures ResolveJoin(t1, t2, ref).Some? && ResolveJoin(t1, t2, ref).value.col == cmp.col
    ensures LiteralMatches(cmp.lit, ResolveJoin(t1, t2, ref).value.dataType) && cmp.op == Negated(op)
    ensures leaf == Compare(op, Col(ref), Lit(cmp.lit)) || leaf == Compare(Flip(op), Lit(cmp.lit), Col(ref))
  {
    if leaf.e1.Col? {
      ref, op := leaf.e1.ref, leaf.op;
    } else {
      ref, op := leaf.e2.ref, Flip(leaf.op);
    }
  }

  // In the scope of the join.
  lemma LeafHolds(t1: TableScope, t2: TableScope, e1: Entry, e2: Entry, leaf: Cond, cmp: ResolvedCmp)
    requires ResolveComparison(leaf, Joined(t1, t2)) == Some(cmp)
    ensures ValidCmp(t1.columns, t2.columns, cmp) && CondScoped([t1, t2], leaf)
    ensures Holds([t1, t2], TuplePair(t1, t2, e1, e2), leaf) <==> CmpPasses(t1.columns, t2.columns, e1, e2, cmp)
  {
    hide Order, ColumnValue, Resolve, ResolveComparison, ResolveJoin;
    var ref, op := ResolvedLeaf(t1, t2, leaf, cmp);
    ResolveJoinIsScope(t1, t2, ref);
    RowAt(t1, t2, e1, e2, cmp.col);
    var v := RColValue(t1.columns, t2.columns, e1, e2, cmp.col);
    NegatedJump(op, v, LiteralValue(cmp.lit));
    FlippedCompare(Flip(op), v, LiteralValue(cmp.lit));
  }

  // In the scope of one side.
  lemma SideLeafHolds(t1: TableScope, t2: TableScope, side: nat, e: Entry, leaf: Cond, cmp: ResolvedCmp)
    requires ResolveComparison(leaf, Joined(t1, t2)) == Some(cmp) && cmp.col.side == side <= 1
    ensures var t := if side == 0 then t1 else t2;
      && SideCmp(t.columns, side, cmp) && CondScoped([t], leaf)
      && (Holds([t], [RowOf(t.columns, e)], leaf) <==> Passes(t.columns, e, cmp))
  {
    hide Order, ColumnValue, Resolve, ResolveComparison, ResolveJoin;
    var ref, op := ResolvedLeaf(t1, t2, leaf, cmp);
    ResolveJoinIsScope(t1, t2, ref);
    ResolveOnSide(t1, t2, ref, side);
    var t := if side == 0 then t1 else t2;
    var v := ColumnValue(t.columns, e, cmp.col.idx);
    NegatedJump(op, v, LiteralValue(cmp.lit));
    FlippedCompare(Flip(op), v, LiteralValue(cmp.lit));
  }

  // ---- lists of conjuncts ------------------------------------------------------------------------

  lemma TopHolds(t1: TableScope, t2: TableScope, e1: Entry, e2: Entry, list: seq<Cond>, cmps: seq<ResolvedCmp>)
    requires ResolveAll(list, Joined(t1, t2)) == Some(cmps)
    ensures AllScoped([t1, t2], list) && ValidCmps(t1.columns, t2.columns, cmps)
    ensures AllHold([t1, t2], TuplePair(t1, t2, e1, e2), list) <==> AllPass(t1.columns, t2.columns, e1, e2, cmps)
  {
    hide CmpPasses, ResolveComparison, ResolveAll, Holds, CondScoped, LiteralMatches;
    forall i | 0 <= i < |list|
      ensures CondScoped([t1, t2], list[i]) && ValidCmp(t1.columns, t2.columns, cmps[i])
      ensures Holds([t1, t2], TuplePair(t1, t2, e1, e2), list[i]) <==> CmpPasses(t1.columns, t2.columns, e1, e2, cmps[i])
    {
      LeafHolds(t1, t2, e1, e2, list[i], cmps[i]);
    }
    CmpsFromEach(t1, t2, cmps);
  }

  lemma CmpsFromEach(t1: TableScope, t2: TableScope, cmps: seq<ResolvedCmp>)
    requires forall i :: 0 <= i < |cmps| ==> ValidCmp(t1.columns, t2.columns, cmps[i])
    ensures ValidCmps(t1.columns, t2.columns, cmps)
  {
  }

  ghost predicate OnOneSide(cmps: seq<ResolvedCmp>, side: nat) {
    forall i :: 0 <= i < |cmps| ==> cmps[i].col.side == side
  }

  lemma SideHolds(t1: TableScope, t2: TableScope, side: nat, e: Entry, list: seq<Cond>, cmps: seq<ResolvedCmp>)
    requires ResolveAll(list, Joined(t1, t2)) == Some(cmps) && side <= 1 && OnOneSide(cmps, side)
    ensures var t := if side == 0 then t1 else t2;
      && AllScoped([t], list) && SideCmps(t.columns, side, cmps)
      && (AllHold([t], [RowOf(t.columns, e)], list) <==> PassesAll(t.columns, side, e, cmps))
  {
    hide Passes, ResolveComparison, ResolveAll, Holds, CondScoped;
    var t := if side == 0 then t1 else t2;
    forall i | 0 <= i < |list|
      ensures CondScoped([t], list[i]) && SideCmp(t.columns, side, cmps[i])
      ensures Holds([t], [RowOf(t.columns, e)], list[i]) <==> Passes(t.columns, e, cmps[i])
    {
      SideLeafHolds(t1, t2, side, e, list[i], cmps[i]);
    }
  }

  // Filtering a table's rows by a side condition keeps the rows that pass its conjuncts.
  lemma {:induction false} KeepIsPassing(t1: TableScope, t2: TableScope, side: nat, es: seq<Entry>,
                                         list: seq<Cond>, cmps: seq<ResolvedCmp>)
    requires ResolveAll(list, Joined(t1, t2)) == Some(cmps) && side <= 1 && OnOneSide(cmps, side)
    ensures var t := if side == 0 then t1 else t2;
      && AllScoped([t], list) && SideCmps(t.columns, side, cmps)
      && Keep([t], list, RowsOf(t.columns, es)) == RowsOf(t.columns, Passing(t.columns, side, cmps, es))
  {
    hide ResolveAll, AllHold, PassesAll, AllScoped, SideCmps, RowOf;
    var t := if side == 0 then t1 else t2;
    if es == [] {
      SideHolds(t1, t2, side, Entry(0, [], 0), list, cmps);
    } else {
      SideHolds(t1, t2, side, es[0], list, cmps);
      KeepIsPassing(t1, t2, side, es[1..], list, cmps);
      var rows := RowsOf(t.columns, es);
      assert rows[1..] == RowsOf(t.columns, es[1..]);
      var rest := Passing(t.columns, side, cmps, es[1..]);
      assert RowsOf(t.columns, [es[0]] + rest) == [[RowOf(t.columns, es[0])]] + RowsOf(t.columns, rest);
      assert [] + rest == rest && [] + RowsOf(t.columns, rest) == RowsOf(t.columns, rest);
    }
  }
}
