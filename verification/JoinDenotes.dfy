// Shared columns, output columns, and the rows a join statement denotes.
module JoinDenotes {
  import opened Common
  import opened Sql
  import opened Values
  import opened Trees
  import opened Machine
  import opened Relational
  import opened Optimizer
  import opened OptimizerProof
  import opened Planner
  import opened Layout
  import opened CodeRuns
  import opened JoinRows
  import opened IndexVisits
  import opened JoinOrder
  import opened JoinMeaning

  // ---- shared columns ------------------------------------------------------------------------

  function AsPair(pair: (nat, nat)): Pair {
    Pair(Place(0, pair.0), Place(0, pair.1))
  }

  function AsPairs(pairs: seq<(nat, nat)>): (r: seq<Pair>)
    ensures |r| == |pairs| && forall k :: 0 <= k < |pairs| ==> r[k] == AsPair(pairs[k])
  {
    seq(|pairs|, k requires 0 <= k < |pairs| => AsPair(pairs[k]))
  }

  lemma ResolveOne(t: TableScope, name: string)
    ensures Resolve([t], ColumnRef(None, name)) ==
      match ColumnIndex(t.columns, name) case None => None case Some(i) => Some(Place(0, i))
  {
    assert [t][1..] == [];
  }

  lemma {:induction false} SharedFrom(t1: TableScope, t2: TableScope, i: nat)
    requires i <= |t1.columns|
    ensures ColumnPairs(t1.columns, 0, i, [t2]) == AsPairs(SharedColumns(t1.columns, t2.columns, i))
    decreases |t1.columns| - i
  {
    if i < |t1.columns| {
      SharedFrom(t1, t2, i + 1);
      ResolveOne(t2, t1.columns[i].name);
    }
  }

  // The code generator's column pairs are those of the natural join.
  lemma SharedIsJoinPairs(t1: TableScope, t2: TableScope)
    ensures JoinPairs([t1], 0, [t2]) == AsPairs(SharedColumns(t1.columns, t2.columns, 0))
  {
    SharedFrom(t1, t2, 0);
    assert JoinPairs([t1], 1, [t2]) == [];
  }

  lemma JoinsIsAgree(t1: TableScope, t2: TableScope, e1: Entry, e2: Entry, pairs: seq<(nat, nat)>)
    requires ValidPairList(t1.columns, t2.columns, pairs)
    ensures ValidPairs([t1], [t2], AsPairs(pairs))
    ensures Joins([t1], [t2], AsPairs(pairs), [RowOf(t1.columns, e1)], [RowOf(t2.columns, e2)])
      <==> PairsAgree(t1.columns, t2.columns, e1, e2, pairs)
  {
    hide Order, ColumnValue;
    var ps := AsPairs(pairs);
    forall k | 0 <= k < |pairs|
      ensures ValidPlace([t1], ps[k].left) && ValidPlace([t2], ps[k].right)
      ensures CompareHolds(CompareEq, RowOf(t1.columns, e1)[ps[k].left.column], RowOf(t2.columns, e2)[ps[k].right.column])
        <==> PairAgrees(t1.columns, t2.columns, e1, e2, pairs[k])
    {
      assert ValidPair(t1.columns, t2.columns, pairs[k]);
      var v, w := ColumnValue(t1.columns, e1, pairs[k].0), ColumnValue(t2.columns, e2, pairs[k].1);
      if Comparable(v, w) {
        OrderFlips(v, w);
      }
    }
  }

  // ---- output columns --------------------------------------------------------------------------

  function AsPlace(rc: RCol): Place {
    Place(rc.side, rc.idx)
  }

  function AsPlaces(out: seq<RCol>): (r: seq<Place>)
    ensures |r| == |out| && forall k :: 0 <= k < |out| ==> r[k] == AsPlace(out[k])
  {
    seq(|out|, k requires 0 <= k < |out| => AsPlace(out[k]))
  }

  lemma SharedIsJoinColumn(pairs: seq<(nat, nat)>, j: nat)
    ensures IsShared(pairs, j) <==> IsJoinColumn(AsPairs(pairs), Place(0, j))
  {
    var ps := AsPairs(pairs);
    if IsShared(pairs, j) {
      var k :| 0 <= k < |pairs| && pairs[k].1 == j;
      assert ps[k].right == Place(0, j);
    }
    if IsJoinColumn(ps, Place(0, j)) {
      var k :| 0 <= k < |ps| && ps[k].right == Place(0, j);
      assert pairs[k].1 == j;
    }
  }

  lemma {:induction false} OwnIsUncoalesced(t1: TableScope, t2: TableScope, pairs: seq<(nat, nat)>, i: nat)
    requires i <= |t2.columns|
    ensures ValidPlaces([t2], AllColumns(|t2.columns|)[i..])
    ensures Uncoalesced(AsPairs(pairs), AllColumns(|t2.columns|)[i..], [t1], [t2])
         == AsPlaces(OwnColumns(|t2.columns|, pairs, i))
    decreases |t2.columns| - i
  {
    var all := AllColumns(|t2.columns|);
    assert ValidPlaces([t2], all);
    if i < |t2.columns| {
      OwnIsUncoalesced(t1, t2, pairs, i + 1);
      SharedIsJoinColumn(pairs, i);
      assert all[i..][0] == Place(0, i) && all[i..][1..] == all[i + 1..];
      assert [t1][0..] == [t1];
    }
  }

  // What `*` shows.
  lemma StarIsVisible(t1: TableScope, t2: TableScope, pairs: seq<(nat, nat)>)
    ensures ValidPlaces([t2], AllColumns(|t2.columns|))
    ensures AllColumns(|t1.columns|) + Uncoalesced(AsPairs(pairs), AllColumns(|t2.columns|), [t1], [t2])
         == AsPlaces(StarColumns(t1.columns, t2.columns, pairs))
  {
    OwnIsUncoalesced(t1, t2, pairs, 0);
    assert AllColumns(|t2.columns|)[0..] == AllColumns(|t2.columns|);
  }

  lemma {:induction false} OutputsResolve(t1: TableScope, t2: TableScope, exprs: seq<Expr>, out: seq<RCol>)
    requires ResolveOutputs(exprs, Joined(t1, t2)) == Some(out)
    ensures |out| == |exprs| && ValidOut(t1.columns, t2.columns, out)
    ensures forall k :: 0 <= k < |exprs| ==>
      exprs[k].Col? && Resolve([t1, t2], exprs[k].ref) == Some(AsPlace(out[k]))
  {
    hide ResolveJoin, Resolve;
    if exprs != [] {
      var n := |exprs| - 1;
      var r := Joined(t1, t2);
      var front, last := ResolveOutputs(exprs[..n], r).value, ResolveColumn(r, exprs[n].ref).value;
      assert out == front + [last.col];
      OutputsResolve(t1, t2, exprs[..n], front);
      ResolveJoinIsScope(t1, t2, exprs[n].ref);
      forall k | 0 <= k < |exprs|
        ensures exprs[k].Col? && Resolve([t1, t2], exprs[k].ref) == Some(AsPlace(out[k]))
        ensures ValidRCol(t1.columns, t2.columns, out[k])
      {
        if k < n {
          assert exprs[k] == exprs[..n][k] && out[k] == front[k];
        }
      }
    }
  }

  // The columns a join statement outputs.
  ghost predicate OutputsAre(t1: TableScope, t2: TableScope, visible: seq<Place>, exprs: seq<Expr>, out: seq<RCol>) {
    && ValidOut(t1.columns, t2.columns, out)
    && (if IsStar(exprs) then visible == AsPlaces(out)
        else |out| == |exprs| && forall k :: 0 <= k < |exprs| ==>
               exprs[k].Col? && Resolve([t1, t2], exprs[k].ref) == Some(AsPlace(out[k])))
  }

  lemma OutputIsOutRow(t1: TableScope, t2: TableScope, r: Relation, exprs: seq<Expr>, out: seq<RCol>, e1: Entry, e2: Entry)
    requires r.scope == [t1, t2] && ValidPlaces(r.scope, r.visible) && OutputsAre(t1, t2, r.visible, exprs, out)
    ensures ExprsScoped(r, exprs)
    ensures Output(r, exprs, TuplePair(t1, t2, e1, e2)) == OutRow(t1.columns, t2.columns, e1, e2, out)
  {
    hide Resolve, RColValue;
    var t := TuplePair(t1, t2, e1, e2);
    forall k | 0 <= k < |out|
      ensures At(r.scope, t, AsPlace(out[k])) == RColValue(t1.columns, t2.columns, e1, e2, out[k])
    {
      RowAt(t1, t2, e1, e2, out[k]);
    }
    if !IsStar(exprs) {
      forall k | 0 <= k < |exprs|
        ensures ExprScoped(r.scope, exprs[k]) && Evaluate(r.scope, t, exprs[k]) == At(r.scope, t, AsPlace(out[k]))
      {
      }
    }
  }

  // ---- the rows of the join ------------------------------------------------------------------------

  // A plan and the scopes, conditions and outputs it was made from.
  ghost predicate PlanFits(p: Plan, t1: TableScope, t2: TableScope, r: Relation, exprs: seq<Expr>, top: seq<Cond>) {
    && ValidJoin(p) && p.s1.columns == t1.columns && p.s2.columns == t2.columns
    && ResolveAll(top, Joined(t1, t2)) == Some(p.top)
    && r.scope == [t1, t2] && ValidPlaces(r.scope, r.visible) && OutputsAre(t1, t2, r.visible, exprs, p.out)
  }

  lemma FitsScoped(p: Plan, t1: TableScope, t2: TableScope, r: Relation, exprs: seq<Expr>, top: seq<Cond>)
    requires PlanFits(p, t1, t2, r, exprs, top)
    ensures AllScoped([t1, t2], top) && ExprsScoped(r, exprs) && ValidPairs([t1], [t2], AsPairs(p.pairs))
    ensures [t1] + [t2] == [t1, t2]
  {
    hide ResolveAll, Resolve, ValidCmps;
    var e := Entry(0, [], 0);
    TopHolds(t1, t2, e, e, top, p.top);
    OutputIsOutRow(t1, t2, r, exprs, p.out, e, e);
    JoinsIsAgree(t1, t2, e, e, p.pairs);
  }

  // The rows for one pair of table rows.
  ghost function DenotedPair(p: Plan, t1: TableScope, t2: TableScope, r: Relation, exprs: seq<Expr>, top: seq<Cond>,
                             e1: Entry, e2: Entry): seq<Row>
    requires PlanFits(p, t1, t2, r, exprs, top)
  {
    FitsScoped(p, t1, t2, r, exprs, top);
    var t, u := [RowOf(t1.columns, e1)], [RowOf(t2.columns, e2)];
    if Joins([t1], [t2], AsPairs(p.pairs), t, u) && AllHold([t1, t2], TuplePair(t1, t2, e1, e2), top)
    then [Output(r, exprs, TuplePair(t1, t2, e1, e2))] else []
  }

  lemma PairRowDenotes(p: Plan, t1: TableScope, t2: TableScope, r: Relation, exprs: seq<Expr>, top: seq<Cond>,
                       e1: Entry, e2: Entry)
    requires PlanFits(p, t1, t2, r, exprs, top)
    ensures DenotedPair(p, t1, t2, r, exprs, top, e1, e2) == PairRow(p, e1, e2)
  {
    hide ResolveAll, Resolve, ValidCmps, AllPass, PairsAgree, Joins, AllHold, OutRow, Output;
    FitsScoped(p, t1, t2, r, exprs, top);
    TopHolds(t1, t2, e1, e2, top, p.top);
    JoinsIsAgree(t1, t2, e1, e2, p.pairs);
    OutputIsOutRow(t1, t2, r, exprs, p.out, e1, e2);
  }

  lemma OutputsAppend(r: Relation, exprs: seq<Expr>, a: seq<Tuple>, b: seq<Tuple>)
    requires ValidTuples(r.scope, a) && ValidTuples(r.scope, b) && ValidPlaces(r.scope, r.visible) && ExprsScoped(r, exprs)
    ensures Outputs(r, exprs, a + b) == Outputs(r, exprs, a) + Outputs(r, exprs, b)
    decreases |a|
  {
    hide Output;
    if a == [] {
      assert a + b == b;
    } else {
      assert (a + b)[1..] == a[1..] + b;
      OutputsAppend(r, exprs, a[1..], b);
    }
  }

  // Project, select and join, over one left row.
  ghost function DenotedLeft(p: Plan, t1: TableScope, t2: TableScope, r: Relation, exprs: seq<Expr>, top: seq<Cond>,
                             e1: Entry, es2: seq<Entry>): seq<Row>
    requires PlanFits(p, t1, t2, r, exprs, top)
  {
    FitsScoped(p, t1, t2, r, exprs, top);
    Outputs(r, exprs, Keep([t1, t2], top,
      JoinOne([t1], [t2], AsPairs(p.pairs), [RowOf(t1.columns, e1)], RowsOf(t2.columns, es2))))
  }

  lemma {:induction false} LeftDenotes(p: Plan, t1: TableScope, t2: TableScope, r: Relation, exprs: seq<Expr>,
                                       top: seq<Cond>, e1: Entry, es2: seq<Entry>)
    requires PlanFits(p, t1, t2, r, exprs, top)
    ensures DenotedLeft(p, t1, t2, r, exprs, top, e1, es2) == RowsOfLeft(p, e1, es2)
  {
    hide PlanFits, PairRow, RowOf, Joins, AllHold, Output, AllScoped, ExprsScoped;
    FitsParts(p, t1, t2, r, exprs, top);
    FitsScoped(p, t1, t2, r, exprs, top);
    if es2 != [] {
      LeftDenotes(p, t1, t2, r, exprs, top, e1, es2[1..]);
      PairRowDenotes(p, t1, t2, r, exprs, top, e1, es2[0]);
      LeftStep(p, t1, t2, r, exprs, top, e1, es2);
    }
  }

  lemma FitsParts(p: Plan, t1: TableScope, t2: TableScope, r: Relation, exprs: seq<Expr>, top: seq<Cond>)
    requires PlanFits(p, t1, t2, r, exprs, top)
    ensures ValidJoin(p) && r.scope == [t1, t2] && ValidPlaces(r.scope, r.visible)
  {
  }

  lemma LeftStep(p: Plan, t1: TableScope, t2: TableScope, r: Relation, exprs: seq<Expr>, top: seq<Cond>,
                 e1: Entry, es2: seq<Entry>)
    requires PlanFits(p, t1, t2, r, exprs, top) && es2 != []
    ensures DenotedLeft(p, t1, t2, r, exprs, top, e1, es2)
         == DenotedPair(p, t1, t2, r, exprs, top, e1, es2[0]) + DenotedLeft(p, t1, t2, r, exprs, top, e1, es2[1..])
  {
    hide PlanFits, RowOf, Joins, AllHold, Output, AllScoped, ExprsScoped;
    FitsParts(p, t1, t2, r, exprs, top);
    FitsScoped(p, t1, t2, r, exprs, top);
    var t, us := [RowOf(t1.columns, e1)], RowsOf(t2.columns, es2);
    assert us[1..] == RowsOf(t2.columns, es2[1..]);
    var rest := JoinOne([t1], [t2], AsPairs(p.pairs), t, us[1..]);
    var head := if Joins([t1], [t2], AsPairs(p.pairs), t, us[0]) then [t + us[0]] else [];
    assert t + us[0] == TuplePair(t1, t2, e1, es2[0]);
    KeepAppend([t1, t2], top, head, rest);
    OutputsAppend(r, exprs, Keep([t1, t2], top, head), Keep([t1, t2], top, rest));
    assert head != [] ==> head[1..] == [];
  }

  ghost function DenotedRows(p: Plan, t1: TableScope, t2: TableScope, r: Relation, exprs: seq<Expr>, top: seq<Cond>,
                             es1: seq<Entry>, es2: seq<Entry>): seq<Row>
    requires PlanFits(p, t1, t2, r, exprs, top)
  {
    FitsScoped(p, t1, t2, r, exprs, top);
    Outputs(r, exprs, Keep([t1, t2], top,
      JoinAll([t1], [t2], AsPairs(p.pairs), RowsOf(t1.columns, es1), RowsOf(t2.columns, es2))))
  }

  // Projecting the selected join of two row lists is the nested loop over them.
  lemma {:induction false} NestedDenotes(p: Plan, t1: TableScope, t2: TableScope, r: Relation, exprs: seq<Expr>,
                                         top: seq<Cond>, es1: seq<Entry>, es2: seq<Entry>)
    requires PlanFits(p, t1, t2, r, exprs, top)
    ensures DenotedRows(p, t1, t2, r, exprs, top, es1, es2) == NestedRows(p, es1, es2)
  {
    hide PlanFits, RowOf, Joins, AllHold, Output, AllScoped, ExprsScoped, RowsOfLeft;
    FitsParts(p, t1, t2, r, exprs, top);
    FitsScoped(p, t1, t2, r, exprs, top);
    if es1 != [] {
      NestedDenotes(p, t1, t2, r, exprs, top, es1[1..], es2);
      LeftDenotes(p, t1, t2, r, exprs, top, es1[0], es2);
      var ts, us := RowsOf(t1.columns, es1), RowsOf(t2.columns, es2);
      assert ts[1..] == RowsOf(t1.columns, es1[1..]);
      var a, b := JoinOne([t1], [t2], AsPairs(p.pairs), ts[0], us), JoinAll([t1], [t2], AsPairs(p.pairs), ts[1..], us);
      KeepAppend([t1, t2], top, a, b);
      OutputsAppend(r, exprs, Keep([t1, t2], top, a), Keep([t1, t2], top, b));
    }
  }
}
