// Sigma-pushing keeps the meaning of every query.
module OptimizerProof {
  import opened Common
  import opened Sql
  import opened Values
  import opened Trees
  import opened Relational
  import opened Optimizer

  predicate AllScoped(scope: Scope, list: seq<Cond>) {
    forall i :: 0 <= i < |list| ==> CondScoped(scope, list[i])
  }

  predicate AllHold(scope: Scope, t: Tuple, list: seq<Cond>)
    requires ValidTuple(scope, t) && AllScoped(scope, list)
  {
    forall i :: 0 <= i < |list| ==> Holds(scope, t, list[i])
  }

  // The tuples on which every condition of a list holds.
  function Keep(scope: Scope, list: seq<Cond>, ts: seq<Tuple>): (r: seq<Tuple>)
    requires ValidTuples(scope, ts) && AllScoped(scope, list)
    ensures ValidTuples(scope, r)
  {
    if ts == [] then []
    else (if AllHold(scope, ts[0], list) then [ts[0]] else []) + Keep(scope, list, ts[1..])
  }

  // ---- chains ------------------------------------------------------------------------

  lemma AllScopedAppend(scope: Scope, a: seq<Cond>, b: seq<Cond>)
    ensures AllScoped(scope, a + b) <==> AllScoped(scope, a) && AllScoped(scope, b)
  {
    if AllScoped(scope, a + b) {
      forall i | 0 <= i < |a| ensures CondScoped(scope, a[i]) { assert (a + b)[i] == a[i]; }
      forall i | 0 <= i < |b| ensures CondScoped(scope, b[i]) { assert (a + b)[|a| + i] == b[i]; }
    }
  }

  lemma AllHoldAppend(scope: Scope, t: Tuple, a: seq<Cond>, b: seq<Cond>)
    requires ValidTuple(scope, t) && AllScoped(scope, a) && AllScoped(scope, b)
    ensures AllScoped(scope, a + b)
    ensures AllHold(scope, t, a + b) <==> AllHold(scope, t, a) && AllHold(scope, t, b)
  {
    AllScopedAppend(scope, a, b);
    if AllHold(scope, t, a + b) {
      forall i | 0 <= i < |a| ensures Holds(scope, t, a[i]) { assert (a + b)[i] == a[i]; }
      forall i | 0 <= i < |b| ensures Holds(scope, t, b[i]) { assert (a + b)[|a| + i] == b[i]; }
    }
  }

  lemma {:induction false} ConjunctsScoped(scope: Scope, c: Cond)
    ensures CondScoped(scope, c) <==> AllScoped(scope, Conjuncts(c))
  {
    if c.And? {
      ConjunctsScoped(scope, c.c1);
      ConjunctsScoped(scope, c.c2);
      AllScopedAppend(scope, Conjuncts(c.c1), Conjuncts(c.c2));
    } else {
      assert Conjuncts(c)[0] == c;
    }
  }

  lemma {:induction false} ConjunctsHold(scope: Scope, t: Tuple, c: Cond)
    requires ValidTuple(scope, t) && CondScoped(scope, c)
    ensures AllScoped(scope, Conjuncts(c))
    ensures Holds(scope, t, c) <==> AllHold(scope, t, Conjuncts(c))
  {
    ConjunctsScoped(scope, c);
    if c.And? {
      ConjunctsHold(scope, t, c.c1);
      ConjunctsHold(scope, t, c.c2);
      AllHoldAppend(scope, t, Conjuncts(c.c1), Conjuncts(c.c2));
    } else {
      assert Conjuncts(c)[0] == c;
    }
  }

  lemma {:induction false} ConjunctsFold(list: seq<Cond>)
    requires list != [] && forall i :: 0 <= i < |list| ==> !list[i].And?
    ensures Conjuncts(FoldAnd(list)) == list
  {
    if |list| != 1 {
      ConjunctsFold(list[..|list| - 1]);
    }
  }

  lemma {:induction false} ConjunctsAreLeaves(c: Cond)
    ensures forall i :: 0 <= i < |Conjuncts(c)| ==> !Conjuncts(c)[i].And?
  {
    if c.And? {
      ConjunctsAreLeaves(c.c1);
      ConjunctsAreLeaves(c.c2);
    }
  }

  // A filter on a chain keeps the tuples on which all its conjuncts hold.
  lemma {:induction false} FilterIsKeep(scope: Scope, c: Cond, ts: seq<Tuple>)
    requires ValidTuples(scope, ts) && CondScoped(scope, c)
    ensures AllScoped(scope, Conjuncts(c))
    ensures Filter(scope, c, ts) == Keep(scope, Conjuncts(c), ts)
  {
    ConjunctsScoped(scope, c);
    if ts != [] {
      ConjunctsHold(scope, ts[0], c);
      FilterIsKeep(scope, c, ts[1..]);
    }
  }

  lemma {:induction false} KeepNone(scope: Scope, ts: seq<Tuple>)
    requires ValidTuples(scope, ts)
    ensures Keep(scope, [], ts) == ts
  {
    if ts != [] {
      KeepNone(scope, ts[1..]);
    }
  }

  // ---- buckets -----------------------------------------------------------------------

  lemma {:induction false} BucketScoped(scope: Scope, list: seq<Cond>, t1: TableScope, t2: TableScope)
    ensures AllScoped(scope, list) <==>
      && AllScoped(scope, Bucket(list, Left, t1, t2))
      && AllScoped(scope, Bucket(list, Right, t1, t2))
      && AllScoped(scope, Bucket(list, Top, t1, t2))
  {
    if list != [] {
      var front, last := list[..|list| - 1], [list[|list| - 1]];
      BucketScoped(scope, front, t1, t2);
      assert list == front + last;
      AllScopedAppend(scope, front, last);
      AllScopedAppend(scope, Bucket(front, ClassifyLeaf(last[0], t1, t2), t1, t2), last);
      assert forall side :: Bucket(front, side, t1, t2) + [] == Bucket(front, side, t1, t2);
    }
  }

  ghost predicate BucketsHold(scope: Scope, t: Tuple, list: seq<Cond>, t1: TableScope, t2: TableScope)
    requires ValidTuple(scope, t) && AllScoped(scope, list)
  {
    BucketScoped(scope, list, t1, t2);
    && AllHold(scope, t, Bucket(list, Left, t1, t2))
    && AllHold(scope, t, Bucket(list, Right, t1, t2))
    && AllHold(scope, t, Bucket(list, Top, t1, t2))
  }

  lemma {:induction false} BucketHold(scope: Scope, t: Tuple, list: seq<Cond>, t1: TableScope, t2: TableScope)
    requires ValidTuple(scope, t) && AllScoped(scope, list)
    ensures AllHold(scope, t, list) <==> BucketsHold(scope, t, list, t1, t2)
  {
    if list != [] {
      var front, last := list[..|list| - 1], [list[|list| - 1]];
      assert list == front + last;
      AllScopedAppend(scope, front, last);
      BucketHold(scope, t, front, t1, t2);
      BucketScoped(scope, front, t1, t2);
      AllHoldAppend(scope, t, front, last);
      AllHoldAppend(scope, t, Bucket(front, ClassifyLeaf(last[0], t1, t2), t1, t2), last);
      assert forall side :: Bucket(front, side, t1, t2) + [] == Bucket(front, side, t1, t2);
    }
  }

  lemma {:induction false} BucketSide(list: seq<Cond>, side: Side, t1: TableScope, t2: TableScope)
    ensures forall i :: 0 <= i < |Bucket(list, side, t1, t2)| ==>
      ClassifyLeaf(Bucket(list, side, t1, t2)[i], t1, t2) == side && Bucket(list, side, t1, t2)[i] in list
  {
    if list != [] {
      BucketSide(list[..|list| - 1], side, t1, t2);
    }
  }

  // ---- a pushed conjunct means the same on its side ------------------------------------

  lemma ResolveLeft(ref: ColumnRef, t1: TableScope, t2: TableScope)
    requires ClassifyColumn(ref, t1, t2) == Left
    ensures Resolve([t1, t2], ref) == Resolve([t1], ref)
    ensures Resolve([t1], ref).Some? ==> Resolve([t1], ref).value.table == 0
  {
    assert [t1, t2][1..] == [t2];
  }

  lemma ResolveRight(ref: ColumnRef, t1: TableScope, t2: TableScope)
    requires ClassifyColumn(ref, t1, t2) == Right
    ensures Resolve([t2], ref).Some? <==> Resolve([t1, t2], ref).Some?
    ensures Resolve([t2], ref).Some? ==>
      && Resolve([t2], ref).value.table == 0
      && Resolve([t1, t2], ref).value == Place(1, Resolve([t2], ref).value.column)
  {
    assert [t1, t2][1..] == [t2];
  }

  // The scope and the part of a joined tuple that belong to a side.
  function SideScope(side: Side, t1: TableScope, t2: TableScope): Scope
    requires side != Top
  {
    if side == Left then [t1] else [t2]
  }

  function SideTuple(side: Side, t: Tuple): Tuple
    requires side != Top && |t| == 2
  {
    if side == Left then t[..1] else t[1..]
  }

  lemma SideLeaf(leaf: Cond, side: Side, t1: TableScope, t2: TableScope)
    requires side != Top && ClassifyLeaf(leaf, t1, t2) == side
    ensures CondScoped([t1, t2], leaf) <==> CondScoped(SideScope(side, t1, t2), leaf)
  {
    var ref := if leaf.e1.Col? && leaf.e2.Lit? then leaf.e1.ref else leaf.e2.ref;
    if side == Left {
      ResolveLeft(ref, t1, t2);
    } else {
      ResolveRight(ref, t1, t2);
    }
  }

  lemma SideLeafHolds(leaf: Cond, side: Side, t1: TableScope, t2: TableScope, t: Tuple)
    requires side != Top && ClassifyLeaf(leaf, t1, t2) == side
    requires ValidTuple([t1, t2], t) && CondScoped([t1, t2], leaf)
    ensures CondScoped(SideScope(side, t1, t2), leaf)
    ensures ValidTuple(SideScope(side, t1, t2), SideTuple(side, t))
    ensures Holds([t1, t2], t, leaf) <==> Holds(SideScope(side, t1, t2), SideTuple(side, t), leaf)
  {
    SideLeaf(leaf, side, t1, t2);
    var ref := if leaf.e1.Col? && leaf.e2.Lit? then leaf.e1.ref else leaf.e2.ref;
    if side == Left {
      ResolveLeft(ref, t1, t2);
    } else {
      ResolveRight(ref, t1, t2);
    }
  }

  ghost predicate OnSide(list: seq<Cond>, side: Side, t1: TableScope, t2: TableScope) {
    side != Top && forall i :: 0 <= i < |list| ==> ClassifyLeaf(list[i], t1, t2) == side
  }

  lemma SideScoped(list: seq<Cond>, side: Side, t1: TableScope, t2: TableScope)
    requires OnSide(list, side, t1, t2)
    ensures AllScoped([t1, t2], list) <==> AllScoped(SideScope(side, t1, t2), list)
  {
    forall i | 0 <= i < |list|
      ensures CondScoped([t1, t2], list[i]) <==> CondScoped(SideScope(side, t1, t2), list[i])
    {
      SideLeaf(list[i], side, t1, t2);
    }
  }

  lemma SideHold(list: seq<Cond>, side: Side, t1: TableScope, t2: TableScope, t: Tuple)
    requires OnSide(list, side, t1, t2) && ValidTuple([t1, t2], t) && AllScoped([t1, t2], list)
    ensures AllScoped(SideScope(side, t1, t2), list)
    ensures ValidTuple(SideScope(side, t1, t2), SideTuple(side, t))
    ensures AllHold([t1, t2], t, list) <==> AllHold(SideScope(side, t1, t2), SideTuple(side, t), list)
  {
    SideScoped(list, side, t1, t2);
    forall i | 0 <= i < |list|
      ensures Holds([t1, t2], t, list[i]) <==> Holds(SideScope(side, t1, t2), SideTuple(side, t), list[i])
    {
      SideLeafHolds(list[i], side, t1, t2, t);
    }
  }

  // ---- filtering before and after a join -----------------------------------------------

  lemma {:induction false} KeepAppend(scope: Scope, list: seq<Cond>, a: seq<Tuple>, b: seq<Tuple>)
    requires ValidTuples(scope, a) && ValidTuples(scope, b) && AllScoped(scope, list)
    ensures Keep(scope, list, a + b) == Keep(scope, list, a) + Keep(scope, list, b)
  {
    if a == [] {
      assert a + b == b;
    } else {
      assert (a + b)[1..] == a[1..] + b;
      KeepAppend(scope, list, a[1..], b);
    }
  }

  // What pushing compares: a left list l1, a right list l2 and a list l that stays.
  datatype Push = Push(t1: TableScope, t2: TableScope, pairs: seq<Pair>, l1: seq<Cond>, l2: seq<Cond>, l: seq<Cond>,
                       all: seq<Cond>)

  ghost predicate ValidPush(p: Push) {
    && ValidPairs([p.t1], [p.t2], p.pairs)
    && OnSide(p.l1, Left, p.t1, p.t2) && OnSide(p.l2, Right, p.t1, p.t2)
    && AllScoped([p.t1], p.l1) && AllScoped([p.t2], p.l2) && AllScoped([p.t1, p.t2], p.l)
    && AllScoped([p.t1, p.t2], p.l1) && AllScoped([p.t1, p.t2], p.l2) && AllScoped([p.t1, p.t2], p.all)
    && forall t :: ValidTuple([p.t1, p.t2], t) ==>
         (AllHold([p.t1, p.t2], t, p.all) <==>
          AllHold([p.t1, p.t2], t, p.l1) && AllHold([p.t1, p.t2], t, p.l2) && AllHold([p.t1, p.t2], t, p.l))
  }

  lemma TupleParts(p: Push, t: Tuple, u: Tuple)
    requires ValidPush(p) && ValidTuple([p.t1], t) && ValidTuple([p.t2], u)
    ensures ValidTuple([p.t1, p.t2], t + u)
    ensures AllHold([p.t1, p.t2], t + u, p.all) <==>
      AllHold([p.t1], t, p.l1) && AllHold([p.t2], u, p.l2) && AllHold([p.t1, p.t2], t + u, p.l)
  {
    var tu := t + u;
    assert tu[..1] == t && tu[1..] == u;
    SideHold(p.l1, Left, p.t1, p.t2, tu);
    SideHold(p.l2, Right, p.t1, p.t2, tu);
  }

  // One left tuple that passes its own conjuncts.
  lemma {:induction false} PushOne(p: Push, t: Tuple, us: seq<Tuple>)
    requires ValidPush(p) && ValidTuple([p.t1], t) && ValidTuples([p.t2], us)
    requires AllHold([p.t1], t, p.l1)
    ensures [p.t1] + [p.t2] == [p.t1, p.t2]
    ensures Keep([p.t1, p.t2], p.l, JoinOne([p.t1], [p.t2], p.pairs, t, Keep([p.t2], p.l2, us)))
         == Keep([p.t1, p.t2], p.all, JoinOne([p.t1], [p.t2], p.pairs, t, us))
  {
    assert [p.t1] + [p.t2] == [p.t1, p.t2];
    if us != [] {
      var u := us[0];
      PushOne(p, t, us[1..]);
      TupleParts(p, t, u);
      var rest := Keep([p.t2], p.l2, us[1..]);
      var head := if Joins([p.t1], [p.t2], p.pairs, t, u) then [t + u] else [];
      KeepAppend([p.t1, p.t2], p.all, head, JoinOne([p.t1], [p.t2], p.pairs, t, us[1..]));
      if AllHold([p.t2], u, p.l2) {
        assert ([u] + rest)[1..] == rest;
        KeepAppend([p.t1, p.t2], p.l, head, JoinOne([p.t1], [p.t2], p.pairs, t, rest));
        assert Keep([p.t1, p.t2], p.all, head) == Keep([p.t1, p.t2], p.l, head);
      } else {
        assert [] + rest == rest;
        assert Keep([p.t1, p.t2], p.all, head) == [];
      }
    }
  }

  // One left tuple that fails its own conjuncts contributes nothing.
  lemma {:induction false} PushFail(p: Push, t: Tuple, us: seq<Tuple>)
    requires ValidPush(p) && ValidTuple([p.t1], t) && ValidTuples([p.t2], us)
    requires !AllHold([p.t1], t, p.l1)
    ensures [p.t1] + [p.t2] == [p.t1, p.t2]
    ensures Keep([p.t1, p.t2], p.all, JoinOne([p.t1], [p.t2], p.pairs, t, us)) == []
  {
    assert [p.t1] + [p.t2] == [p.t1, p.t2];
    if us != [] {
      var u := us[0];
      PushFail(p, t, us[1..]);
      TupleParts(p, t, u);
      var head := if Joins([p.t1], [p.t2], p.pairs, t, u) then [t + u] else [];
      KeepAppend([p.t1, p.t2], p.all, head, JoinOne([p.t1], [p.t2], p.pairs, t, us[1..]));
    }
  }

  lemma {:induction false} PushAll(p: Push, ts: seq<Tuple>, us: seq<Tuple>)
    requires ValidPush(p) && ValidTuples([p.t1], ts) && ValidTuples([p.t2], us)
    ensures [p.t1] + [p.t2] == [p.t1, p.t2]
    ensures Keep([p.t1, p.t2], p.l,
                 JoinAll([p.t1], [p.t2], p.pairs, Keep([p.t1], p.l1, ts), Keep([p.t2], p.l2, us)))
         == Keep([p.t1, p.t2], p.all, JoinAll([p.t1], [p.t2], p.pairs, ts, us))
  {
    assert [p.t1] + [p.t2] == [p.t1, p.t2];
    if ts != [] {
      var t, kept := ts[0], Keep([p.t2], p.l2, us);
      PushAll(p, ts[1..], us);
      var rest := Keep([p.t1], p.l1, ts[1..]);
      KeepAppend([p.t1, p.t2], p.all, JoinOne([p.t1], [p.t2], p.pairs, t, us),
                 JoinAll([p.t1], [p.t2], p.pairs, ts[1..], us));
      if AllHold([p.t1], t, p.l1) {
        PushOne(p, t, us);
        assert ([t] + rest)[1..] == rest;
        KeepAppend([p.t1, p.t2], p.l, JoinOne([p.t1], [p.t2], p.pairs, t, kept),
                   JoinAll([p.t1], [p.t2], p.pairs, rest, kept));
      } else {
        PushFail(p, t, us);
        assert [] + rest == rest;
      }
    }
  }

  // ---- the query ---------------------------------------------------------------------

  ghost predicate Leaves(conds: seq<Cond>) {
    forall i :: 0 <= i < |conds| ==> !conds[i].And?
  }

  function Kept(d: Option<Relation>, conds: seq<Cond>): Option<Relation>
    requires d.Some? ==> ValidRelation(d.value)
  {
    match d
    case None => None
    case Some(r) =>
      if AllScoped(r.scope, conds) then Some(r.(tuples := Keep(r.scope, conds, r.tuples))) else None
  }

  lemma DenoteWrap(schema: seq<SchemaItem>, store: map<nat, Tree>, s: Sra, conds: seq<Cond>)
    requires Leaves(conds)
    ensures Denote(schema, store, Wrap(s, conds)) == Kept(Denote(schema, store, s), conds)
  {
    var d := Denote(schema, store, s);
    if d.Some? {
      var r := d.value;
      if conds == [] {
        KeepNone(r.scope, r.tuples);
      } else {
        ConjunctsFold(conds);
        ConjunctsScoped(r.scope, FoldAnd(conds));
        if AllScoped(r.scope, conds) {
          FilterIsKeep(r.scope, FoldAnd(conds), r.tuples);
        }
      }
    }
  }

  lemma DenoteSelect(schema: seq<SchemaItem>, store: map<nat, Tree>, s: Sra, c: Cond)
    ensures Denote(schema, store, Select(s, c)) == Kept(Denote(schema, store, s), Conjuncts(c))
  {
    var d := Denote(schema, store, s);
    if d.Some? {
      ConjunctsScoped(d.value.scope, c);
      if CondScoped(d.value.scope, c) {
        FilterIsKeep(d.value.scope, c, d.value.tuples);
      }
    }
  }

  function JoinRelation(a: Relation, b: Relation): (r: Relation)
    requires ValidRelation(a) && ValidRelation(b)
    ensures ValidRelation(r)
  {
    var pairs := JoinPairs(a.scope, 0, b.scope);
    Relation(a.scope + b.scope, a.visible + Uncoalesced(pairs, b.visible, a.scope, b.scope),
             JoinAll(a.scope, b.scope, pairs, a.tuples, b.tuples))
  }

  // Filtering the sides and then the join is filtering the join.
  lemma PushRelations(a: Relation, b: Relation, t1: TableScope, t2: TableScope, all: seq<Cond>)
    requires ValidRelation(a) && ValidRelation(b) && a.scope == [t1] && b.scope == [t2]
    ensures var j := JoinRelation(a, b);
      var ka, kb := Kept(Some(a), Bucket(all, Left, t1, t2)), Kept(Some(b), Bucket(all, Right, t1, t2));
      Kept(Some(j), all)
      == if ka.Some? && kb.Some? then Kept(Some(JoinRelation(ka.value, kb.value)), Bucket(all, Top, t1, t2)) else None
  {
    var l1, l2, l := Bucket(all, Left, t1, t2), Bucket(all, Right, t1, t2), Bucket(all, Top, t1, t2);
    var scope := [t1, t2];
    assert [t1] + [t2] == scope;
    BucketScoped(scope, all, t1, t2);
    BucketSide(all, Left, t1, t2);
    BucketSide(all, Right, t1, t2);
    SideScoped(l1, Left, t1, t2);
    SideScoped(l2, Right, t1, t2);
    if AllScoped(scope, all) {
      var p := Push(t1, t2, JoinPairs([t1], 0, [t2]), l1, l2, l, all);
      forall t | ValidTuple(scope, t)
        ensures AllHold(scope, t, all) <==> AllHold(scope, t, l1) && AllHold(scope, t, l2) && AllHold(scope, t, l)
      {
        BucketHold(scope, t, all, t1, t2);
      }
      PushAll(p, a.tuples, b.tuples);
    }
  }

  lemma BucketLeaves(all: seq<Cond>, side: Side, t1: TableScope, t2: TableScope)
    requires Leaves(all)
    ensures Leaves(Bucket(all, side, t1, t2))
  {
    BucketSide(all, side, t1, t2);
  }

  lemma DenoteTable(schema: seq<SchemaItem>, store: map<nat, Tree>, s: Sra)
    requires s.Table? && FindTable(schema, s.name).Some? && Denote(schema, store, s).Some?
    ensures Denote(schema, store, s).value.scope == [TableScopeOf(schema, s)]
  {
  }

  lemma DenotePushed(schema: seq<SchemaItem>, store: map<nat, Tree>, s: Sra)
    requires Pushable(schema, s)
    ensures var join := s.sra.sra;
      var t1, t2 := TableScopeOf(schema, join.sra1), TableScopeOf(schema, join.sra2);
      var all := Conjuncts(s.sra.cond);
      Denote(schema, store, s.sra)
      == Denote(schema, store, Wrap(NaturalJoin(Wrap(join.sra1, Bucket(all, Left, t1, t2)),
                                                Wrap(join.sra2, Bucket(all, Right, t1, t2))),
                                    Bucket(all, Top, t1, t2)))
  {
    var join := s.sra.sra;
    var t1, t2 := TableScopeOf(schema, join.sra1), TableScopeOf(schema, join.sra2);
    var all := Conjuncts(s.sra.cond);
    var l1, l2, l := Bucket(all, Left, t1, t2), Bucket(all, Right, t1, t2), Bucket(all, Top, t1, t2);
    ConjunctsAreLeaves(s.sra.cond);
    BucketLeaves(all, Left, t1, t2);
    BucketLeaves(all, Right, t1, t2);
    BucketLeaves(all, Top, t1, t2);
    DenoteSelect(schema, store, join, s.sra.cond);
    DenoteWrap(schema, store, join.sra1, l1);
    DenoteWrap(schema, store, join.sra2, l2);
    DenoteWrap(schema, store, NaturalJoin(Wrap(join.sra1, l1), Wrap(join.sra2, l2)), l);
    var a, b := Denote(schema, store, join.sra1), Denote(schema, store, join.sra2);
    if a.Some? && b.Some? {
      DenoteTable(schema, store, join.sra1);
      DenoteTable(schema, store, join.sra2);
      PushRelations(a.value, b.value, t1, t2, all);
    }
  }

  // The main result: over every file, the optimized statement asks for the same rows in
  // the same order, or for nothing exactly when the original does.
  lemma OptimizedMeansSame(schema: seq<SchemaItem>, store: map<nat, Tree>, s: Sra)
    ensures DenoteQuery(schema, store, Optimized(schema, s)) == DenoteQuery(schema, store, s)
  {
    if Pushable(schema, s) {
      DenotePushed(schema, store, s);
    }
  }
}
