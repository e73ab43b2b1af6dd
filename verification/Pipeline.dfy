// Optimizer, code generator and machine together.
module Pipeline {
  import opened Common
  import opened Sql
  import opened Values
  import opened Trees
  import opened Machine
  import opened MachineRun
  import opened Relational
  import opened Optimizer
  import opened OptimizerProof
  import opened Planner
  import opened Layout
  import opened CodeRuns
  import opened JoinRows
  import opened JoinStart
  import opened JoinOrder
  import opened JoinBags
  import opened JoinCorrect
  import opened JoinTheorem

  // ---- classifier and resolver -------------------------------------------------------------------

  function SideNumber(side: Side): nat
    requires side != Top
  {
    if side == Left then 0 else 1
  }

  // When the classifier moves a conjunct to a side and the resolver accepts it, the resolver
  // picks that side.
  lemma ClassifiedSide(leaf: Cond, t1: TableScope, t2: TableScope)
    requires ClassifyLeaf(leaf, t1, t2) != Top
    ensures OwnLeaf(leaf, Joined(t1, t2), SideNumber(ClassifyLeaf(leaf, t1, t2)))
  {
    hide Names;
  }

  lemma {:induction false} BucketMembers(list: seq<Cond>, side: Side, t1: TableScope, t2: TableScope)
    ensures forall c :: c in Bucket(list, side, t1, t2) <==> c in list && ClassifyLeaf(c, t1, t2) == side
  {
    hide ClassifyLeaf;
    if list != [] {
      var n := |list| - 1;
      BucketMembers(list[..n], side, t1, t2);
      assert list == list[..n] + [list[n]];
    }
  }

  ghost predicate AllResolve(list: seq<Cond>, r: Resolver) {
    forall c :: c in list ==> ResolveComparison(c, r).Some?
  }

  lemma ResolveAllIff(list: seq<Cond>, r: Resolver)
    ensures ResolveAll(list, r).Some? <==> AllResolve(list, r)
  {
    hide ResolveComparison;
    if ResolveAll(list, r).Some? {
      forall c | c in list ensures ResolveComparison(c, r).Some? {
        var i :| 0 <= i < |list| && list[i] == c;
      }
    }
  }

  // The conjuncts resolve exactly when those of each bucket do.
  lemma BucketsResolve(list: seq<Cond>, t1: TableScope, t2: TableScope)
    ensures var r := Joined(t1, t2);
      ResolveAll(list, r).Some? <==>
        && ResolveAll(Bucket(list, Left, t1, t2), r).Some? && ResolveAll(Bucket(list, Right, t1, t2), r).Some?
        && ResolveAll(Bucket(list, Top, t1, t2), r).Some?
  {
    hide ResolveAll, ResolveComparison, ClassifyLeaf;
    var r := Joined(t1, t2);
    BucketMembers(list, Left, t1, t2);
    BucketMembers(list, Right, t1, t2);
    BucketMembers(list, Top, t1, t2);
    ResolveAllIff(list, r);
    ResolveAllIff(Bucket(list, Left, t1, t2), r);
    ResolveAllIff(Bucket(list, Right, t1, t2), r);
    ResolveAllIff(Bucket(list, Top, t1, t2), r);
  }

  // ---- acceptance -----------------------------------------------------------------------------------

  lemma {:induction false} WrapConds(s: Sra, list: seq<Cond>)
    requires !s.Select? && Leaves(list)
    ensures CondList(Optimizer.Wrap(s, list)) == list && SideTable(Optimizer.Wrap(s, list)) == s
  {
    if list != [] {
      ConjunctsFold(list);
    }
  }

  // When a join is accepted.
  ghost predicate Acceptable(schema: seq<SchemaItem>, s: Sra)
    requires JoinsTables(schema, s)
  {
    var r, j := JoinResolver(schema, s), SideTable(s.sra);
    && (IsStar(s.exprs) || ResolveOutputs(s.exprs, r).Some?)
    && ResolveAll(CondList(j.sra1), r).Some? && ResolveAll(CondList(j.sra2), r).Some?
    && ResolveAll(CondList(s.sra), r).Some?
  }

  lemma AcceptsJoin(schema: seq<SchemaItem>, s: Sra)
    requires JoinsTables(schema, s)
    ensures PlanSelect(schema, s).Some? <==> Acceptable(schema, s)
    ensures PlanSelect(schema, s).Some? ==> PlanSelect(schema, s).value.JoinPlan?
  {
    hide ResolveAll, ResolveOutputs, SharedColumns, StarColumns, MakeSource;
    EmptyResolves(JoinResolver(schema, s));
  }

  // The pieces of an optimized statement.
  lemma OptimizedParts(schema: seq<SchemaItem>, s: Sra)
    requires Pushable(schema, s) && Optimized(schema, s) != s
    ensures var o, join := Optimized(schema, s), s.sra.sra;
      var t1, t2, all := TableScopeOf(schema, join.sra1), TableScopeOf(schema, join.sra2), Conjuncts(s.sra.cond);
      && JoinsTables(schema, s) && JoinsTables(schema, o) && o.exprs == s.exprs
      && JoinResolver(schema, s) == Joined(t1, t2) == JoinResolver(schema, o)
      && CondList(SideTable(s.sra).sra1) == [] && CondList(SideTable(s.sra).sra2) == [] && CondList(s.sra) == all
      && CondList(SideTable(o.sra).sra1) == Bucket(all, Left, t1, t2)
      && CondList(SideTable(o.sra).sra2) == Bucket(all, Right, t1, t2)
      && CondList(o.sra) == Bucket(all, Top, t1, t2)
  {
    hide FindTable, Conjuncts, ClassifyLeaf, Bucket;
    var join := s.sra.sra;
    var t1, t2, all := TableScopeOf(schema, join.sra1), TableScopeOf(schema, join.sra2), Conjuncts(s.sra.cond);
    ConjunctsAreLeaves(s.sra.cond);
    BucketLeaves(all, Left, t1, t2);
    BucketLeaves(all, Right, t1, t2);
    BucketLeaves(all, Top, t1, t2);
    WrapConds(join.sra1, Bucket(all, Left, t1, t2));
    WrapConds(join.sra2, Bucket(all, Right, t1, t2));
    WrapConds(NaturalJoin(Optimizer.Wrap(join.sra1, Bucket(all, Left, t1, t2)), Optimizer.Wrap(join.sra2, Bucket(all, Right, t1, t2))),
              Bucket(all, Top, t1, t2));
  }

  // The code generator accepts the optimized statement exactly when it accepts the original.
  lemma OptimizedAccepted(schema: seq<SchemaItem>, s: Sra)
    ensures PlanSelect(schema, Optimized(schema, s)).Some? <==> PlanSelect(schema, s).Some?
  {
    hide PlanSelect, Bucket, Conjuncts, ResolveAll, FindTable, CondList, JoinResolver, JoinsTables, Optimized;
    if !Pushable(schema, s) {
      Unchanged(schema, s);
    } else if Optimized(schema, s) != s {
      OptimizedParts(schema, s);
      var join := s.sra.sra;
      BucketsResolve(Conjuncts(s.sra.cond), TableScopeOf(schema, join.sra1), TableScopeOf(schema, join.sra2));
      AcceptsJoin(schema, s);
      AcceptsJoin(schema, Optimized(schema, s));
      EmptyResolves(JoinResolver(schema, s));
    }
  }

  lemma Unchanged(schema: seq<SchemaItem>, s: Sra)
    requires !Pushable(schema, s)
    ensures Optimized(schema, s) == s
  {
  }

  // ---- the whole way ----------------------------------------------------------------------------------

  // A natural join of two tables as the parser builds it: one condition at most, on top.
  predicate PlainJoin(s: Sra) {
    s.Project? && SideTable(s.sra).NaturalJoin? && SideTable(s.sra).sra1.Table? && SideTable(s.sra).sra2.Table?
  }

  lemma BucketInRange(list: seq<Cond>, side: Side, t1: TableScope, t2: TableScope)
    requires ListInRange(list)
    ensures ListInRange(Bucket(list, side, t1, t2))
  {
    hide LeafInRange, ClassifyLeaf;
    BucketMembers(list, side, t1, t2);
  }

  lemma BucketOwn(list: seq<Cond>, side: Side, t1: TableScope, t2: TableScope)
    requires side != Top
    ensures forall c :: c in Bucket(list, side, t1, t2) ==> OwnLeaf(c, Joined(t1, t2), SideNumber(side))
  {
    hide ClassifyLeaf, OwnLeaf;
    BucketMembers(list, side, t1, t2);
    forall c | c in Bucket(list, side, t1, t2) ensures OwnLeaf(c, Joined(t1, t2), SideNumber(side)) {
      ClassifiedSide(c, t1, t2);
    }
  }

  lemma OwnEach(list: seq<Cond>, r: Resolver, side: nat)
    requires forall c :: c in list ==> OwnLeaf(c, r, side)
    ensures forall i :: 0 <= i < |list| ==> OwnLeaf(list[i], r, side)
  {
  }

  // What the optimizer pushes to a side resolves on that side.
  lemma OptimizedOwns(schema: seq<SchemaItem>, s: Sra)
    requires PlainJoin(s) && JoinsTables(schema, s) && JoinsTables(schema, Optimized(schema, s))
    ensures SidesOwn(schema, Optimized(schema, s))
  {
    hide OwnLeaf, Bucket, FindTable, Optimized, Conjuncts;
    var o := Optimized(schema, s);
    if s.sra.Select? && o != s {
      var join := s.sra.sra;
      var t1, t2, all := TableScopeOf(schema, join.sra1), TableScopeOf(schema, join.sra2), Conjuncts(s.sra.cond);
      OptimizedParts(schema, s);
      BucketOwn(all, Left, t1, t2);
      BucketOwn(all, Right, t1, t2);
      OwnEach(CondList(SideTable(o.sra).sra1), JoinResolver(schema, o), 0);
      OwnEach(CondList(SideTable(o.sra).sra2), JoinResolver(schema, o), 1);
    } else if !s.sra.Select? {
      Unchanged(schema, s);
    }
  }

  // What the optimizer makes of a plain join satisfies what the code generator relies on.
  lemma OptimizedRunnable(schema: seq<SchemaItem>, db: Database, s: Sra)
    requires PlainJoin(s) && JoinsTables(schema, s) && JoinsTables(schema, Optimized(schema, s))
    requires Stored(schema, db) && s.exprs != [] && SharedTypesAgree(schema, s) && ListInRange(CondList(s.sra))
    ensures Runnable(schema, db, Optimized(schema, s))
  {
    hide Stored, SidesOwn, ListInRange, Bucket, FindTable, Optimized, SharedColumns, Conjuncts, ValidPairList;
    var o := Optimized(schema, s);
    OptimizedOwns(schema, s);
    EmptyInRange();
    if s.sra.Select? && o != s {
      var join := s.sra.sra;
      var t1, t2, all := TableScopeOf(schema, join.sra1), TableScopeOf(schema, join.sra2), Conjuncts(s.sra.cond);
      OptimizedParts(schema, s);
      BucketInRange(all, Left, t1, t2);
      BucketInRange(all, Right, t1, t2);
    } else if !s.sra.Select? {
      Unchanged(schema, s);
    }
  }

  lemma EmptyInRange()
    ensures ListInRange([])
  {
  }

  // Optimizing, compiling and running a natural join yields the rows that the statement as
  // written denotes if all pairs are right, and if the outputs show both keys only then.
  lemma PipelineYields(schema: seq<SchemaItem>, db: Database, s: Sra, p: Plan) returns (rows: seq<Row>, end: Machine)
    requires PlainJoin(s) && JoinsTables(schema, s) && PlanSelect(schema, Optimized(schema, s)) == Some(p)
    requires Stored(schema, db) && s.exprs != [] && SharedTypesAgree(schema, s) && ListInRange(CondList(s.sra))
    requires p.JoinPlan? && PathsStored(p, db)
    ensures Runs(JoinCode(p), Initial(db, |p.out|), rows, end) && end.pc == |JoinCode(p)|
    ensures DenoteQuery(schema, db.store, s).Some? && ValidJoin(p) && ReadySource(db, p.s1, 0) && ReadySource(db, p.s2, 1)
    ensures var want := DenoteQuery(schema, db.store, s).value;
      && (PairsRight(p, db) ==> multiset(rows) == multiset(want))
      && (ShowsKeys(p) && multiset(rows) == multiset(want) ==> PairsRight(p, db))
      && (p.s1.access.Scan? && p.s2.access.Scan? ==> rows == want)
  {
    hide Stored, JoinsTables, SharedTypesAgree, ListInRange, Optimized, Runs, DenoteQuery, PlanSelect, JoinCode, Runnable, Initial,
      PairsRight, ShowsKeys, ReadySource, ValidJoin, PathsStored;
    var o := Optimized(schema, s);
    var c := JoinPlanned(schema, o);
    OptimizedRunnable(schema, db, s);
    OptimizedMeansSame(schema, db.store, s);
    rows, end := JoinYields(schema, db, o, p);
  }

  // Every such run stops, and in every state it can reach the next instruction is defined and
  // the cursor it reads or advances is open and stands on an entry. Nothing is asked of the
  // indexes but that their entries lead to rows: they may have split, hold values of both signs
  // or lack entries.
  lemma PipelineSafe(schema: seq<SchemaItem>, db: Database, s: Sra, p: Plan)
    requires PlainJoin(s) && JoinsTables(schema, s) && PlanSelect(schema, Optimized(schema, s)) == Some(p)
    requires Stored(schema, db) && s.exprs != [] && SharedTypesAgree(schema, s) && ListInRange(CondList(s.sra))
    requires p.JoinPlan? && IndexesLinked(p, db)
    ensures StopsSafely(JoinCode(p), Initial(db, |p.out|))
  {
    hide Stored, JoinsTables, SharedTypesAgree, ListInRange, Optimized, PlanSelect, JoinCode, StopsSafely, Initial, IndexesLinked, Runnable;
    var o := Optimized(schema, s);
    var c := JoinPlanned(schema, o);
    OptimizedRunnable(schema, db, s);
    JoinIsSafe(schema, db, o, p);
  }
}
