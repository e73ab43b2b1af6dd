// The rows of a join as a nested loop over two lists of rows, and the lists its sources give it.
module JoinOrder {
  import opened Values
  import opened Trees
  import opened Machine
  import opened Planner
  import opened CodeRuns
  import opened JoinRows
  import opened IndexVisits
  import opened AccessPaths

  ghost function PairRow(p: Plan, e1: Entry, e2: Entry): seq<Row>
    requires ValidJoin(p)
  {
    if PairsAgree(p.s1.columns, p.s2.columns, e1, e2, p.pairs) && AllPass(p.s1.columns, p.s2.columns, e1, e2, p.top)
    then [OutRow(p.s1.columns, p.s2.columns, e1, e2, p.out)] else []
  }

  ghost function RowsOfLeft(p: Plan, e1: Entry, es2: seq<Entry>): seq<Row>
    requires ValidJoin(p)
  {
    if es2 == [] then [] else PairRow(p, e1, es2[0]) + RowsOfLeft(p, e1, es2[1..])
  }

  // Nested loops over the rows of the two sides.
  ghost function NestedRows(p: Plan, es1: seq<Entry>, es2: seq<Entry>): seq<Row>
    requires ValidJoin(p)
  {
    if es1 == [] then [] else RowsOfLeft(p, es1[0], es2) + NestedRows(p, es1[1..], es2)
  }

  // ---- the program's rows as nested loops --------------------------------------------------

  lemma {:induction false} RowsForNested(p: Plan, e1: Entry, t2: seq<Entry>, vs: seq<nat>)
    requires ValidJoin(p) && forall k :: 0 <= k < |vs| ==> vs[k] < |t2|
    ensures RowsFor(p, e1, t2, vs) == RowsOfLeft(p, e1, Passing(p.s2.columns, 1, p.s2.filter, Pick(t2, vs)))
  {
    hide OutRow, PairsAgree, AllPass, PassesAll, ValidCmps, ValidPairList, ValidOut;
    if vs != [] {
      RowsForNested(p, e1, t2, vs[1..]);
      var picked := Pick(t2, vs);
      assert picked[1..] == Pick(t2, vs[1..]);
      var rest := Passing(p.s2.columns, 1, p.s2.filter, picked[1..]);
      if PassesAll(p.s2.columns, 1, picked[0], p.s2.filter) {
        assert ([picked[0]] + rest)[1..] == rest;
      } else {
        assert [] + rest == rest;
        assert EmitOne(p, e1, t2[vs[0]]) == [];
      }
    }
  }

  lemma {:induction false} RowsOverNested(p: Plan, t1: seq<Entry>, us: seq<nat>, t2: seq<Entry>, vs: seq<nat>)
    requires ValidJoin(p)
    requires (forall k :: 0 <= k < |us| ==> us[k] < |t1|) && (forall k :: 0 <= k < |vs| ==> vs[k] < |t2|)
    ensures RowsOver(p, t1, us, t2, vs)
         == NestedRows(p, Passing(p.s1.columns, 0, p.s1.filter, Pick(t1, us)),
                       Passing(p.s2.columns, 1, p.s2.filter, Pick(t2, vs)))
  {
    hide RowsOfLeft, RowsFor, PassesAll, ValidCmps, ValidPairList, ValidOut;
    if us != [] {
      RowsOverNested(p, t1, us[1..], t2, vs);
      RowsForNested(p, t1[us[0]], t2, vs);
      var picked := Pick(t1, us);
      assert picked[1..] == Pick(t1, us[1..]);
      var rest := Passing(p.s1.columns, 0, p.s1.filter, picked[1..]);
      if PassesAll(p.s1.columns, 0, picked[0], p.s1.filter) {
        assert ([picked[0]] + rest)[1..] == rest;
      } else {
        assert [] + rest == rest;
      }
    }
  }

  // ---- permutations --------------------------------------------------------------------------

  // A permutation contains its partner's first element somewhere.
  lemma TakeOut<T>(a: seq<T>, b: seq<T>) returns (k: nat)
    requires a != [] && multiset(a) == multiset(b)
    ensures k < |b| && b == b[..k] + [a[0]] + b[k + 1..]
    ensures multiset(a[1..]) == multiset(b[..k] + b[k + 1..])
  {
    assert a[0] in multiset(a);
    k :| 0 <= k < |b| && b[k] == a[0];
    assert a == [a[0]] + a[1..];
    assert b == b[..k] + [a[0]] + b[k + 1..];
    assert multiset(a) == multiset([a[0]]) + multiset(a[1..]);
    assert multiset(b) == multiset(b[..k]) + multiset([a[0]]) + multiset(b[k + 1..]);
    assert multiset(b[..k] + b[k + 1..]) == multiset(b[..k]) + multiset(b[k + 1..]);
    assert multiset(a[1..]) == multiset(a) - multiset([a[0]]);
    assert multiset(b[..k] + b[k + 1..]) == multiset(b) - multiset([a[0]]);
  }

  // ---- the program, as nested loops over the passing rows ---------------------------------------

  // A table with its path and, if the path reads one, an index that has the pairs of its rows.
  ghost predicate ReadySource(db: Database, s: Source, side: nat) {
    && ValidSource(db, s, side) && SideCmps(s.columns, side, s.filter) && SideCmps(s.columns, side, Consumed(s))
    && PathCovers(s, side, Rows(db, s.root), Rows(db, IndexRoot(s))) && Ascending(Rows(db, s.root))
  }

  // The path visits the rows it should.
  ghost predicate RightSource(db: Database, s: Source, side: nat) {
    PathRight(s, side, Rows(db, s.root), Rows(db, IndexRoot(s)))
  }

  ghost predicate SoundSource(db: Database, s: Source, side: nat) {
    ReadySource(db, s, side) && RightSource(db, s, side)
  }

  ghost function PassingRows(db: Database, s: Source, side: nat): seq<Entry>
    requires SideCmps(s.columns, side, Consumed(s))
  {
    Passing(s.columns, side, Consumed(s), Rows(db, s.root))
  }

  // The rows read, row checks applied, are the passing rows, as a bag, if and only if the path
  // is right.
  lemma SourceExactly(db: Database, s: Source, side: nat)
    requires ReadySource(db, s, side)
    ensures RightSource(db, s, side) <==>
      multiset(Passing(s.columns, side, s.filter, Pick(Rows(db, s.root), VisitOf(db, s, side)))) == multiset(PassingRows(db, s, side))
    ensures s.access.Scan? ==> RightSource(db, s, side) && Passing(s.columns, side, s.filter, Pick(Rows(db, s.root), VisitOf(db, s, side)))
                               == PassingRows(db, s, side)
  {
    hide Rows, ValidAccess, PathCovers, PathRight, Visit;
    VisitsExactly(s, side, Rows(db, s.root), Rows(db, IndexRoot(s)));
    if s.access.Scan? {
      ScanIsRight(db, s, side);
    }
  }

  lemma ScanIsRight(db: Database, s: Source, side: nat)
    requires s.access.Scan?
    ensures RightSource(db, s, side)
  {
  }
}
