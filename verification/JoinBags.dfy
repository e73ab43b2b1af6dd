// The rows of a join as a bag of pairs, and exactly when its paths make it the bag it should be.
module JoinBags {
  import opened Sql
  import opened Values
  import opened Trees
  import opened Machine
  import opened Planner
  import opened CodeRuns
  import opened JoinRows
  import opened IndexVisits
  import opened AccessPaths
  import opened JoinOrder

  // ---- pairs ---------------------------------------------------------------------------------------

  // Two rows that join and satisfy the conjuncts on top.
  ghost predicate Meets(p: Plan, e1: Entry, e2: Entry)
    requires ValidJoin(p)
  {
    PairsAgree(p.s1.columns, p.s2.columns, e1, e2, p.pairs) && AllPass(p.s1.columns, p.s2.columns, e1, e2, p.top)
  }

  ghost function PairsOfLeft(p: Plan, e1: Entry, es2: seq<Entry>): (r: seq<(Entry, Entry)>)
    requires ValidJoin(p)
  {
    if es2 == [] then [] else (if Meets(p, e1, es2[0]) then [(e1, es2[0])] else []) + PairsOfLeft(p, e1, es2[1..])
  }

  ghost function JoinedPairs(p: Plan, es1: seq<Entry>, es2: seq<Entry>): seq<(Entry, Entry)>
    requires ValidJoin(p)
  {
    if es1 == [] then [] else PairsOfLeft(p, es1[0], es2) + JoinedPairs(p, es1[1..], es2)
  }

  ghost function RowOfPair(p: Plan, q: (Entry, Entry)): Row
    requires ValidJoin(p)
  {
    OutRow(p.s1.columns, p.s2.columns, q.0, q.1, p.out)
  }

  ghost function PairRows(p: Plan, qs: seq<(Entry, Entry)>): (r: seq<Row>)
    requires ValidJoin(p)
    ensures |r| == |qs| && forall i :: 0 <= i < |qs| ==> r[i] == RowOfPair(p, qs[i])
  {
    seq(|qs|, i requires 0 <= i < |qs| => RowOfPair(p, qs[i]))
  }

  lemma PairRowsAppend(p: Plan, a: seq<(Entry, Entry)>, b: seq<(Entry, Entry)>)
    requires ValidJoin(p)
    ensures PairRows(p, a + b) == PairRows(p, a) + PairRows(p, b)
  {
    hide RowOfPair, ValidJoin;
  }

  lemma {:induction false} LeftIsPairs(p: Plan, e1: Entry, es2: seq<Entry>)
    requires ValidJoin(p)
    ensures RowsOfLeft(p, e1, es2) == PairRows(p, PairsOfLeft(p, e1, es2))
  {
    hide ValidJoin, PairsAgree, AllPass;
    if es2 != [] {
      LeftIsPairs(p, e1, es2[1..]);
      var first := if Meets(p, e1, es2[0]) then [(e1, es2[0])] else [];
      PairRowsAppend(p, first, PairsOfLeft(p, e1, es2[1..]));
      assert PairRow(p, e1, es2[0]) == PairRows(p, first);
    }
  }

  lemma {:induction false} NestedIsPairs(p: Plan, es1: seq<Entry>, es2: seq<Entry>)
    requires ValidJoin(p)
    ensures NestedRows(p, es1, es2) == PairRows(p, JoinedPairs(p, es1, es2))
  {
    hide ValidJoin, RowsOfLeft, PairsOfLeft;
    if es1 != [] {
      NestedIsPairs(p, es1[1..], es2);
      LeftIsPairs(p, es1[0], es2);
      PairRowsAppend(p, PairsOfLeft(p, es1[0], es2), JoinedPairs(p, es1[1..], es2));
    }
  }

  // ---- counts ----------------------------------------------------------------------------------------

  lemma {:induction false} LeftCount(p: Plan, e1: Entry, es2: seq<Entry>, a: Entry, b: Entry)
    requires ValidJoin(p)
    ensures multiset(PairsOfLeft(p, e1, es2))[(a, b)] == if a == e1 && Meets(p, a, b) then multiset(es2)[b] else 0
  {
    hide ValidJoin, Meets;
    if es2 != [] {
      LeftCount(p, e1, es2[1..], a, b);
      assert es2 == [es2[0]] + es2[1..];
    }
  }

  // A pair comes up once for each way to pick its two rows.
  lemma {:induction false} PairCount(p: Plan, es1: seq<Entry>, es2: seq<Entry>, a: Entry, b: Entry)
    requires ValidJoin(p)
    ensures multiset(JoinedPairs(p, es1, es2))[(a, b)] == if Meets(p, a, b) then multiset(es1)[a] * multiset(es2)[b] else 0
  {
    hide ValidJoin, Meets, PairsOfLeft;
    if es1 != [] {
      PairCount(p, es1[1..], es2, a, b);
      LeftCount(p, es1[0], es2, a, b);
      assert es1 == [es1[0]] + es1[1..];
      assert multiset(es1)[a] == (if es1[0] == a then 1 else 0) + multiset(es1[1..])[a];
      OneMoreTimes(multiset(es1[1..])[a], multiset(es2)[b]);
    }
  }

  lemma OneMoreTimes(m: nat, n: nat)
    ensures (1 + m) * n == n + m * n
  {
  }

  lemma {:induction false} PairRowsPermuted(p: Plan, a: seq<(Entry, Entry)>, b: seq<(Entry, Entry)>)
    requires ValidJoin(p) && multiset(a) == multiset(b)
    ensures multiset(PairRows(p, a)) == multiset(PairRows(p, b))
  {
    hide ValidJoin, RowOfPair, PairRows;
    if a == [] {
      assert |multiset(b)| == 0;
    } else {
      var k := TakeOut(a, b);
      var pre, post := b[..k], b[k + 1..];
      PairRowsPermuted(p, a[1..], pre + post);
      assert a == [a[0]] + a[1..];
      PairRowsAppend(p, [a[0]], a[1..]);
      PairRowsAppend(p, pre, post);
      PairRowsAppend(p, pre + [a[0]], post);
      PairRowsAppend(p, pre, [a[0]]);
    }
  }

  // ---- rows with their keys ------------------------------------------------------------------------------

  // A column of a side is among the outputs, or a column it is joined with.
  predicate Told(p: Plan, side: nat, i: nat)
    requires p.JoinPlan?
  {
    || RCol(side, i) in p.out
    || exists k :: 0 <= k < |p.pairs| && if side == 0 then p.pairs[k].0 == i && RCol(1, p.pairs[k].1) in p.out
                                         else p.pairs[k].1 == i && RCol(0, p.pairs[k].0) in p.out
  }

  predicate KeyTold(p: Plan, side: nat, columns: seq<Column>)
    requires p.JoinPlan?
  {
    exists i :: 0 <= i < |columns| && columns[i].primaryKey && Told(p, side, i)
  }

  // The keys of both tables are among the output columns.
  predicate ShowsKeys(p: Plan)
    requires p.JoinPlan?
  {
    KeyTold(p, 0, p.s1.columns) && KeyTold(p, 1, p.s2.columns)
  }

  lemma SameOutput(p: Plan, a: (Entry, Entry), b: (Entry, Entry), rc: RCol)
    requires ValidJoin(p) && RowOfPair(p, a) == RowOfPair(p, b) && rc in p.out
    ensures ValidRCol(p.s1.columns, p.s2.columns, rc)
    ensures RColValue(p.s1.columns, p.s2.columns, a.0, a.1, rc) == RColValue(p.s1.columns, p.s2.columns, b.0, b.1, rc)
  {
    hide RColValue;
    var k :| 0 <= k < |p.out| && p.out[k] == rc;
    assert RowOfPair(p, a)[k] == RowOfPair(p, b)[k];
  }

  lemma PairSame(p: Plan, e1: Entry, e2: Entry, k: nat)
    requires ValidJoin(p) && Meets(p, e1, e2) && k < |p.pairs|
    ensures ValidPair(p.s1.columns, p.s2.columns, p.pairs[k])
    ensures ColumnValue(p.s1.columns, e1, p.pairs[k].0) == ColumnValue(p.s2.columns, e2, p.pairs[k].1)
  {
    hide ColumnValue, AllPass;
    assert PairAgrees(p.s1.columns, p.s2.columns, e1, e2, p.pairs[k]);
  }

  lemma SameTold(p: Plan, a: (Entry, Entry), b: (Entry, Entry), side: nat, i: nat)
    requires p.JoinPlan? && ValidJoin(p) && Meets(p, a.0, a.1) && Meets(p, b.0, b.1) && RowOfPair(p, a) == RowOfPair(p, b)
    requires side <= 1 && i < |SideColumns(p.s1.columns, p.s2.columns, side)| && Told(p, side, i)
    ensures var columns := SideColumns(p.s1.columns, p.s2.columns, side);
      ColumnValue(columns, SideEntry(a.0, a.1, side), i) == ColumnValue(columns, SideEntry(b.0, b.1, side), i)
  {
    hide ColumnValue, Meets, RowOfPair, ValidJoin;
    if RCol(side, i) in p.out {
      SameOutput(p, a, b, RCol(side, i));
    } else {
      var k :| 0 <= k < |p.pairs| && if side == 0 then p.pairs[k].0 == i && RCol(1, p.pairs[k].1) in p.out
                                     else p.pairs[k].1 == i && RCol(0, p.pairs[k].0) in p.out;
      PairSame(p, a.0, a.1, k);
      PairSame(p, b.0, b.1, k);
      SameOutput(p, a, b, if side == 0 then RCol(1, p.pairs[k].1) else RCol(0, p.pairs[k].0));
    }
  }

  lemma SameKey(p: Plan, a: (Entry, Entry), b: (Entry, Entry), side: nat)
    requires p.JoinPlan? && ValidJoin(p) && Meets(p, a.0, a.1) && Meets(p, b.0, b.1) && RowOfPair(p, a) == RowOfPair(p, b)
    requires side <= 1 && KeyTold(p, side, SideColumns(p.s1.columns, p.s2.columns, side))
    ensures SideEntry(a.0, a.1, side).key == SideEntry(b.0, b.1, side).key
  {
    hide Meets, RowOfPair, ValidJoin, Told, FieldValue;
    var columns := SideColumns(p.s1.columns, p.s2.columns, side);
    var i :| 0 <= i < |columns| && columns[i].primaryKey && Told(p, side, i);
    SameTold(p, a, b, side, i);
  }

  ghost predicate PairsIn(p: Plan, t1: seq<Entry>, t2: seq<Entry>, qs: seq<(Entry, Entry)>)
    requires ValidJoin(p)
  {
    forall q :: q in qs ==> q.0 in t1 && q.1 in t2 && Meets(p, q.0, q.1)
  }

  lemma {:induction false} PairRowCount(p: Plan, t1: seq<Entry>, t2: seq<Entry>, qs: seq<(Entry, Entry)>, q: (Entry, Entry))
    requires ValidJoin(p) && p.JoinPlan? && ShowsKeys(p) && Ascending(t1) && Ascending(t2)
    requires PairsIn(p, t1, t2, qs) && PairsIn(p, t1, t2, [q])
    ensures multiset(PairRows(p, qs))[RowOfPair(p, q)] == multiset(qs)[q]
  {
    hide ValidJoin, Meets, RowOfPair, KeyTold;
    if qs != [] {
      assert qs == [qs[0]] + qs[1..];
      PairRowCount(p, t1, t2, qs[1..], q);
      PairRowsAppend(p, [qs[0]], qs[1..]);
      assert PairRows(p, [qs[0]]) == [RowOfPair(p, qs[0])];
      assert q in [q] && qs[0] in qs;
      if RowOfPair(p, qs[0]) == RowOfPair(p, q) {
        SameKey(p, qs[0], q, 0);
        SameKey(p, qs[0], q, 1);
      }
    }
  }

  // Rows with their keys are the same bag only if the pairs are.
  lemma PairsDetermined(p: Plan, t1: seq<Entry>, t2: seq<Entry>, a: seq<(Entry, Entry)>, b: seq<(Entry, Entry)>)
    requires ValidJoin(p) && p.JoinPlan? && ShowsKeys(p) && Ascending(t1) && Ascending(t2)
    requires PairsIn(p, t1, t2, a) && PairsIn(p, t1, t2, b) && multiset(PairRows(p, a)) == multiset(PairRows(p, b))
    ensures multiset(a) == multiset(b)
  {
    hide ValidJoin, Meets, RowOfPair, ShowsKeys, PairRows, Ascending;
    forall q: (Entry, Entry) ensures multiset(a)[q] == multiset(b)[q] {
      if q in a || q in b {
        assert PairsIn(p, t1, t2, [q]);
        PairRowCount(p, t1, t2, a, q);
        PairRowCount(p, t1, t2, b, q);
      }
    }
  }

  // ---- the exact condition for a join ---------------------------------------------------------------------

  ghost function TimesReadOf(db: Database, s: Source, side: nat, row: Entry): nat
    requires ReadySource(db, s, side)
  {
    TimesRead(s, side, Rows(db, s.root), Rows(db, IndexRoot(s)), row)
  }

  ghost predicate Wanted(db: Database, s: Source, side: nat, row: Entry)
    requires ReadySource(db, s, side)
  {
    row in Rows(db, s.root) && PassesAll(s.columns, side, row, Consumed(s))
  }

  // Two rows that meet: each is read once if they are a pair of the answer, and one of them is
  // not read if they are not.
  ghost predicate PairRight(p: Plan, db: Database, e1: Entry, e2: Entry)
    requires p.JoinPlan? && ReadySource(db, p.s1, 0) && ReadySource(db, p.s2, 1)
  {
    if Wanted(db, p.s1, 0, e1) && Wanted(db, p.s2, 1, e2)
    then TimesReadOf(db, p.s1, 0, e1) == 1 && TimesReadOf(db, p.s2, 1, e2) == 1
    else TimesReadOf(db, p.s1, 0, e1) == 0 || TimesReadOf(db, p.s2, 1, e2) == 0
  }

  ghost predicate PairsRight(p: Plan, db: Database)
    requires ValidJoin(p) && ReadySource(db, p.s1, 0) && ReadySource(db, p.s2, 1)
  {
    forall e1, e2 :: Meets(p, e1, e2) ==> PairRight(p, db, e1, e2)
  }

  // The rows a side reads, row checks applied.
  ghost function ReadRows(db: Database, s: Source, side: nat): seq<Entry>
    requires ReadySource(db, s, side)
  {
    Passing(s.columns, side, s.filter, Pick(Rows(db, s.root), VisitOf(db, s, side)))
  }

  // And the rows it should read.
  ghost function WantedRows(db: Database, s: Source, side: nat): seq<Entry>
    requires ReadySource(db, s, side)
  {
    PassingRows(db, s, side)
  }

  lemma SideCounts(db: Database, s: Source, side: nat, row: Entry)
    requires ReadySource(db, s, side)
    ensures multiset(ReadRows(db, s, side))[row] == TimesReadOf(db, s, side, row)
    ensures multiset(WantedRows(db, s, side))[row] == if Wanted(db, s, side, row) then 1 else 0
  {
    hide Rows, ValidAccess, PathCovers, Visit, TimesRead, PassesAll, Passing;
    ReadCount(s, side, Rows(db, s.root), Rows(db, IndexRoot(s)), row);
    WantedCount(s, side, Rows(db, s.root), row);
  }

  lemma SideRowsIn(db: Database, s: Source, side: nat)
    requires ReadySource(db, s, side)
    ensures forall e :: e in ReadRows(db, s, side) || e in WantedRows(db, s, side) ==> e in Rows(db, s.root)
  {
    hide Rows, ValidAccess, PathCovers, PassesAll;
  }

  lemma PairRightIff(p: Plan, db: Database, e1: Entry, e2: Entry)
    requires p.JoinPlan? && ValidJoin(p) && ReadySource(db, p.s1, 0) && ReadySource(db, p.s2, 1) && Meets(p, e1, e2)
    ensures PairRight(p, db, e1, e2) <==>
      multiset(JoinedPairs(p, ReadRows(db, p.s1, 0), ReadRows(db, p.s2, 1)))[(e1, e2)]
      == multiset(JoinedPairs(p, WantedRows(db, p.s1, 0), WantedRows(db, p.s2, 1)))[(e1, e2)]
  {
    hide ReadySource, ReadRows, WantedRows, ValidJoin, Meets, JoinedPairs, TimesReadOf, Wanted;
    SideCounts(db, p.s1, 0, e1);
    SideCounts(db, p.s2, 1, e2);
    PairCount(p, ReadRows(db, p.s1, 0), ReadRows(db, p.s2, 1), e1, e2);
    WantedPairCount(p, db, e1, e2);
    ProductIs(TimesReadOf(db, p.s1, 0, e1), TimesReadOf(db, p.s2, 1, e2));
  }

  lemma WantedPairCount(p: Plan, db: Database, e1: Entry, e2: Entry)
    requires p.JoinPlan? && ValidJoin(p) && ReadySource(db, p.s1, 0) && ReadySource(db, p.s2, 1) && Meets(p, e1, e2)
    ensures multiset(JoinedPairs(p, WantedRows(db, p.s1, 0), WantedRows(db, p.s2, 1)))[(e1, e2)]
         == if Wanted(db, p.s1, 0, e1) && Wanted(db, p.s2, 1, e2) then 1 else 0
  {
    hide ReadySource, ReadRows, WantedRows, ValidJoin, Meets, JoinedPairs, TimesReadOf, Wanted;
    SideCounts(db, p.s1, 0, e1);
    SideCounts(db, p.s2, 1, e2);
    PairCount(p, WantedRows(db, p.s1, 0), WantedRows(db, p.s2, 1), e1, e2);
  }

  lemma ProductIs(m: nat, n: nat)
    ensures m * n == 1 <==> m == 1 && n == 1
    ensures m * n == 0 <==> m == 0 || n == 0
  {
    if 0 < m && 0 < n {
      assert m * n >= m && m * n >= n;
    }
  }

  lemma PairsRightIff(p: Plan, db: Database)
    requires p.JoinPlan? && ValidJoin(p) && ReadySource(db, p.s1, 0) && ReadySource(db, p.s2, 1)
    ensures PairsRight(p, db) <==>
      multiset(JoinedPairs(p, ReadRows(db, p.s1, 0), ReadRows(db, p.s2, 1)))
      == multiset(JoinedPairs(p, WantedRows(db, p.s1, 0), WantedRows(db, p.s2, 1)))
  {
    hide ReadySource, ReadRows, WantedRows, ValidJoin, Meets, JoinedPairs, PairRight;
    var a, b := JoinedPairs(p, ReadRows(db, p.s1, 0), ReadRows(db, p.s2, 1)), JoinedPairs(p, WantedRows(db, p.s1, 0), WantedRows(db, p.s2, 1));
    forall e1, e2 ensures Meets(p, e1, e2) ==> (PairRight(p, db, e1, e2) <==> multiset(a)[(e1, e2)] == multiset(b)[(e1, e2)]) {
      if Meets(p, e1, e2) {
        PairRightIff(p, db, e1, e2);
      }
    }
    if PairsRight(p, db) {
      forall q: (Entry, Entry) ensures multiset(a)[q] == multiset(b)[q] {
        assert q == (q.0, q.1);
        PairCount(p, ReadRows(db, p.s1, 0), ReadRows(db, p.s2, 1), q.0, q.1);
        PairCount(p, WantedRows(db, p.s1, 0), WantedRows(db, p.s2, 1), q.0, q.1);
      }
    }
  }

  lemma PairsAreIn(p: Plan, t1: seq<Entry>, t2: seq<Entry>, es1: seq<Entry>, es2: seq<Entry>)
    requires ValidJoin(p) && (forall e :: e in es1 ==> e in t1) && (forall e :: e in es2 ==> e in t2)
    ensures PairsIn(p, t1, t2, JoinedPairs(p, es1, es2))
  {
    hide ValidJoin, Meets, JoinedPairs;
    forall q: (Entry, Entry) | q in JoinedPairs(p, es1, es2) ensures q.0 in t1 && q.1 in t2 && Meets(p, q.0, q.1) {
      assert q == (q.0, q.1);
      PairCount(p, es1, es2, q.0, q.1);
      ProductIs(multiset(es1)[q.0], multiset(es2)[q.1]);
    }
  }

  // The main result about the bag of rows of a join program: it is the nested-loop rows over the
  // rows that pass if all pairs are right, and if the outputs show both keys only then.
  lemma JoinOutputExactly(p: Plan, db: Database)
    requires p.JoinPlan? && ValidQuery(p, db) && ReadySource(db, p.s1, 0) && ReadySource(db, p.s2, 1)
    ensures var want := NestedRows(p, PassingRows(db, p.s1, 0), PassingRows(db, p.s2, 1));
      && (PairsRight(p, db) ==> multiset(JoinOutput(p, db)) == multiset(want))
      && (ShowsKeys(p) && multiset(JoinOutput(p, db)) == multiset(want) ==> PairsRight(p, db))
      && (p.s1.access.Scan? && p.s2.access.Scan? ==> JoinOutput(p, db) == want)
  {
    hide ReadySource, ReadRows, WantedRows, ValidJoin, Meets, JoinedPairs, PairsRight, ShowsKeys, NestedRows, PairRows, ValidSource, Rows,
      Ascending, RightSource;
    var t1, t2 := Rows(db, p.s1.root), Rows(db, p.s2.root);
    var a, b := ReadRows(db, p.s1, 0), ReadRows(db, p.s2, 1);
    var c, d := WantedRows(db, p.s1, 0), WantedRows(db, p.s2, 1);
    WantedIsPassing(p, db);
    OutputIsNested(p, db);
    NestedIsPairs(p, a, b);
    NestedIsPairs(p, c, d);
    PairsRightIff(p, db);
    if PairsRight(p, db) {
      PairRowsPermuted(p, JoinedPairs(p, a, b), JoinedPairs(p, c, d));
    }
    if ShowsKeys(p) && multiset(JoinOutput(p, db)) == multiset(NestedRows(p, c, d)) {
      SideRowsIn(db, p.s1, 0);
      SideRowsIn(db, p.s2, 1);
      PairsAreIn(p, t1, t2, a, b);
      PairsAreIn(p, t1, t2, c, d);
      ReadyAscends(db, p.s1, 0);
      ReadyAscends(db, p.s2, 1);
      PairsDetermined(p, t1, t2, JoinedPairs(p, a, b), JoinedPairs(p, c, d));
    }
    if p.s1.access.Scan? && p.s2.access.Scan? {
      ReadScan(db, p.s1, 0);
      ReadScan(db, p.s2, 1);
    }
  }

  lemma WantedIsPassing(p: Plan, db: Database)
    requires p.JoinPlan? && ReadySource(db, p.s1, 0) && ReadySource(db, p.s2, 1)
    ensures SideCmps(p.s1.columns, 0, Consumed(p.s1)) && SideCmps(p.s2.columns, 1, Consumed(p.s2))
    ensures WantedRows(db, p.s1, 0) == PassingRows(db, p.s1, 0) && WantedRows(db, p.s2, 1) == PassingRows(db, p.s2, 1)
  {
    hide ValidSource, PathCovers, Rows;
  }

  lemma ReadyAscends(db: Database, s: Source, side: nat)
    requires ReadySource(db, s, side)
    ensures Ascending(Rows(db, s.root))
  {
  }

  lemma ReadScan(db: Database, s: Source, side: nat)
    requires ReadySource(db, s, side) && s.access.Scan?
    ensures ReadRows(db, s, side) == WantedRows(db, s, side)
  {
    hide Rows, VisitOf, Passing, PathCovers, RightSource, ValidSource;
    SourceExactly(db, s, side);
  }

  lemma OutputIsNested(p: Plan, db: Database)
    requires p.JoinPlan? && ValidQuery(p, db) && ReadySource(db, p.s1, 0) && ReadySource(db, p.s2, 1)
    ensures JoinOutput(p, db) == NestedRows(p, ReadRows(db, p.s1, 0), ReadRows(db, p.s2, 1))
  {
    hide Rows, VisitOf, NestedRows, Passing, PathCovers, ValidSource;
    RowsOverNested(p, Rows(db, p.s1.root), VisitOf(db, p.s1, 0), Rows(db, p.s2.root), VisitOf(db, p.s2, 1));
  }

  // When each path is right by itself, the pairs are right.
  lemma SidesRight(p: Plan, db: Database)
    requires p.JoinPlan? && ValidJoin(p) && SoundSource(db, p.s1, 0) && SoundSource(db, p.s2, 1)
    ensures PairsRight(p, db)
  {
    hide ReadySource, RightSource, ValidJoin, Meets, TimesReadOf, Wanted;
    forall e1, e2 ensures PairRight(p, db, e1, e2) {
      RightTimes(db, p.s1, 0, e1);
      RightTimes(db, p.s2, 1, e2);
    }
  }

  lemma RightTimes(db: Database, s: Source, side: nat, row: Entry)
    requires SoundSource(db, s, side)
    ensures TimesReadOf(db, s, side, row) == if Wanted(db, s, side, row) then 1 else 0
  {
    hide TimesReadOf, Wanted, PassingRows, RightSource, Rows, VisitOf, PathCovers, ValidSource, Passing;
    SideCounts(db, s, side, row);
    SourceExactly(db, s, side);
  }
}
