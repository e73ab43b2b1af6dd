// Range queries over an index tree that has split: its separators come up twice in a cursor, so
// rows of the range come up twice in the answer. Exactly when the programs are still right.
module SplitIndex {
  import opened Common
  import opened Sql
  import opened Values
  import opened Trees
  import opened TreeContents
  import opened TreeSnapshot
  import opened Machine
  import opened MachineRun
  import opened Relational
  import opened Planner
  import opened Layout
  import opened JoinRows
  import opened JoinStart
  import opened IndexVisits
  import opened IndexKeeping
  import opened IndexRepeats
  import opened IndexSigns
  import opened AccessPaths
  import opened JoinOrder
  import opened JoinBags
  import opened JoinCorrect
  import opened JoinTheorem
  import opened Qualifiers
  import opened TableLayout
  import opened TableRun
  import opened TableTheorem

  // ---- the index as it is stored ------------------------------------------------------------------

  // A well-formed index tree of height h whose entries are the pairs of the rows.
  ghost predicate IndexTree(s: Source, db: Database, h: nat)
    requires !s.access.Scan?
  {
    && IndexThere(s, db) && IndexRoot(s) in db.indexes
    && Wf(db.store[IndexRoot(s)], h) && Ascending(Entries(db.store[IndexRoot(s)])) && IndexEntries(Entries(db.store[IndexRoot(s)]))
    && IndexHolds(s.columns, s.access.cmp.col.idx, Rows(db, s.root), Entries(db.store[IndexRoot(s)]))
  }

  ghost predicate PathHolds(s: Source, db: Database, h: nat) {
    !s.access.Scan? ==> IndexTree(s, db, h)
  }

  // Its snapshot, with all that it repeats, covers the table.
  lemma TreeCovers(s: Source, db: Database, h: nat)
    requires PathHolds(s, db, h) && TypedTable(s.columns, Rows(db, s.root)) && Ascending(Rows(db, s.root))
    ensures PathStored(s, db)
  {
    hide Wf, IndexCovers, IndexHolds, Entries, IndexEntries, Collect, Ascending;
    if !s.access.Scan? {
      var t := Rows(db, s.root);
      forall k | 0 <= k < |t| ensures t[k].key < 0x8000_0000 {
        assert TypedEntry(s.columns, t[k]);
      }
      HoldsForSelect(s.columns, s.access.cmp.col.idx, t, db.store[IndexRoot(s)], h);
    }
  }

  // The entry of a row is a separator of the tree.
  ghost predicate OnSeparator(s: Source, db: Database, row: Entry)
    requires !s.access.Scan? && IndexThere(s, db)
  {
    exists a :: a in Seps(db.store[IndexRoot(s)]) && IsEntryOf(s.columns, s.access.cmp.col.idx, a, row)
  }

  // How often a path reads a row that it should read.
  ghost function Copies(s: Source, db: Database, row: Entry): (n: nat)
    requires IndexThere(s, db)
    ensures 1 <= n
  {
    if s.access.RangeSeek? && OnSeparator(s, db, row) then 2 else 1
  }

  // The signs of the values are right.
  ghost predicate SignsRight(s: Source, db: Database)
    requires IndexThere(s, db)
  {
    s.access.RangeSeek? ==>
      && s.access.cmp.lit.IntLit? && (s.access.upper.Some? ==> s.access.upper.value.lit.IntLit?)
      && RangeIsRight(s, Rows(db, s.root))
  }

  // ---- how often a row is read -------------------------------------------------------------------------

  lemma EntryCopies(s: Source, db: Database, h: nat, row: Entry, a: Entry)
    requires !s.access.Scan? && IndexTree(s, db, h) && s.access.RangeSeek? && row in Rows(db, s.root)
    requires IsEntryOf(s.columns, s.access.cmp.col.idx, a, row)
    ensures multiset(Rows(db, IndexRoot(s)))[a] == Copies(s, db, row)
  {
    hide Wf, Entries, Collect, Seps, ColumnValue, IndexEntries, Ascending;
    var tree, i := db.store[IndexRoot(s)], s.access.cmp.col.idx;
    IndexSnapshot(tree, h);
    assert HasEntry(s.columns, i, Entries(tree), row);
    var d :| 0 <= d < |Entries(tree)| && IsEntryOf(s.columns, i, Entries(tree)[d], row);
    assert Entries(tree)[d] == a && a in Entries(tree);
  }

  lemma RangeTimes(s: Source, side: nat, db: Database, h: nat, row: Entry)
    requires s.access.RangeSeek? && ReadySource(db, s, side) && IndexTree(s, db, h) && SignsRight(s, db)
    ensures TimesReadOf(db, s, side, row) == if Wanted(db, s, side, row) then Copies(s, db, row) else 0
  {
    hide Rows, RangeOver, IndexHolds, TypedTable, ValidAccess, PassesAll, VisitsValue, RangeIsRight, RowIsRight, SideCmps,
      ColumnValue, Copies, Wf, IndexEntries, Ascending, Occurs;
    var t, x := Rows(db, s.root), Rows(db, IndexRoot(s));
    if row in t {
      RowValue(s, side, t, x, row);
      RowIsRead(s, side, t, x, row);
      EntryCopies(s, db, h, row, Entry(Wrap(IndexedValue(s, row)), [], row.key));
    }
  }

  // The entry of a row of the range, and whether the range gets to it.
  lemma RowIsRead(s: Source, side: nat, t: seq<Entry>, x: seq<Entry>, row: Entry)
    requires RangeOver(s, side, t, x) && s.access.RangeSeek? && row in t && s.access.cmp.lit.IntLit? && s.access.cmp.col.idx < |s.columns|
    requires s.access.upper.Some? ==> s.access.upper.value.lit.IntLit?
    requires RangeIsRight(s, t) && -0x8000_0000 <= IndexedValue(s, row) < 0x8000_0000 && SideCmps(s.columns, side, Consumed(s))
    ensures IsEntryOf(s.columns, s.access.cmp.col.idx, Entry(Wrap(IndexedValue(s, row)), [], row.key), row)
    ensures VisitsValue(s, t, IndexedValue(s, row)) <==> PassesAll(s.columns, side, row, Consumed(s))
  {
    hide RangeOver, Linked, PassesAll, VisitsValue, InRange, Occurs, ColumnValue, RangeIsRight, RowIsRight, SideCmps, Visit, ValidAccess;
    var j :| 0 <= j < |t| && t[j] == row;
    RightIsAllRows(s, t);
    var e := VisitedValue(s, side, t, x, j);
    RowRight(s, side, t, x, IndexedValue(s, row));
    assert x[e] == Entry(Wrap(IndexedValue(s, row)), [], row.key);
  }

  lemma SplitTimes(s: Source, side: nat, db: Database, h: nat, row: Entry)
    requires ReadySource(db, s, side) && PathHolds(s, db, h) && SignsRight(s, db)
    ensures IndexThere(s, db) && TimesReadOf(db, s, side, row) == if Wanted(db, s, side, row) then Copies(s, db, row) else 0
  {
    hide Rows, IndexTree, ValidSource, IndexCovers, RangeOver, PassesAll, RangeIsRight, OnSeparator, IndexHolds, Ascending;
    HoldsThere(s, db, h);
    if s.access.RangeSeek? {
      RangeTimes(s, side, db, h, row);
    }
  }

  lemma HoldsThere(s: Source, db: Database, h: nat)
    requires PathHolds(s, db, h)
    ensures IndexThere(s, db)
  {
  }

  // ---- bags -----------------------------------------------------------------------------------------

  lemma LargerBag<T>(a: multiset<T>, b: multiset<T>)
    requires b <= a && a != b
    ensures |b| < |a|
  {
    assert a == b + (a - b);
    assert a - b != multiset{};
  }

  // A row of the answer lies on a separator of the index that the range runs over.
  ghost predicate SplitInAnswer(db: Database, s: Source, side: nat)
    requires ReadySource(db, s, side) && IndexThere(s, db)
  {
    exists row :: Wanted(db, s, side, row) && 1 < Copies(s, db, row)
  }

  lemma SplitReads(db: Database, s: Source, side: nat, h: nat)
    requires ReadySource(db, s, side) && PathHolds(s, db, h) && SignsRight(s, db)
    ensures IndexThere(s, db) && multiset(WantedRows(db, s, side)) <= multiset(ReadRows(db, s, side))
    ensures multiset(WantedRows(db, s, side)) == multiset(ReadRows(db, s, side)) <==> !SplitInAnswer(db, s, side)
  {
    hide ReadySource, PathHolds, SignsRight, WantedRows, ReadRows, Wanted, Copies, TimesReadOf, IndexThere;
    var wanted, read := multiset(WantedRows(db, s, side)), multiset(ReadRows(db, s, side));
    HoldsThere(s, db, h);
    forall row
      ensures wanted[row] == (if Wanted(db, s, side, row) then 1 else 0)
      ensures read[row] == if Wanted(db, s, side, row) then Copies(s, db, row) else 0
    {
      SideCounts(db, s, side, row);
      SplitTimes(s, side, db, h, row);
    }
    if SplitInAnswer(db, s, side) {
      var row :| Wanted(db, s, side, row) && 1 < Copies(s, db, row);
      assert wanted[row] != read[row];
    }
  }

  // ---- one table -------------------------------------------------------------------------------------

  // The program of a statement over one table with such an index runs to Halt; when the signs
  // are right it yields the rows the statement denotes, as a bag, exactly when no row of the
  // answer lies on a separator that the range runs over, and otherwise more rows than there are.
  lemma SplitIndexYields(schema: seq<SchemaItem>, db: Database, s: Sra, p: Plan, h: nat) returns (rows: seq<Row>, end: Machine)
    requires PlanSelect(schema, s) == Some(p) && p.TablePlan? && ReadsTable(schema, s) && TableRunnable(schema, db, s)
    requires PathHolds(p.s, db, h) && IndexThere(p.s, db) && SignsRight(p.s, db)
    ensures Runs(TableCode(p), Initial(db, |p.outIdx|), rows, end) && end.pc == |TableCode(p)|
    ensures ReadySource(db, p.s, 0) && DenoteQuery(schema, db.store, Unqualified(s)).Some?
    ensures var want := DenoteQuery(schema, db.store, Unqualified(s)).value;
      && (multiset(rows) == multiset(want) <==> !SplitInAnswer(db, p.s, 0))
      && (SplitInAnswer(db, p.s, 0) ==> |want| < |rows|)
  {
    hide DenoteQuery, PlanSelect, ReadySource, ValidSource, SideCmps, Runs, TableCode, Initial, Shown, PathHolds, PassingRows,
      PlainExprs, PlainCond, TableOutput, ReadsTable, SignsRight, SplitInAnswer, ReadRows, TableRunnable;
    TreeIsStored(schema, db, s, p, h);
    TableReads(schema, db, s, p);
    SplitReads(db, p.s, 0, h);
    OutputOfRead(p, db);
    rows := TableOutput(p, db);
    end := TableRuns(p, db);
    if SplitInAnswer(db, p.s, 0) {
      LargerBag(multiset(ReadRows(db, p.s, 0)), multiset(WantedRows(db, p.s, 0)));
      assert |multiset(rows)| == |rows|;
    } else {
      ShownPermuted(p.s.columns, p.outIdx, ReadRows(db, p.s, 0), WantedRows(db, p.s, 0));
    }
  }

  lemma OutputOfRead(p: Plan, db: Database)
    requires p.TablePlan? && ValidTableQuery(p, db) && ReadySource(db, p.s, 0)
    ensures TableOutput(p, db) == Shown(p.s.columns, p.outIdx, ReadRows(db, p.s, 0))
  {
    hide Rows, VisitOf, Passing, ValidSource, Shown, PathCovers;
    RowsAtShown(p, Rows(db, p.s.root), VisitOf(db, p.s, 0));
  }

  lemma TreeIsStored(schema: seq<SchemaItem>, db: Database, s: Sra, p: Plan, h: nat)
    requires PlanSelect(schema, s) == Some(p) && p.TablePlan? && ReadsTable(schema, s) && TableRunnable(schema, db, s)
    requires PathHolds(p.s, db, h)
    ensures PathStored(p.s, db)
  {
    hide PathHolds, PathStored, TypedTable, Rows, Stored, ResolveAll, PlanAccess, ResolveOutputs;
    TableRows(schema, db, SideTable(s.sra).name);
    TableTyped(schema, db, SideTable(s.sra).name);
    TreeCovers(p.s, db, h);
  }

  lemma TableTyped(schema: seq<SchemaItem>, db: Database, name: string)
    requires Stored(schema, db) && FindTable(schema, name).Some?
    ensures var t := FindTable(schema, name).value; TypedTable(t.columns, Rows(db, t.root)) && Ascending(Rows(db, t.root))
  {
    hide TypedTable, Rows, Ascending, Stored;
    TableRows(schema, db, name);
  }

  // ---- joins --------------------------------------------------------------------------------------------

  // A pair of the answer has a row on a separator of an index that a range runs over.
  ghost predicate SplitInPairs(p: Plan, db: Database)
    requires p.JoinPlan? && ValidJoin(p) && ReadySource(db, p.s1, 0) && ReadySource(db, p.s2, 1)
    requires IndexThere(p.s1, db) && IndexThere(p.s2, db)
  {
    exists e1, e2 :: SplitPair(p, db, e1, e2)
  }

  ghost predicate SplitPair(p: Plan, db: Database, e1: Entry, e2: Entry)
    requires p.JoinPlan? && ValidJoin(p) && ReadySource(db, p.s1, 0) && ReadySource(db, p.s2, 1)
    requires IndexThere(p.s1, db) && IndexThere(p.s2, db)
  {
    && Meets(p, e1, e2) && Wanted(db, p.s1, 0, e1) && Wanted(db, p.s2, 1, e2)
    && (1 < Copies(p.s1, db, e1) || 1 < Copies(p.s2, db, e2))
  }

  lemma SplitPairsRight(p: Plan, db: Database, h1: nat, h2: nat)
    requires p.JoinPlan? && ValidJoin(p) && ReadySource(db, p.s1, 0) && ReadySource(db, p.s2, 1)
    requires PathHolds(p.s1, db, h1) && PathHolds(p.s2, db, h2) && IndexThere(p.s1, db) && IndexThere(p.s2, db)
    requires SignsRight(p.s1, db) && SignsRight(p.s2, db)
    ensures PairsRight(p, db) <==> !SplitInPairs(p, db)
  {
    hide ReadySource, PathHolds, SignsRight, Wanted, Copies, TimesReadOf, IndexThere, ValidJoin, Meets;
    forall e1, e2 ensures Meets(p, e1, e2) ==> (PairRight(p, db, e1, e2) <==> !SplitPair(p, db, e1, e2)) {
      SplitTimes(p.s1, 0, db, h1, e1);
      SplitTimes(p.s2, 1, db, h2, e2);
    }
    if SplitInPairs(p, db) {
      var e1, e2 :| SplitPair(p, db, e1, e2);
      assert !PairRight(p, db, e1, e2);
    }
  }

  // No pair comes up less often than it should.
  lemma SplitPairs(p: Plan, db: Database, h1: nat, h2: nat)
    requires p.JoinPlan? && ValidJoin(p) && ReadySource(db, p.s1, 0) && ReadySource(db, p.s2, 1)
    requires PathHolds(p.s1, db, h1) && PathHolds(p.s2, db, h2) && IndexThere(p.s1, db) && IndexThere(p.s2, db)
    requires SignsRight(p.s1, db) && SignsRight(p.s2, db)
    ensures multiset(JoinedPairs(p, WantedRows(db, p.s1, 0), WantedRows(db, p.s2, 1)))
      <= multiset(JoinedPairs(p, ReadRows(db, p.s1, 0), ReadRows(db, p.s2, 1)))
  {
    hide ReadySource, PathHolds, SignsRight, Wanted, Copies, TimesReadOf, IndexThere, ValidJoin, Meets, JoinedPairs, WantedRows, ReadRows;
    var wanted, read := multiset(JoinedPairs(p, WantedRows(db, p.s1, 0), WantedRows(db, p.s2, 1))),
                        multiset(JoinedPairs(p, ReadRows(db, p.s1, 0), ReadRows(db, p.s2, 1)));
    forall q: (Entry, Entry) ensures wanted[q] <= read[q] {
      assert q == (q.0, q.1);
      PairCount(p, ReadRows(db, p.s1, 0), ReadRows(db, p.s2, 1), q.0, q.1);
      if Meets(p, q.0, q.1) {
        WantedPairCount(p, db, q.0, q.1);
        SideCounts(db, p.s1, 0, q.0);
        SideCounts(db, p.s2, 1, q.1);
        SplitTimes(p.s1, 0, db, h1, q.0);
        SplitTimes(p.s2, 1, db, h2, q.1);
        ProductIs(multiset(ReadRows(db, p.s1, 0))[q.0], multiset(ReadRows(db, p.s2, 1))[q.1]);
      } else {
        PairCount(p, WantedRows(db, p.s1, 0), WantedRows(db, p.s2, 1), q.0, q.1);
      }
    }
  }

  // The same for a join: when the signs are right its program yields the rows the statement
  // denotes, as a bag, exactly when no pair of the answer has a row on a separator that a range
  // runs over, and otherwise more rows than there are.
  lemma SplitJoinYields(schema: seq<SchemaItem>, db: Database, s: Sra, p: Plan, h1: nat, h2: nat) returns (rows: seq<Row>, end: Machine)
    requires PlanSelect(schema, s) == Some(p) && p.JoinPlan? && JoinsTables(schema, s) && Runnable(schema, db, s)
    requires PathHolds(p.s1, db, h1) && PathHolds(p.s2, db, h2) && IndexThere(p.s1, db) && IndexThere(p.s2, db)
    requires SignsRight(p.s1, db) && SignsRight(p.s2, db)
    ensures Runs(JoinCode(p), Initial(db, |p.out|), rows, end) && end.pc == |JoinCode(p)|
    ensures ValidJoin(p) && ReadySource(db, p.s1, 0) && ReadySource(db, p.s2, 1) && DenoteQuery(schema, db.store, s).Some?
    ensures var want := DenoteQuery(schema, db.store, s).value;
      && (multiset(rows) == multiset(want) <==> !SplitInPairs(p, db))
      && (SplitInPairs(p, db) ==> |want| < |rows|)
  {
    hide DenoteQuery, PlanSelect, JoinsTables, NestedRows, ReadySource, ValidSource, ValidJoin, Runs, JoinCode, JoinOutput, Runnable,
      PassingRows, Initial, PathsStored, PairsRight, PathHolds, IndexThere, SignsRight, SplitInPairs;
    TreesAreStored(schema, db, s, p, h1, h2);
    JoinReads(schema, db, s, p);
    SplitPairsRight(p, db, h1, h2);
    JoinOutputExactly(p, db);
    rows := JoinOutput(p, db);
    end := JoinRuns(p, db);
    if SplitInPairs(p, db) {
      MoreRows(p, db, h1, h2);
      assert |multiset(rows)| == |rows| && |multiset(DenoteQuery(schema, db.store, s).value)| == |DenoteQuery(schema, db.store, s).value|;
    }
  }

  lemma MoreRows(p: Plan, db: Database, h1: nat, h2: nat)
    requires p.JoinPlan? && ValidQuery(p, db) && ReadySource(db, p.s1, 0) && ReadySource(db, p.s2, 1)
    requires PathHolds(p.s1, db, h1) && PathHolds(p.s2, db, h2) && IndexThere(p.s1, db) && IndexThere(p.s2, db)
    requires SignsRight(p.s1, db) && SignsRight(p.s2, db) && !PairsRight(p, db)
    ensures |NestedRows(p, PassingRows(db, p.s1, 0), PassingRows(db, p.s2, 1))| < |JoinOutput(p, db)|
  {
    hide NestedRows, ReadySource, ValidSource, ValidJoin, JoinOutput, PassingRows, PairsRight, PathHolds, IndexThere, SignsRight,
      WantedRows, ReadRows, JoinedPairs;
    var wanted, read := JoinedPairs(p, WantedRows(db, p.s1, 0), WantedRows(db, p.s2, 1)), JoinedPairs(p, ReadRows(db, p.s1, 0), ReadRows(db, p.s2, 1));
    WantedIsPassing(p, db);
    OutputIsNested(p, db);
    NestedIsPairs(p, WantedRows(db, p.s1, 0), WantedRows(db, p.s2, 1));
    NestedIsPairs(p, ReadRows(db, p.s1, 0), ReadRows(db, p.s2, 1));
    SplitPairs(p, db, h1, h2);
    PairsRightIff(p, db);
    LargerBag(multiset(read), multiset(wanted));
  }

  lemma TreesAreStored(schema: seq<SchemaItem>, db: Database, s: Sra, p: Plan, h1: nat, h2: nat)
    requires PlanSelect(schema, s) == Some(p) && p.JoinPlan? && JoinsTables(schema, s) && Runnable(schema, db, s)
    requires PathHolds(p.s1, db, h1) && PathHolds(p.s2, db, h2)
    ensures PathsStored(p, db)
  {
    hide PathHolds, PathStored, TypedTable, Rows, Stored, ResolveAll, PlanAccess, ResolveOutputs, SharedColumns, StarColumns, Ascending;
    var c := JoinPlanned(schema, s);
    var j := SideTable(s.sra);
    TableTyped(schema, db, SideTable(j.sra1).name);
    TableTyped(schema, db, SideTable(j.sra2).name);
    TreeCovers(p.s1, db, h1);
    TreeCovers(p.s2, db, h2);
  }
}
