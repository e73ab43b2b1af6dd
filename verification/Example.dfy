// Files and statements that the theorems are about, and inputs on which the programs go wrong: a
// join whose condition is pushed to one side and read through an index, a range over an index
// that has split, a qualifier that names no table, and INSERTs that break an index.
module Example {
  import opened Common
  import opened Sql
  import opened Values
  import opened Trees
  import opened TreeContents
  import opened Machine
  import opened Relational
  import opened Optimizer
  import opened Planner
  import opened JoinRows
  import opened TreeSnapshot
  import opened JoinOrder
  import opened JoinBags
  import opened IndexVisits
  import opened IndexKeeping
  import opened IndexSigns
  import opened JoinCorrect
  import opened JoinTheorem
  import opened Pipeline
  import opened Qualifiers
  import opened TableRun
  import opened TableTheorem
  import opened SplitIndex
  import opened Records
  import opened TreeInsert
  import opened InsertLayout
  import opened InsertRecord
  import opened InsertRun
  import opened InsertKeeping

  const ID := [Column("id", TypeInt, true)]

  const SCHEMA := [TableItem("t", 2, 1, ID), TableItem("u", 3, 2, ID), IndexItem("i", 4, 3, "t", "id")]

  const T_ROWS := [Entry(1, [], 0), Entry(2, [], 0)]
  const U_ROWS := [Entry(2, [], 0)]
  const I_PAIRS := [Entry(1, [], 1), Entry(2, [], 2)]

  const FILE := Database(map[2 := Leaf(2, T_ROWS), 3 := Leaf(3, U_ROWS), 4 := Leaf(4, I_PAIRS)], {4}, 4, 1024)

  const CONDITION := Compare(CompareGt, Col(ColumnRef(Some("t"), "id")), Lit(IntLit(0)))

  // SELECT * FROM t NATURAL JOIN u WHERE t.id > 0
  const STATEMENT := Project(Select(NaturalJoin(Table("t", None), Table("u", None)), CONDITION), [Col(ColumnRef(None, "*"))])

  lemma NamesFound()
    ensures ColumnIndex(ID, "id") == Some(0) && ColumnIndex(ID, "*") == None
    ensures FindTable(SCHEMA, "t") == Some(SCHEMA[0]) && FindTable(SCHEMA, "u") == Some(SCHEMA[1])
    ensures FindIndexOn(SCHEMA, "t", "id") == Some(SCHEMA[2])
  {
    assert !SameName("t", "u") by { assert Fold("t"[0]) != Fold("u"[0]); }
    assert SCHEMA[1..] == [SCHEMA[1], SCHEMA[2]] && SCHEMA[1..][1..] == [SCHEMA[2]];
    assert FindIndexOn([SCHEMA[2]], "t", "id") == Some(SCHEMA[2]);
    assert FindIndexOn(SCHEMA[1..], "t", "id") == FindIndexOn(SCHEMA[1..][1..], "t", "id");
  }

  lemma TablesStored()
    ensures TableStored(SCHEMA[0], FILE) && TableStored(SCHEMA[1], FILE)
  {
  }

  lemma FileIsStored()
    ensures Stored(SCHEMA, FILE)
  {
    hide TableStored;
    TablesStored();
  }

  // The index on t.id holds the pairs of the rows of t.
  lemma PairsHold()
    ensures IndexHolds(ID, 0, T_ROWS, I_PAIRS)
  {
    assert IsEntryOf(ID, 0, I_PAIRS[0], T_ROWS[0]) && IsEntryOf(ID, 0, I_PAIRS[1], T_ROWS[1]);
    assert T_ROWS[0] in T_ROWS && T_ROWS[1] in T_ROWS && I_PAIRS[0] in I_PAIRS && I_PAIRS[1] in I_PAIRS;
    ThisEntry(ID, 0, T_ROWS, I_PAIRS, T_ROWS[0], I_PAIRS[0]);
    ThisEntry(ID, 0, T_ROWS, I_PAIRS, T_ROWS[1], I_PAIRS[1]);
  }

  // What the optimizer makes of the statement.
  const PUSHED := Project(NaturalJoin(Select(Table("t", None), CONDITION), Table("u", None)), [Col(ColumnRef(None, "*"))])

  lemma StatementIsPushed()
    ensures PlainJoin(STATEMENT) && JoinsTables(SCHEMA, STATEMENT) && Optimized(SCHEMA, STATEMENT) == PUSHED
  {
    hide FindTable, ColumnIndex;
    NamesFound();
    var t1, t2, list := TableScope("t", None, ID), TableScope("u", None, ID), [CONDITION];
    assert Conjuncts(CONDITION) == list;
    assert ClassifyLeaf(CONDITION, t1, t2) == Left;
    assert list[..0] == [] && Bucket([], Left, t1, t2) == Bucket([], Right, t1, t2) == Bucket([], Top, t1, t2) == [];
    assert Bucket(list, Left, t1, t2) == list && Bucket(list, Right, t1, t2) == [] && Bucket(list, Top, t1, t2) == [];
  }

  const COMPARED := ResolvedCmp(RCol(0, 0), Op_Le, IntLit(0))

  const PLAN := JoinPlan(Source(2, ID, RangeSeek(4, COMPARED, None), []), Source(3, ID, Scan, []), [(0, 0)], [], [RCol(0, 0)])

  lemma ConditionResolves()
    ensures var r := Joined(TableScope("t", None, ID), TableScope("u", None, ID));
      ResolveConjuncts(Some(CONDITION), r) == Some([COMPARED]) && ResolveConjuncts(None, r) == Some([])
  {
    hide ColumnIndex;
    NamesFound();
    var r, list := Joined(TableScope("t", None, ID), TableScope("u", None, ID)), [CONDITION];
    assert Conjuncts(CONDITION) == list && list[..0] == [];
    assert ResolveComparison(CONDITION, r) == Some(COMPARED);
    assert list[..|list| - 1] == [] && list[|list| - 1] == CONDITION;
    assert ResolveAll([], r) == Some([]);
    assert [] + [COMPARED] == [COMPARED];
    assert ResolveAll(list, r) == Some([COMPARED]);
  }

  lemma ColumnsShared()
    ensures SharedColumns(ID, ID, 0) == [(0, 0)] && StarColumns(ID, ID, [(0, 0)]) == [RCol(0, 0)]
  {
    NamesFound();
    assert SharedColumns(ID, ID, 1) == [];
    assert IsShared([(0, 0)], 0) by { assert [(0, 0)][0].1 == 0; }
    assert OwnColumns(1, [(0, 0)], 1) == [];
  }

  // The plan reads t through the index and scans u.
  lemma PlanIs()
    ensures PlanSelect(SCHEMA, PUSHED) == Some(PLAN)
  {
    hide FindTable, ColumnIndex, ResolveConjuncts, SharedColumns, StarColumns, FindIndexOn;
    NamesFound();
    ConditionResolves();
    ColumnsShared();
  }

  const RANGE := Source(2, ID, RangeSeek(4, COMPARED, None), [])

  // The index as a tree, for a file that stores t at 2 and a tree of its pairs at 4.
  ghost predicate HasPairs(db: Database, h: nat) {
    && 2 in db.store && db.store[2] == Leaf(2, T_ROWS) && 4 in db.store && db.indexes == {4}
    && Wf(db.store[4], h) && Entries(db.store[4]) == I_PAIRS
  }

  lemma RangeHolds(db: Database, h: nat)
    requires HasPairs(db, h)
    ensures PathHolds(RANGE, db, h) && SignsRight(RANGE, db)
  {
    hide IndexHolds, Wf;
    assert Rows(db, 2) == T_ROWS;
    PairsHold();
    TwoSigns(db);
  }

  lemma TwoSigns(db: Database)
    requires Rows(db, 2) == T_ROWS
    ensures RangeIsRight(RANGE, Rows(db, 2))
  {
    forall v | Occurs(RANGE, T_ROWS, v) ensures SameSign(v, 0) {
      var j :| 0 <= j < |T_ROWS| && IndexedValue(RANGE, T_ROWS[j]) == v;
    }
  }

  lemma FileHasPairs()
    ensures HasPairs(FILE, 0) && Seps(FILE.store[4]) == []
  {
  }

  // The theorems about joins apply to it, and its rows are the rows it denotes.
  lemma TheoremApplies()
    ensures PlainJoin(STATEMENT) && JoinsTables(SCHEMA, STATEMENT) && PlanSelect(SCHEMA, Optimized(SCHEMA, STATEMENT)) == Some(PLAN)
    ensures Stored(SCHEMA, FILE) && STATEMENT.exprs != [] && SharedTypesAgree(SCHEMA, STATEMENT)
    ensures ListInRange(CondList(STATEMENT.sra)) && PathsStored(PLAN, FILE) && ShowsKeys(PLAN)
    ensures ValidJoin(PLAN) && ReadySource(FILE, PLAN.s1, 0) && ReadySource(FILE, PLAN.s2, 1) && PairsRight(PLAN, FILE)
  {
    hide FindTable, ColumnIndex, SharedColumns, Stored, PlanSelect, Optimized, PathHolds, SignsRight, PathsStored, ReadySource, ValidJoin,
      ValidSource, SplitInPairs, PairsRight, Runnable, IndexThere, Rows, Entries, DenoteQuery, HasPairs;
    NamesFound();
    StatementIsPushed();
    PlanIs();
    FileIsStored();
    ColumnsShared();
    FileHasPairs();
    RangeHolds(FILE, 0);
    ScanHolds();
    OptimizedRunnable(SCHEMA, FILE, STATEMENT);
    TreesAreStored(SCHEMA, FILE, PUSHED, PLAN, 0, 0);
    JoinReads(SCHEMA, FILE, PUSHED, PLAN);
    HoldsThere(PLAN.s1, FILE, 0);
    HoldsThere(PLAN.s2, FILE, 0);
    SplitPairsRight(PLAN, FILE, 0, 0);
    NoSplits();
    KeysTold();
  }

  lemma KeysTold()
    ensures ShowsKeys(PLAN)
  {
    assert ID[0].primaryKey && RCol(0, 0) in PLAN.out && PLAN.pairs[0] == (0, 0);
    assert Told(PLAN, 0, 0) && Told(PLAN, 1, 0);
  }

  lemma ScanHolds()
    ensures PathHolds(PLAN.s2, FILE, 0) && SignsRight(PLAN.s2, FILE)
  {
  }

  lemma NoSplits()
    requires ValidJoin(PLAN) && ReadySource(FILE, PLAN.s1, 0) && ReadySource(FILE, PLAN.s2, 1)
    requires IndexThere(PLAN.s1, FILE) && IndexThere(PLAN.s2, FILE)
    ensures !SplitInPairs(PLAN, FILE)
  {
    hide ValidJoin, ReadySource, Meets, Wanted, Rows, IsEntryOf;
    FileHasPairs();
    forall e1, e2 ensures !SplitPair(PLAN, FILE, e1, e2) {
    }
  }

  // ---- an index that has split -----------------------------------------------------------------------

  // The same file after the root of the index has split once.
  const SPLIT_TREE := Node(4, Cons(Leaf(5, [Entry(1, [], 1)]), Sep(1, 1), Last(Leaf(6, [Entry(2, [], 2)]))))

  const SPLIT_FILE := Database(map[2 := Leaf(2, T_ROWS), 3 := Leaf(3, U_ROWS), 4 := SPLIT_TREE], {4}, 6, 1024)

  // SELECT * FROM t WHERE t.id > 0
  const RANGE_STATEMENT := Project(Select(Table("t", None), CONDITION), [Col(ColumnRef(None, "*"))])

  const RANGE_PLAN := TablePlan(RANGE, [0])

  lemma SplitTreeHolds()
    ensures HasPairs(SPLIT_FILE, 1) && Entry(1, [], 1) in Seps(SPLIT_TREE)
  {
    var left, right := Leaf(5, [Entry(1, [], 1)]), Last(Leaf(6, [Entry(2, [], 2)]));
    assert SPLIT_TREE == Node(4, Cons(left, Sep(1, 1), right));
    assert KidEntries(right) == [Entry(2, [], 2)] && KidsWf(right, 0) && Wf(left, 0);
    assert Entries(SPLIT_TREE) == [Entry(1, [], 1)] + [Entry(2, [], 2)];
  }

  lemma SplitFileIsStored()
    ensures Stored(SCHEMA, SPLIT_FILE)
  {
    assert TableStored(SCHEMA[0], SPLIT_FILE) && TableStored(SCHEMA[1], SPLIT_FILE);
  }

  lemma RangeResolves()
    ensures ResolveConjuncts(Some(CONDITION), Single(ID)) == Some([COMPARED])
  {
    hide ColumnIndex;
    NamesFound();
    var r, list := Single(ID), [CONDITION];
    assert Conjuncts(CONDITION) == list && list[..0] == [];
    assert ResolveComparison(CONDITION, r) == Some(COMPARED);
    assert list[..|list| - 1] == [] && list[|list| - 1] == CONDITION;
    assert ResolveAll([], r) == Some([]);
    assert [] + [COMPARED] == [COMPARED];
  }

  lemma RangePlanIs()
    ensures PlanSelect(SCHEMA, RANGE_STATEMENT) == Some(RANGE_PLAN) && ReadsTable(SCHEMA, RANGE_STATEMENT)
  {
    hide FindTable, ColumnIndex, FindIndexOn, ResolveConjuncts;
    NamesFound();
    RangeResolves();
    assert MakeSource(SCHEMA, "t", 2, ID, [COMPARED]) == RANGE;
    var out := seq(1, i requires 0 <= i < 1 => RCol(0, i));
    assert seq(|out|, i requires 0 <= i < |out| => out[i].idx) == [0];
  }

  // The theorem about split indexes applies: row 1 is in the answer and on a separator, so that
  // the statement yields more rows than it denotes.
  lemma SplitIndexRepeats()
    ensures PlanSelect(SCHEMA, RANGE_STATEMENT) == Some(RANGE_PLAN) && ReadsTable(SCHEMA, RANGE_STATEMENT)
    ensures TableRunnable(SCHEMA, SPLIT_FILE, RANGE_STATEMENT)
    ensures PathHolds(RANGE, SPLIT_FILE, 1) && SignsRight(RANGE, SPLIT_FILE) && IndexThere(RANGE, SPLIT_FILE)
    ensures ReadySource(SPLIT_FILE, RANGE, 0) && SplitInAnswer(SPLIT_FILE, RANGE, 0)
  {
    hide FindTable, Stored, PlanSelect, PathHolds, SignsRight, PathStored, ReadySource, IndexThere, HasPairs, Seps,
      DenoteQuery, Copies, Wanted;
    RangePlanIs();
    SplitFileIsStored();
    SplitTreeHolds();
    RangeHolds(SPLIT_FILE, 1);
    HoldsThere(RANGE, SPLIT_FILE, 1);
    TreeIsStored(SCHEMA, SPLIT_FILE, RANGE_STATEMENT, RANGE_PLAN, 1);
    TableReads(SCHEMA, SPLIT_FILE, RANGE_STATEMENT, RANGE_PLAN);
    FirstRowRepeats();
  }

  lemma FirstRowRepeats()
    requires ReadySource(SPLIT_FILE, RANGE, 0) && IndexThere(RANGE, SPLIT_FILE)
    ensures Wanted(SPLIT_FILE, RANGE, 0, T_ROWS[0]) && 1 < Copies(RANGE, SPLIT_FILE, T_ROWS[0])
  {
    hide ReadySource, Seps;
    SplitTreeHolds();
    assert Rows(SPLIT_FILE, 2) == T_ROWS && T_ROWS[0] in T_ROWS;
    assert IsEntryOf(ID, 0, Entry(1, [], 1), T_ROWS[0]);
    assert OnSeparator(RANGE, SPLIT_FILE, T_ROWS[0]);
  }

  // ---- a qualifier that names no table -----------------------------------------------------------------

  // SELECT x.id FROM t
  const MISNAMED := Project(Table("t", None), [Col(ColumnRef(Some("x"), "id"))])

  // It is accepted and denotes nothing; its program yields the rows of `SELECT id FROM t`.
  lemma MisnamedIsAccepted()
    ensures ReadsTable(SCHEMA, MISNAMED) && TableRunnable(SCHEMA, FILE, MISNAMED)
    ensures PlanSelect(SCHEMA, MISNAMED) == Some(TablePlan(Source(2, ID, Scan, []), [0]))
    ensures DenoteQuery(SCHEMA, FILE.store, MISNAMED).None?
    ensures Unqualified(MISNAMED) == Project(Table("t", None), [Col(ColumnRef(None, "id"))])
    ensures DenoteQuery(SCHEMA, FILE.store, Unqualified(MISNAMED)) == Some([[Int(1)], [Int(2)]])
  {
    hide Stored;
    FileIsStored();
    MisnamedPlan();
    MisnamedDenotes();
    PlainlyDenotes();
  }

  lemma MisnamedPlan()
    ensures ReadsTable(SCHEMA, MISNAMED) && PlanSelect(SCHEMA, MISNAMED) == Some(TablePlan(Source(2, ID, Scan, []), [0]))
  {
    hide FindTable, ColumnIndex;
    NamesFound();
    var exprs := MISNAMED.exprs;
    assert exprs[..|exprs| - 1] == [];
    assert ResolveOutputs([], Single(ID)) == Some([]);
    assert [] + [RCol(0, 0)] == [RCol(0, 0)];
    assert ResolveOutputs(exprs, Single(ID)) == Some([RCol(0, 0)]);
    assert |exprs[0].ref.column| == 2 && !IsStar(exprs);
    assert SideCondition(MISNAMED.sra) == None && ResolveConjuncts(None, Single(ID)) == Some([]);
    assert MakeSource(SCHEMA, "t", 2, ID, []) == Source(2, ID, Scan, []);
    var out := [RCol(0, 0)];
    assert seq(|out|, i requires 0 <= i < |out| => out[i].idx) == [0];
  }

  lemma MisnamedDenotes()
    ensures DenoteQuery(SCHEMA, FILE.store, MISNAMED).None?
  {
    hide FindTable, Denote;
    NamesFound();
    assert ReadsTable(SCHEMA, MISNAMED);
    var t := TableScope("t", None, ID);
    assert !SameName("x", "t") by { assert Fold("x"[0]) != Fold("t"[0]); }
    assert !ExprNames(t, MISNAMED.exprs[0]);
    assert !QualifiersName(t, MISNAMED.exprs, []);
    if DenoteQuery(SCHEMA, FILE.store, MISNAMED).Some? {
      DenotedNames(SCHEMA, FILE.store, MISNAMED);
    }
  }

  lemma PlainlyDenotes()
    requires ReadsTable(SCHEMA, MISNAMED) && TableRunnable(SCHEMA, FILE, MISNAMED)
    requires PlanSelect(SCHEMA, MISNAMED) == Some(TablePlan(Source(2, ID, Scan, []), [0]))
    ensures Unqualified(MISNAMED) == Project(Table("t", None), [Col(ColumnRef(None, "id"))])
    ensures DenoteQuery(SCHEMA, FILE.store, Unqualified(MISNAMED)) == Some([[Int(1)], [Int(2)]])
  {
    hide DenoteQuery, PlanSelect, Stored, ReadySource;
    var p := TablePlan(Source(2, ID, Scan, []), [0]);
    assert PlainExprs(MISNAMED.exprs) == [Col(ColumnRef(None, "id"))];
    TableReads(SCHEMA, FILE, MISNAMED, p);
    PassNothing(ID, 0, T_ROWS);
    assert Rows(FILE, 2) == T_ROWS;
    assert TableRow(ID, [0], T_ROWS[0]) == [Int(1)] && TableRow(ID, [0], T_ROWS[1]) == [Int(2)];
    assert Shown(ID, [0], T_ROWS) == [[Int(1)], [Int(2)]];
  }

  // ---- INSERT INTO t VALUES(3) -----------------------------------------------------------------------

  const NEW_ROW := InsertPlan(2, ID, 0, [IntLit(3)], [IndexTarget(4, 0)])

  const LIMITS := Limits(10, 12)

  lemma NewRowPlanned()
    ensures PlanInsert(SCHEMA, "t", [IntLit(3)]) == Some(NEW_ROW)
  {
    hide FindTable, ColumnIndex;
    NamesFound();
    assert PrimaryKeyIndex(ID) == 0;
    var two, one := SCHEMA[..2], SCHEMA[..1];
    assert SCHEMA[..|SCHEMA| - 1] == two && two[..|two| - 1] == one && one[..|one| - 1] == [];
    assert TargetsOf([], "t", ID) == [] && TargetsOf(one, "t", ID) == [] && TargetsOf(two, "t", ID) == [];
    assert TargetOf(SCHEMA[2], "t", ID) == [IndexTarget(4, 0)];
    assert TargetsOf(SCHEMA, "t", ID) == TargetsOf(two, "t", ID) + TargetOf(SCHEMA[2], "t", ID);
    assert TargetsOf(SCHEMA, "t", ID) == [IndexTarget(4, 0)];
    assert LiteralsMatch(ID, [IntLit(3)]);
  }

  lemma NewRowFits()
    ensures RowFits(NEW_ROW) && |NewRecord(NEW_ROW)| == 2
  {
    var vs := RegisterValues(NEW_ROW);
    assert vs == [Null] && vs[..0] == [];
    assert RecordFields(vs) == [] + [NullField];
    assert RecordFields(vs)[..0] == [];
  }

  lemma TableIsSound()
    ensures SoundAt(FILE, 2, LIMITS)
  {
    assert Wf(FILE.store[2], 0);
    assert T_ROWS[..1] == [T_ROWS[0]] && T_ROWS[..1][..0] == [];
    assert LeafCost(Shape(false, 1024), T_ROWS) == 20;
  }

  lemma IndexIsSound()
    ensures SoundAt(FILE, 4, LIMITS)
  {
    assert Wf(FILE.store[4], 0);
    assert I_PAIRS[..1] == [I_PAIRS[0]] && I_PAIRS[..1][..0] == [];
    assert LeafCost(Shape(true, 1024), I_PAIRS) == 28;
  }

  // The theorem about INSERT applies to it.
  lemma InsertApplies()
    ensures PlanInsert(SCHEMA, "t", [IntLit(3)]) == Some(NEW_ROW) && InsertFits(NEW_ROW, FILE, LIMITS) && AllHold(NEW_ROW, FILE)
  {
    hide PlanInsert, RowFits, TreeSound, NewRecord;
    NewRowPlanned();
    NewRowFits();
    TableIsSound();
    IndexIsSound();
    PairsHold();
  }
}
