// INSERTs that leave an index broken: one with an indexed value that is taken, and one into a
// table without a primary key.
module InsertExample {
  import opened Common
  import opened Sql
  import opened Values
  import opened Bytes
  import opened Records
  import opened Trees
  import opened TreeContents
  import opened TreeInsert
  import opened Machine
  import opened Planner
  import opened JoinStart
  import opened Dbms
  import opened IndexVisits
  import opened IndexKeeping
  import opened InsertLayout
  import opened InsertRecord
  import opened InsertRun
  import opened InsertKeeping

  // ---- a taken value -------------------------------------------------------------------------------

  const PAIR := [Column("id", TypeInt, true), Column("v", TypeInt, false)]

  const PAIR_SCHEMA := [TableItem("t", 2, 1, PAIR), IndexItem("i", 4, 2, "t", "v")]

  // INSERT INTO t VALUES(key, 7)
  function SevenPlan(key: int): InsertPlan {
    InsertPlan(2, PAIR, 0, [IntLit(key), IntLit(7)], [IndexTarget(4, 1)])
  }

  lemma PairPlanned(key: int)
    ensures PlanInsert(PAIR_SCHEMA, "t", [IntLit(key), IntLit(7)]) == Some(SevenPlan(key))
  {
    assert SameName("t", "t") && FindTable(PAIR_SCHEMA, "t") == Some(PAIR_SCHEMA[0]);
    assert PAIR[1..] == [PAIR[1]];
    assert !SameName("id", "v") by { assert |"id"| != |"v"|; }
    assert ColumnIndex(PAIR[1..], "v") == Some(0) && ColumnIndex(PAIR, "v") == Some(1);
    assert PrimaryKeyIndex(PAIR) == 0;
    var front := PAIR_SCHEMA[..1];
    assert PAIR_SCHEMA[..|PAIR_SCHEMA| - 1] == front && front[..|front| - 1] == [];
    assert TargetsOf([], "t", PAIR) == [] && TargetsOf(front, "t", PAIR) == [];
    assert TargetOf(PAIR_SCHEMA[1], "t", PAIR) == [IndexTarget(4, 1)];
    assert TargetsOf(PAIR_SCHEMA, "t", PAIR) == TargetsOf(front, "t", PAIR) + TargetOf(PAIR_SCHEMA[1], "t", PAIR);
    assert TargetsOf(PAIR_SCHEMA, "t", PAIR) == [IndexTarget(4, 1)];
    assert LiteralsMatch(PAIR, [IntLit(key), IntLit(7)]);
  }

  const SEVEN_FIELDS := [NullField, Int32(7)]

  lemma SevenFields(key: int)
    ensures RecordFields(RegisterValues(SevenPlan(key))) == SEVEN_FIELDS
  {
    var vs := RegisterValues(SevenPlan(key));
    assert vs == [Null, Int(7)] && vs[..1] == [Null] && vs[..1][..0] == [];
    assert RecordFields([]) == [];
    assert RecordFields([Null]) == [] + [NullField];
  }

  lemma SevenHeader()
    ensures |Header(SEVEN_FIELDS)| == 2
  {
    hide PutVarint;
    assert SEVEN_FIELDS[..1] == [NullField] && SEVEN_FIELDS[..1][..0] == [];
    assert |Header(SEVEN_FIELDS[..1])| == 1;
  }

  lemma SevenBody()
    ensures AllInRange(SEVEN_FIELDS) && |Body(SEVEN_FIELDS)| == 4
  {
    hide Put4, Unsigned;
    assert SEVEN_FIELDS[..1] == [NullField] && SEVEN_FIELDS[..1][..0] == [];
    assert |Body(SEVEN_FIELDS[..1])| == 0;
  }

  lemma PairFits(key: int)
    requires 0 <= key < 100
    ensures RowFits(SevenPlan(key)) && |NewRecord(SevenPlan(key))| == 7
  {
    hide RecordFields, Header, Body;
    SevenFields(key);
    SevenHeader();
    SevenBody();
    assert LiteralsMatch(PAIR, SevenPlan(key).values);
  }

  // The row (1, 7) as an INSERT has left it.
  function SevenRow(): Entry {
    Entry(1, OldRecord(), 0)
  }

  function OldRecord(): seq<byte> {
    PairFits(1);
    NewRecord(SevenPlan(1))
  }

  function SevenFile(): Database {
    Database(map[2 := Leaf(2, [SevenRow()]), 4 := Leaf(4, [Entry(7, [], 1)])], {4}, 4, 1024)
  }

  const SEVEN_LIMITS := Limits(17, 17)

  lemma SevenReads(key: int)
    requires 0 <= key < 100
    ensures RowFits(SevenPlan(key)) && IsEntryOf(PAIR, 1, Entry(7, [], key), NewEntry(SevenPlan(key)))
    ensures ReadsBack(SevenPlan(key), 1)
  {
    hide RowFits, NewRecord, ColumnValue;
    PairFits(key);
    PairValid(key);
    TargetEntryIsEntryOf(SevenPlan(key), 0);
  }

  lemma PairValid(key: int)
    requires 0 <= key < 100
    ensures ValidInsertPlan(SevenPlan(key)) && TargetTyped(SevenPlan(key), 0)
  {
  }

  lemma SevenTableSound()
    ensures SoundAt(SevenFile(), 2, SEVEN_LIMITS)
  {
    hide NewRecord;
    PairFits(1);
    var s := [SevenRow()];
    assert s[..0] == [] && LeafCost(Shape(false, 1024), s) == 17;
    assert Wf(Leaf(2, s), 0);
  }

  lemma SevenIndexSound()
    ensures SoundAt(SevenFile(), 4, SEVEN_LIMITS)
  {
    var s := [Entry(7, [], 1)];
    assert s[..0] == [] && LeafCost(Shape(true, 1024), s) == 14;
    assert Wf(Leaf(4, s), 0);
  }

  lemma SevenAgrees()
    ensures IndexHolds(PAIR, 1, [SevenRow()], [Entry(7, [], 1)])
  {
    hide IsEntryOf, NewRecord, HasEntry, HasRow;
    var t, x := [SevenRow()], [Entry(7, [], 1)];
    SevenReads(1);
    assert t[0] in t && x[0] in x;
    ThisEntry(PAIR, 1, t, x, t[0], x[0]);
  }

  lemma SevenHolds()
    ensures AllHold(SevenPlan(2), SevenFile())
  {
    hide IndexHolds, NewRecord, OldRecord;
    SevenAgrees();
    assert TargetHolds(SevenPlan(2), SevenFile(), 0);
  }

  lemma SevenFits()
    ensures InsertFits(SevenPlan(2), SevenFile(), SEVEN_LIMITS)
  {
    hide RowFits, TreeSound, NewRecord;
    PairFits(2);
    SevenTableSound();
    SevenIndexSound();
    assert LeafCellSize(Shape(false, 1024), [NewEntry(SevenPlan(2))][0]) == 15;
  }

  // INSERT INTO t VALUES(2, 7), with (1, 7) in the table and an index on v that agrees with it:
  // the statement is refused at the index, and the index does not agree any more.
  lemma TakenValueBreaks() returns (n: nat, end: Machine)
    ensures PlanInsert(PAIR_SCHEMA, "t", [IntLit(2), IntLit(7)]) == Some(SevenPlan(2))
    ensures InsertFits(SevenPlan(2), SevenFile(), SEVEN_LIMITS) && AllHold(SevenPlan(2), SevenFile())
    ensures ValidInsertPlan(SevenPlan(2)) && ExecTo(InsertCode(SevenPlan(2)), Initial(SevenFile(), 0), n, Violated, end)
    ensures !AllHold(SevenPlan(2), end.db)
  {
    hide PlanInsert, InsertFits, AllHold, ExecTo, InsertCode, NothingTaken;
    PairPlanned(2);
    SevenFits();
    SevenHolds();
    SevenIsTaken();
    var code, stop;
    n, code, end, stop := InsertKeepsIndexes(SevenPlan(2), SevenFile(), SEVEN_LIMITS);
  }

  lemma SevenIsTaken()
    requires InsertFits(SevenPlan(2), SevenFile(), SEVEN_LIMITS)
    ensures !NothingTaken(SevenPlan(2), SevenFile(), SEVEN_LIMITS)
    ensures RowFits(SevenPlan(2)) && !HasKey(Entries(SevenFile().store[2]), NewKey(SevenPlan(2)))
  {
    hide TreeSound, NewRecord;
    assert Entries(SevenFile().store[4])[0].key == 7;
    assert Taken(SevenPlan(2), SevenFile(), 0, SEVEN_LIMITS);
  }

  // ---- no primary key --------------------------------------------------------------------------------

  const LONE := [Column("v", TypeInt, false)]

  const LONE_SCHEMA := [TableItem("t", 2, 1, LONE), IndexItem("i", 4, 2, "t", "v")]

  const LONE_PLAN := InsertPlan(2, LONE, 0, [IntLit(3)], [IndexTarget(4, 0)])

  const EMPTY_FILE := Database(map[2 := Leaf(2, []), 4 := Leaf(4, [])], {4}, 4, 1024)

  lemma LonePlanned()
    ensures PlanInsert(LONE_SCHEMA, "t", [IntLit(3)]) == Some(LONE_PLAN)
  {
    assert SameName("t", "t") && FindTable(LONE_SCHEMA, "t") == Some(LONE_SCHEMA[0]);
    assert ColumnIndex(LONE, "v") == Some(0) && PrimaryKeyIndex(LONE) == 0;
    var front := LONE_SCHEMA[..1];
    assert LONE_SCHEMA[..|LONE_SCHEMA| - 1] == front && front[..|front| - 1] == [];
    assert TargetsOf([], "t", LONE) == [] && TargetsOf(front, "t", LONE) == [];
    assert TargetOf(LONE_SCHEMA[1], "t", LONE) == [IndexTarget(4, 0)];
    assert TargetsOf(LONE_SCHEMA, "t", LONE) == TargetsOf(front, "t", LONE) + TargetOf(LONE_SCHEMA[1], "t", LONE);
    assert TargetsOf(LONE_SCHEMA, "t", LONE) == [IndexTarget(4, 0)];
    assert LiteralsMatch(LONE, [IntLit(3)]);
  }

  lemma LoneRowFits()
    ensures RowFits(LONE_PLAN) && |NewRecord(LONE_PLAN)| == 2
  {
    var vs := RegisterValues(LONE_PLAN);
    assert vs == [Null] && vs[..0] == [];
    assert RecordFields(vs) == [] + [NullField];
    assert RecordFields(vs)[..0] == [];
  }

  lemma EmptySound()
    ensures SoundAt(EMPTY_FILE, 2, Limits(12, 12)) && SoundAt(EMPTY_FILE, 4, Limits(12, 12))
  {
    assert Wf(Leaf(2, []), 0) && Wf(Leaf(4, []), 0);
  }

  lemma LoneFits()
    ensures InsertFits(LONE_PLAN, EMPTY_FILE, Limits(12, 12)) && AllHold(LONE_PLAN, EMPTY_FILE)
    ensures NothingTaken(LONE_PLAN, EMPTY_FILE, Limits(12, 12)) && !TargetsReadBack(LONE_PLAN)
  {
    hide RowFits, TreeSound, NewRecord;
    LoneRowFits();
    EmptySound();
    assert LeafCellSize(Shape(false, 1024), [NewEntry(LONE_PLAN)][0]) == 10;
    assert Entries(EMPTY_FILE.store[2]) == [] && Entries(EMPTY_FILE.store[4]) == [];
    LoneValid();
  }

  lemma LoneValid()
    ensures ValidInsertPlan(LONE_PLAN) && !ReadsBack(LONE_PLAN, LONE_PLAN.targets[0].col)
  {
  }

  // INSERT INTO t VALUES(3) into an empty table whose only column is indexed and not marked as
  // its primary key: the statement succeeds, the value is lost, and the index does not agree.
  lemma NoKeyBreaks() returns (n: nat, end: Machine)
    ensures PlanInsert(LONE_SCHEMA, "t", [IntLit(3)]) == Some(LONE_PLAN)
    ensures InsertFits(LONE_PLAN, EMPTY_FILE, Limits(12, 12)) && AllHold(LONE_PLAN, EMPTY_FILE)
    ensures ValidInsertPlan(LONE_PLAN) && ExecTo(InsertCode(LONE_PLAN), Initial(EMPTY_FILE, 0), n, Done, end)
    ensures !AllHold(LONE_PLAN, end.db)
  {
    hide PlanInsert, InsertFits, AllHold, ExecTo, InsertCode, NothingTaken, TargetsReadBack, TreeSound;
    LonePlanned();
    LoneFits();
    NothingInTable(LONE_PLAN, EMPTY_FILE, Limits(12, 12));
    var code, stop;
    n, code, end, stop := InsertKeepsIndexes(LONE_PLAN, EMPTY_FILE, Limits(12, 12));
  }
}
