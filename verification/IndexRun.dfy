// The run of a CREATE INDEX program up to its loop: the new tree, the row of the schema table,
// the two cursors.
module IndexRun {
  import opened Common
  import opened Sql
  import opened Values
  import opened Records
  import opened Trees
  import opened TreeContents
  import opened TreeInsert
  import opened TreeSnapshot
  import opened Machine
  import opened MachineRun
  import opened Planner
  import opened Layout
  import opened CodeRuns
  import opened JoinRows
  import opened JoinStart
  import opened DbFiles
  import opened Dbms
  import opened IndexVisits
  import opened IndexKeeping
  import opened InsertRecord
  import opened InsertRun
  import opened IndexLayout

  // ---- the schema row -----------------------------------------------------------------------------

  function SchemaValues(p: IndexPlan, root: nat): seq<Value> {
    [Str(INDEX_WORD), Str(p.name), Str(p.table), Int(root), Str(p.sql)]
  }

  function SchemaRecord(p: IndexPlan, root: nat): seq<byte>
    requires Packable(RecordFields(SchemaValues(p, root))) && AllInRange(RecordFields(SchemaValues(p, root)))
  {
    Packed(RecordFields(SchemaValues(p, root)))
  }

  ghost predicate SchemaRowFits(p: IndexPlan, root: nat) {
    Buildable(RecordFields(SchemaValues(p, root))) && p.key < 0x1000_0000
  }

  function SchemaEntry(p: IndexPlan, root: nat): Entry
    requires SchemaRowFits(p, root)
  {
    BuildableInRange(RecordFields(SchemaValues(p, root)));
    Entry(p.key, SchemaRecord(p, root), 0)
  }

  // What chidb_schema_load reads back from it.
  lemma SchemaRowBack(p: IndexPlan, root: nat)
    requires SchemaRowFits(p, root)
    ensures var data := SchemaEntry(p, root).data;
      && FieldValue(data, 0) == Some(Str(INDEX_WORD)) && FieldValue(data, 1) == Some(Str(p.name))
      && FieldValue(data, 2) == Some(Str(p.table)) && FieldValue(data, 3) == Some(Int(root))
      && FieldValue(data, 4) == Some(Str(p.sql))
  {
    hide Packed, Unpack, GetField, Packable, RecordFields, INDEX_WORD;
    var vs := SchemaValues(p, root);
    var fs := RecordFields(vs);
    FieldsOf(vs);
    BuildableInRange(fs);
    UnpackPacked(fs, []);
    assert Packed(fs) + [] == Packed(fs);
    forall i | 0 <= i < 5 ensures FieldValue(SchemaEntry(p, root).data, i) == Some(vs[i]) {
    }
  }

  // ---- the file a CREATE INDEX works on --------------------------------------------------------------

  // The page the new index gets.
  function NewRoot(db: Database): nat {
    db.pages + 1
  }

  ghost predicate IndexFits(p: IndexPlan, db: Database, lim: Limits) {
    && 1 in db.store && 1 !in db.indexes && SoundAt(db, 1, lim) && SchemaRowFits(p, NewRoot(db))
    && EntrySound(ShapeOf(db, 1), SchemaEntry(p, NewRoot(db)), lim) && !HasKey(Entries(db.store[1]), p.key)
    && p.root in db.store && p.root !in db.indexes && p.root != 1 && p.root < 0x8000_0000
    && (forall r :: r in db.store ==> r <= db.pages) && NewRoot(db) < 0x8000_0000
    && p.col < |p.columns| && p.columns[p.col].dataType == TypeInt
    && Ascending(Entries(db.store[p.root])) && TypedTable(p.columns, Entries(db.store[p.root]))
    && RoomyPages(Shape(true, db.pageSize), Limits(14, 14))
    && NewRoot(db) + PAGES_EACH * (|Entries(db.store[p.root])| + 1) < 0x1_0000_0000
  }

  // The new tree is there, empty, and the schema table knows it.
  ghost predicate Registered(p: IndexPlan, db: Database, db': Database, lim: Limits)
    requires IndexFits(p, db, lim)
  {
    && db'.indexes == db.indexes + {NewRoot(db)} && db'.pageSize == db.pageSize
    && db'.store.Keys == db.store.Keys + {NewRoot(db)} && db'.store[NewRoot(db)] == Leaf(NewRoot(db), [])
    && Entries(db'.store[1]) == InsertSorted(Entries(db.store[1]), SchemaEntry(p, NewRoot(db)))
    && NewRoot(db) <= db'.pages <= NewRoot(db) + PAGES_EACH
    && forall r :: r in db.store && r != 1 ==> db'.store[r] == db.store[r]
  }

  // ---- the straight part ------------------------------------------------------------------------------

  lemma TreeRuns(ops: seq<Op>, p: IndexPlan, db: Database, lim: Limits) returns (m: Machine)
    requires IndexFits(p, db, lim) && CodeAt(ops, 0, RegisterIndex(p))
    ensures Runs(ops, Initial(db, 0), [], m) && m.pc == 3 && |m.regs| == 10 && m.regs[4] == Int(NewRoot(db))
    ensures IsOpen(m, 0) && m.cursors[0].root == 1
    ensures m.db == db.(store := db.store[NewRoot(db) := Leaf(NewRoot(db), [])], indexes := db.indexes + {NewRoot(db)}, pages := NewRoot(db))
  {
    hide Runs, SoundAt, Sized, RoomyPages, TypedTable, SchemaRowFits, HasKey, Ascending, SchemaEntry, Sized, Initial;
    var code := RegisterIndex(p);
    var m1 := SchemaOpens(ops, p, db);
    assert ops[2] == ops[0 + 2] == code[2];
    CreateRuns(ops, m1);
    m := Step(ops, m1).m;
    RunsOn(ops, Initial(db, 0), m1, [], m);
  }

  lemma CreateRuns(ops: seq<Op>, m: Machine)
    requires m.pc < |ops| && ops[m.pc] == MakeOp(Op_CreateIndex, 4, 0, 0)
    ensures Step(ops, m).Ok? && Runs(ops, m, [], Step(ops, m).m) && CreateTree(ops[m.pc], m.(pc := m.pc + 1)) == Step(ops, m)
  {
    RunsStep(ops, m);
  }

  lemma SchemaOpens(ops: seq<Op>, p: IndexPlan, db: Database) returns (m: Machine)
    requires 1 in db.store && CodeAt(ops, 0, RegisterIndex(p))
    ensures Runs(ops, Initial(db, 0), [], m) && m.pc == 2 && |m.regs| == 10 && m.db == db && IsOpen(m, 0) && m.cursors[0].root == 1
  {
    hide Runs, Collect;
    var code, m0 := RegisterIndex(p), Initial(db, 0);
    assert ops[0] == ops[0 + 0] == code[0] && ops[1] == ops[0 + 1] == code[1];
    RunsStep(ops, m0);
    var m1 := Step(ops, m0).m;
    RunsStep(ops, m1);
    m := Step(ops, m1).m;
    RunsOn(ops, m0, m1, [], m);
  }

  lemma NamesRun(ops: seq<Op>, m: Machine, p: IndexPlan) returns (m': Machine)
    requires CodeAt(ops, 0, RegisterIndex(p)) && m.pc == 3 && |m.regs| == 10
    ensures Runs(ops, m, [], m') && m'.pc == 7 && m'.db == m.db && m'.cursors == m.cursors && |m'.regs| == 10
    ensures m'.regs[1..4] == [Str(INDEX_WORD), Str(p.name), Str(p.table)] && m'.regs[4] == m.regs[4] && m'.regs[5] == Str(p.sql)
  {
    hide Runs;
    var code := RegisterIndex(p);
    assert ops[3] == ops[0 + 3] == code[3] && ops[4] == ops[0 + 4] == code[4];
    assert ops[5] == ops[0 + 5] == code[5] && ops[6] == ops[0 + 6] == code[6];
    RunsStep(ops, m);
    var m1 := Step(ops, m).m;
    RunsStep(ops, m1);
    var m2 := Step(ops, m1).m;
    RunsStep(ops, m2);
    var m3 := Step(ops, m2).m;
    RunsStep(ops, m3);
    m' := Step(ops, m3).m;
    RunsOn(ops, m, m1, [], m2);
    RunsOn(ops, m, m2, [], m3);
    RunsOn(ops, m, m3, [], m');
  }

  lemma SchemaRecordRuns(ops: seq<Op>, m: Machine, p: IndexPlan, root: nat) returns (m': Machine)
    requires CodeAt(ops, 0, RegisterIndex(p)) && m.pc == 7 && |m.regs| == 10 && SchemaRowFits(p, root)
    requires m.regs[1..6] == SchemaValues(p, root)
    ensures Runs(ops, m, [], m') && m'.pc == 9 && m'.db == m.db && m'.cursors == m.cursors && |m'.regs| == 10
    ensures m'.regs[4] == m.regs[4] && m'.regs[6] == Bytes(SchemaEntry(p, root).data) && m'.regs[7] == Int(p.key)
  {
    hide Runs, RecordFields, Buildable, SchemaValues;
    var code := RegisterIndex(p);
    assert ops[7] == ops[0 + 7] == code[7] && ops[8] == ops[0 + 8] == code[8];
    RunsStep(ops, m);
    var m1 := Step(ops, m).m;
    RunsStep(ops, m1);
    m' := Step(ops, m1).m;
    RunsOn(ops, m, m1, [], m');
  }

  lemma SchemaRowRuns(ops: seq<Op>, m: Machine, p: IndexPlan, db: Database, lim: Limits) returns (m': Machine)
    requires IndexFits(p, db, lim) && CodeAt(ops, 0, RegisterIndex(p)) && m.pc == 9 && |m.regs| == 10
    requires m.regs[6] == Bytes(SchemaEntry(p, NewRoot(db)).data) && m.regs[7] == Int(p.key)
    requires IsOpen(m, 0) && m.cursors[0].root == 1
    requires m.db == db.(store := db.store[NewRoot(db) := Leaf(NewRoot(db), [])], indexes := db.indexes + {NewRoot(db)}, pages := NewRoot(db))
    ensures Runs(ops, m, [], m') && m'.pc == 11 && m'.regs == m.regs && |m'.cursors| == |m.cursors| && Registered(p, db, m'.db, lim)
  {
    hide Runs, InsertEntry, EntrySound, RoomyPages, TypedTable, InsertSorted, HasKey, Ascending, Entries, TreeSound, SchemaEntry;
    var code, e := RegisterIndex(p), SchemaEntry(p, NewRoot(db));
    assert e == Entry(p.key, e.data, 0) by { EntryParts(p, NewRoot(db)); }
    assert ops[9] == ops[0 + 9] == code[9] && ops[10] == ops[0 + 10] == code[10];
    assert p.key < 0x1000_0000;
    var next := m.(pc := m.pc + 1);
    assert ShapeOf(m.db, 1) == ShapeOf(db, 1);
    assert Step(ops, m) == InsertEntry(next, 1, e);
    SoundLater(db, next.db, 1, lim);
    EntryGoesIn(next, 1, e, lim);
    RunsStep(ops, m);
    var m1 := Step(ops, m).m;
    RunsStep(ops, m1);
    m' := Step(ops, m1).m;
    RunsOn(ops, m, m1, [], m');
  }

  lemma EntryParts(p: IndexPlan, root: nat)
    requires SchemaRowFits(p, root)
    ensures SchemaEntry(p, root) == Entry(p.key, SchemaEntry(p, root).data, 0)
  {
  }

  // The machine before the loop.
  ghost predicate BothOpen(m: Machine, p: IndexPlan, root: nat, rows: seq<Entry>) {
    && IsOpen(m, 1) && m.cursors[1].snapshot == rows && IsOpen(m, 2) && m.cursors[2].root == root && 9 < |m.regs|
  }

  lemma OpensBoth(ops: seq<Op>, m: Machine, p: IndexPlan, root: nat) returns (m': Machine)
    requires CodeAt(ops, 11, OpenIndexed(p)) && m.pc == 11 && |m.regs| == 10 && m.regs[4] == Int(root)
    requires root < 0x8000_0000 && root in m.db.store
    requires p.root in m.db.store && p.root !in m.db.indexes && p.root < 0x8000_0000
    ensures Runs(ops, m, [], m') && m'.pc == 14 && m'.db == m.db && BothOpen(m', p, root, Entries(m.db.store[p.root]))
  {
    hide Runs, Collect, Entries;
    var code := OpenIndexed(p);
    assert ops[11] == ops[11 + 0] == code[0] && ops[12] == ops[11 + 1] == code[1] && ops[13] == ops[11 + 2] == code[2];
    RunsStep(ops, m);
    var m1 := Step(ops, m).m;
    RunsStep(ops, m1);
    var m2 := Step(ops, m1).m;
    RunsStep(ops, m2);
    m' := Step(ops, m2).m;
    RunsOn(ops, m, m1, [], m2);
    RunsOn(ops, m, m2, [], m');
    TableSnapshot(m.db.store[p.root]);
  }

  lemma StartRuns(p: IndexPlan, db: Database, lim: Limits) returns (m: Machine)
    requires IndexFits(p, db, lim)
    ensures Runs(IndexCode(p), Initial(db, 0), [], m) && m.pc == 14
    ensures Registered(p, db, m.db, lim) && BothOpen(m, p, NewRoot(db), Entries(db.store[p.root]))
  {
    hide Runs, CodeAt, IndexCode, Initial, SoundAt, Sized, RoomyPages, TypedTable, InsertSorted, HasKey, Ascending, Entries,
      SchemaRowFits, SchemaEntry;
    var ops, m0 := IndexCode(p), Initial(db, 0);
    IndexPieces(p);
    var m1 := TreeRuns(ops, p, db, lim);
    var m2 := NamesRun(ops, m1, p);
    assert m2.regs[1..6] == m2.regs[1..4] + [m2.regs[4], m2.regs[5]] == SchemaValues(p, NewRoot(db));
    var m3 := SchemaRecordRuns(ops, m2, p, NewRoot(db));
    var m4 := SchemaRowRuns(ops, m3, p, db, lim);
    m := OpensBoth(ops, m4, p, NewRoot(db));
    RunsOn(ops, m0, m1, [], m2);
    RunsOn(ops, m0, m2, [], m3);
    RunsOn(ops, m0, m3, [], m4);
    RunsOn(ops, m0, m4, [], m);
  }
}
