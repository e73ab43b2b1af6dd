// The loop of a CREATE INDEX program, and what it leaves: an index that agrees with the table,
// exactly when no two rows have the same value.
module IndexFilling {
  import opened Common
  import opened Sql
  import opened Values
  import opened Trees
  import opened TreeContents
  import opened TreeInsert
  import opened Machine
  import opened MachineRun
  import opened Layout
  import opened CodeRuns
  import opened JoinRows
  import opened JoinStart
  import opened DbFiles
  import opened Dbms
  import opened IndexVisits
  import opened IndexKeeping
  import opened InsertRun
  import opened IndexLayout
  import opened IndexRun

  // ---- values ------------------------------------------------------------------------------------

  ghost predicate SameValue(p: IndexPlan, a: Entry, b: Entry)
    requires p.col < |p.columns|
  {
    ColumnValue(p.columns, a, p.col) == ColumnValue(p.columns, b, p.col)
  }

  // Row k repeats the value of an earlier row.
  ghost predicate Repeats(p: IndexPlan, rows: seq<Entry>, k: nat)
    requires p.col < |p.columns| && k < |rows|
  {
    exists j :: 0 <= j < k && SameValue(p, rows[j], rows[k])
  }

  // No two rows have the same value.
  ghost predicate DistinctValues(p: IndexPlan, rows: seq<Entry>)
    requires p.col < |p.columns|
  {
    forall k :: 0 <= k < |rows| ==> !Repeats(p, rows, k)
  }

  ghost predicate Indexable(p: IndexPlan, rows: seq<Entry>) {
    && p.col < |p.columns| && p.columns[p.col].dataType == TypeInt && TypedTable(p.columns, rows)
  }

  lemma RowTyped(p: IndexPlan, rows: seq<Entry>, k: nat)
    requires Indexable(p, rows) && k < |rows|
    ensures TypedEntry(p.columns, rows[k]) && rows[k].key < 0x8000_0000 && IsInt32(ColumnValue(p.columns, rows[k], p.col))
  {
    hide FieldValue, ColumnValue;
    assert HasType(ColumnValue(p.columns, rows[k], p.col), TypeInt);
  }

  function RowEntry(p: IndexPlan, rows: seq<Entry>, k: nat): (a: Entry)
    requires Indexable(p, rows) && k < |rows|
    ensures IsEntryOf(p.columns, p.col, a, rows[k])
  {
    RowTyped(p, rows, k);
    Entry(Wrap(ColumnValue(p.columns, rows[k], p.col).i), [], rows[k].key)
  }

  // In an index of the first k rows the value of row k is taken exactly when it repeats one.
  lemma TakenIsRepeated(p: IndexPlan, rows: seq<Entry>, k: nat, x: seq<Entry>)
    requires Indexable(p, rows) && k < |rows| && IndexHolds(p.columns, p.col, rows[..k], x)
    ensures HasKey(x, RowEntry(p, rows, k).key) <==> Repeats(p, rows, k)
  {
    hide ColumnValue, FieldValue;
    RowTyped(p, rows, k);
    var key := RowEntry(p, rows, k).key;
    if HasKey(x, key) {
      var d :| 0 <= d < |x| && x[d].key == key;
      assert x[d] in x;
      var j :| 0 <= j < |rows[..k]| && IsEntryOf(p.columns, p.col, x[d], rows[..k][j]);
      RowTyped(p, rows, j);
      assert SameValue(p, rows[j], rows[k]);
    }
    if Repeats(p, rows, k) {
      var j :| 0 <= j < k && SameValue(p, rows[j], rows[k]);
      assert rows[..k][j] in rows[..k];
      var d :| 0 <= d < |x| && IsEntryOf(p.columns, p.col, x[d], rows[..k][j]);
      assert x[d].key == key;
    }
  }

  // ---- the loop -------------------------------------------------------------------------------------

  // The index holds the pairs of the first k rows and no others; it is a sound tree. The schema
  // table has one more row, and all other trees are as before.
  ghost predicate IndexedUpTo(p: IndexPlan, db: Database, db': Database, k: nat, lim: Limits)
    requires IndexFits(p, db, lim)
  {
    var rows, root := Entries(db.store[p.root]), NewRoot(db);
    && k <= |rows| && db'.indexes == db.indexes + {root} && db'.pageSize == db.pageSize
    && db'.store.Keys == db.store.Keys + {root} && SoundAt(db', root, lim)
    && IndexHolds(p.columns, p.col, rows[..k], Entries(db'.store[root]))
    && Entries(db'.store[1]) == InsertSorted(Entries(db.store[1]), SchemaEntry(p, root))
    && forall r :: r in db.store && r != 1 ==> db'.store[r] == db.store[r]
  }

  // And few enough pages were allocated.
  ghost predicate IndexFilled(p: IndexPlan, db: Database, db': Database, k: nat, lim: Limits)
    requires IndexFits(p, db, lim)
  {
    IndexedUpTo(p, db, db', k, lim) && db'.pages <= NewRoot(db) + PAGES_EACH * (k + 1)
  }

  // The machine before row k goes into the index.
  ghost predicate AtRow(m: Machine, p: IndexPlan, root: nat, rows: seq<Entry>, k: nat) {
    BothOpen(m, p, root, rows) && m.cursors[1].pos == k && k < |rows|
  }

  lemma RowLoads(ops: seq<Op>, m: Machine, p: IndexPlan, root: nat, rows: seq<Entry>, k: nat) returns (m': Machine)
    requires CodeAt(ops, LOOP, EnterRow(p)) && m.pc == LOOP && AtRow(m, p, root, rows, k) && Indexable(p, rows)
    ensures Runs(ops, m, [], m') && m'.pc == LOOP + 2 && m'.db == m.db && AtRow(m', p, root, rows, k)
    ensures RegIs(m', 9, ColumnValue(p.columns, rows[k], p.col)) && RegIs(m', 10, Int(rows[k].key))
  {
    hide Runs, ColumnValue, TypedEntry, TypedTable;
    RowTyped(p, rows, k);
    var code := EnterRow(p);
    assert ops[LOOP] == ops[LOOP + 0] == code[0] && ops[LOOP + 1] == code[1];
    ColumnRuns(ops, m, p.columns, 1, p.col, 9);
    var m1 := AfterLoad(m, 9, ColumnValue(p.columns, rows[k], p.col));
    RunsStep(ops, m1);
    m' := Step(ops, m1).m;
    RunsOn(ops, m, m1, [], m');
  }

  lemma EntryStep(ops: seq<Op>, m: Machine, p: IndexPlan, root: nat, rows: seq<Entry>, k: nat)
    requires CodeAt(ops, LOOP, EnterRow(p)) && m.pc == LOOP + 2 && AtRow(m, p, root, rows, k) && Indexable(p, rows)
    requires RegIs(m, 9, ColumnValue(p.columns, rows[k], p.col)) && RegIs(m, 10, Int(rows[k].key)) && root in m.db.indexes
    ensures m.pc < |ops| && Step(ops, m) == InsertEntry(m.(pc := m.pc + 1), root, RowEntry(p, rows, k))
  {
    hide InsertEntry, TypedTable, TypedEntry, ColumnValue, LoadColumn;
    RowTyped(p, rows, k);
    assert ops[LOOP + 2] == EnterRow(p)[2];
  }

  lemma EntryRuns(ops: seq<Op>, m: Machine, p: IndexPlan, db: Database, rows: seq<Entry>, k: nat, lim: Limits) returns (m': Machine)
    requires IndexFits(p, db, lim) && Indexable(p, rows) && rows == Entries(db.store[p.root])
    requires CodeAt(ops, LOOP, EnterRow(p)) && m.pc == LOOP + 2 && AtRow(m, p, NewRoot(db), rows, k)
    requires RegIs(m, 9, ColumnValue(p.columns, rows[k], p.col)) && RegIs(m, 10, Int(rows[k].key))
    requires IndexFilled(p, db, m.db, k, lim)
    ensures m.pc < |ops| && (Repeats(p, rows, k) ==> Step(ops, m) == Constraint(m') && IndexedUpTo(p, db, m'.db, k, lim))
    ensures !Repeats(p, rows, k) ==>
      && Runs(ops, m, [], m') && m'.pc == LOOP + 3 && AtRow(m', p, NewRoot(db), rows, k) && IndexFilled(p, db, m'.db, k + 1, lim)
  {
    hide Runs, InsertEntry, IndexFilled, TypedTable, ColumnValue, IndexFits, Repeats, Entries, CodeAt, Step, EnterRow, CursorReady,
      RowEntry;
    FilledIsIndex(p, db, m.db, k, lim);
    EntryStep(ops, m, p, NewRoot(db), rows, k);
    RowIntoIndex(m.(pc := m.pc + 1), p, db, k, lim);
    m' := Step(ops, m).m;
    if !Repeats(p, rows, k) {
      assert CursorReady(ops[m.pc], m) by { EntryReady(ops, m, p); }
      RunsStep(ops, m);
    }
  }

  lemma FilledIsIndex(p: IndexPlan, db: Database, db': Database, k: nat, lim: Limits)
    requires IndexFits(p, db, lim) && IndexFilled(p, db, db', k, lim)
    ensures NewRoot(db) in db'.indexes
  {
  }

  // An index pair fits every index tree.
  lemma RowEntrySound(p: IndexPlan, rows: seq<Entry>, k: nat, sh: Shape, lim: Limits)
    requires Indexable(p, rows) && k < |rows| && sh.index
    ensures EntrySound(sh, RowEntry(p, rows, k), lim)
  {
    hide ColumnValue, TypedTable;
    RowTyped(p, rows, k);
  }

  lemma EntryReady(ops: seq<Op>, m: Machine, p: IndexPlan)
    requires CodeAt(ops, LOOP, EnterRow(p)) && m.pc == LOOP + 2
    ensures m.pc < |ops| && CursorReady(ops[m.pc], m)
  {
    assert ops[LOOP + 2] == EnterRow(p)[2];
  }

  lemma RowIntoIndex(m: Machine, p: IndexPlan, db: Database, k: nat, lim: Limits)
    requires IndexFits(p, db, lim) && Indexable(p, Entries(db.store[p.root])) && k < |Entries(db.store[p.root])|
    requires IndexFilled(p, db, m.db, k, lim)
    ensures var r := InsertEntry(m, NewRoot(db), RowEntry(p, Entries(db.store[p.root]), k));
      && (if Repeats(p, Entries(db.store[p.root]), k) then r.Constraint? && IndexedUpTo(p, db, r.m.db, k, lim)
          else r.Ok? && IndexFilled(p, db, r.m.db, k + 1, lim))
      && r.m == m.(db := r.m.db)
  {
    hide InsertEntry, IndexHolds, HasKey, InsertSorted, TypedTable, ColumnValue, Repeats, TreeSound, SchemaRowFits, RoomyPages, SchemaEntry,
      IsEntryOf, EntrySound, TypedEntry;
    var rows, root := Entries(db.store[p.root]), NewRoot(db);
    var a := RowEntry(p, rows, k);
    TakenIsRepeated(p, rows, k, Entries(m.db.store[root]));
    RowEntrySound(p, rows, k, ShapeOf(m.db, root), lim);
    EntryGoesIn(m, root, a, lim);
    HoldsOneMore(p.columns, p.col, rows, k, Entries(m.db.store[root]), a);
  }

  lemma NextRowRuns(ops: seq<Op>, m: Machine, p: IndexPlan, root: nat, rows: seq<Entry>, k: nat) returns (m': Machine)
    requires CodeAt(ops, LOOP, EnterRow(p)) && m.pc == LOOP + 3 && AtRow(m, p, root, rows, k)
    ensures Runs(ops, m, [], m') && m'.db == m.db && BothOpen(m', p, root, rows)
    ensures if k + 1 < |rows| then m'.pc == LOOP && AtRow(m', p, root, rows, k + 1) else m'.pc == AFTER
  {
    hide Runs;
    assert ops[LOOP + 3] == EnterRow(p)[3];
    RunsStep(ops, m);
    m' := Step(ops, m).m;
  }

  // From row k on: every row gets its entry, or one whose value an earlier row has stops the run.
  lemma {:induction false} LoopRuns(ops: seq<Op>, m: Machine, p: IndexPlan, db: Database, rows: seq<Entry>, k: nat, lim: Limits)
    returns (stop: nat, m': Machine)
    requires IndexFits(p, db, lim) && Indexable(p, rows) && rows == Entries(db.store[p.root]) && CodeAt(ops, LOOP, EnterRow(p))
    requires m.pc == LOOP && AtRow(m, p, NewRoot(db), rows, k) && IndexFilled(p, db, m.db, k, lim)
    ensures k <= stop <= |rows| && forall j :: k <= j < stop ==> !Repeats(p, rows, j)
    ensures stop < |rows| ==> Repeats(p, rows, stop) && Violates(ops, m, m') && IndexedUpTo(p, db, m'.db, stop, lim)
    ensures stop == |rows| ==>
      Runs(ops, m, [], m') && m'.pc == AFTER && BothOpen(m', p, NewRoot(db), rows) && IndexFilled(p, db, m'.db, |rows|, lim)
    decreases |rows| - k
  {
    hide Runs, IndexFilled, IndexFits, Indexable, Repeats, Violates, CodeAt, Step, EnterRow, BothOpen, Entries;
    IndexableCol(p, rows);
    var m1 := RowLoads(ops, m, p, NewRoot(db), rows, k);
    var m2 := EntryRuns(ops, m1, p, db, rows, k, lim);
    if Repeats(p, rows, k) {
      stop, m' := k, m2;
      ViolatesHere(ops, m, m1, m');
    } else {
      var m3 := NextRowRuns(ops, m2, p, NewRoot(db), rows, k);
      RunsOn(ops, m, m1, [], m2);
      RunsOn(ops, m, m2, [], m3);
      if k + 1 < |rows| {
        stop, m' := LoopRuns(ops, m3, p, db, rows, k + 1, lim);
        if stop < |rows| {
          ViolatesLater(ops, m, m3, m');
        } else {
          RunsOn(ops, m, m3, [], m');
        }
      } else {
        stop, m' := |rows|, m3;
      }
    }
  }

  lemma RewindRows(ops: seq<Op>, m: Machine, p: IndexPlan, root: nat, rows: seq<Entry>) returns (m': Machine)
    requires CodeAt(ops, 14, [MakeOp(Op_Rewind, 1, AFTER, 0)]) && m.pc == 14 && BothOpen(m, p, root, rows)
    ensures Runs(ops, m, [], m') && m'.db == m.db && BothOpen(m', p, root, rows)
    ensures if rows == [] then m'.pc == AFTER else m'.pc == LOOP && AtRow(m', p, root, rows, 0)
  {
    hide Runs;
    assert ops[14 + 0] == [MakeOp(Op_Rewind, 1, AFTER, 0)][0];
    RewindRuns(ops, m, 1, AFTER);
    m' := if rows == [] then AtPosition(m.(pc := AFTER), 1, -1) else AtPosition(m.(pc := m.pc + 1), 1, 0);
  }

  lemma CloseRuns(ops: seq<Op>, m: Machine, p: IndexPlan, root: nat, rows: seq<Entry>) returns (m': Machine)
    requires CodeAt(ops, AFTER, CloseIndexed()) && m.pc == AFTER && BothOpen(m, p, root, rows)
    ensures Runs(ops, m, [], m') && m'.pc == |ops| && m'.db == m.db
  {
    hide Runs;
    var code := CloseIndexed();
    assert ops[AFTER] == ops[AFTER + 0] == code[0] && ops[AFTER + 1] == code[1] && ops[AFTER + 2] == code[2];
    RunsStep(ops, m);
    var m1 := Step(ops, m).m;
    RunsStep(ops, m1);
    var m2 := Step(ops, m1).m;
    RunsStep(ops, m2);
    m' := Step(ops, m2).m;
    RunsOn(ops, m, m1, [], m2);
    RunsOn(ops, m, m2, [], m');
  }

  lemma StartsFilled(p: IndexPlan, db: Database, db': Database, lim: Limits)
    requires IndexFits(p, db, lim) && Registered(p, db, db', lim)
    ensures IndexFilled(p, db, db', 0, lim)
  {
    hide InsertSorted, TypedTable, SchemaRowFits, SchemaEntry, RoomyPages, HasKey;
    var root := NewRoot(db);
    assert Wf(db'.store[root], 0);
    assert ShapeOf(db', root) == Shape(true, db.pageSize);
  }

  // ---- what the statement does --------------------------------------------------------------------

  // The first row whose value an earlier row has, or the end of the table.
  ghost predicate FirstRepeat(p: IndexPlan, rows: seq<Entry>, stop: nat)
    requires p.col < |p.columns|
  {
    && stop <= |rows| && (stop < |rows| ==> Repeats(p, rows, stop))
    && forall j :: 0 <= j < stop ==> !Repeats(p, rows, j)
  }

  lemma DistinctToTheEnd(p: IndexPlan, rows: seq<Entry>, stop: nat)
    requires p.col < |p.columns| && FirstRepeat(p, rows, stop)
    ensures DistinctValues(p, rows) <==> stop == |rows|
  {
    hide Repeats;
  }

  lemma FilledUpTo(p: IndexPlan, db: Database, db': Database, k: nat, lim: Limits)
    requires IndexFits(p, db, lim) && IndexFilled(p, db, db', k, lim)
    ensures IndexedUpTo(p, db, db', k, lim)
  {
  }

  // After the last row: the new index agrees with the table.
  lemma AllIndexed(p: IndexPlan, db: Database, db': Database, lim: Limits)
    requires IndexFits(p, db, lim) && IndexedUpTo(p, db, db', |Entries(db.store[p.root])|, lim)
    ensures var root := NewRoot(db);
      && p.col < |p.columns| && root in db'.store && p.root in db'.store && Ascending(Entries(db'.store[root]))
      && IndexHolds(p.columns, p.col, Entries(db'.store[p.root]), Entries(db'.store[root]))
  {
    hide InsertSorted, TypedTable, SchemaRowFits, SchemaEntry, RoomyPages, HasKey, IndexHolds, Wf, Sized, Ascending;
    var rows := Entries(db.store[p.root]);
    assert rows[..|rows|] == rows;
  }

  lemma FitsIndexable(p: IndexPlan, db: Database, lim: Limits)
    requires IndexFits(p, db, lim)
    ensures p.root in db.store && Indexable(p, Entries(db.store[p.root]))
  {
  }

  // The main result about CREATE INDEX: its program always stops; it runs to Halt exactly when
  // no two rows of the table have the same value, and then the new index agrees with the table.
  // Otherwise it answers CHIDB_ECONSTRAINT at the first row that repeats a value, and the file
  // keeps the index as far as it got: registered, with the entries of the rows before that one.
  lemma IndexRuns(p: IndexPlan, db: Database, lim: Limits) returns (n: nat, code: ExecCode, end: Machine, stop: nat)
    requires IndexFits(p, db, lim)
    ensures ExecTo(IndexCode(p), Initial(db, 0), n, code, end)
    ensures p.col < |p.columns| && FirstRepeat(p, Entries(db.store[p.root]), stop) && IndexedUpTo(p, db, end.db, stop, lim)
    ensures code == if DistinctValues(p, Entries(db.store[p.root])) then Done else Violated
    ensures code == Done <==> stop == |Entries(db.store[p.root])|
  {
    hide Runs, ExecTo, IndexFilled, IndexedUpTo, IndexFits, Indexable, Repeats, Violates, CodeAt, Step, EnterRow, BothOpen, Entries,
      Registered, IndexCode, Initial, DistinctValues;
    FitsIndexable(p, db, lim);
    IndexableCol(p, Entries(db.store[p.root]));
    IndexPieces(p);
    var ops, m0, rows := IndexCode(p), Initial(db, 0), Entries(db.store[p.root]);
    var m1 := StartRuns(p, db, lim);
    var m2 := RewindRows(ops, m1, p, NewRoot(db), rows);
    RunsOn(ops, m0, m1, [], m2);
    StartsFilled(p, db, m2.db, lim);
    var m3 := m2;
    stop := 0;
    if rows != [] {
      stop, m3 := LoopRuns(ops, m2, p, db, rows, 0, lim);
    }
    DistinctToTheEnd(p, rows, stop);
    if stop < |rows| {
      ViolatesLater(ops, m0, m2, m3);
      n := ViolatesExec(ops, m0, m3);
      code, end := Violated, m3;
    } else {
      end := CloseRuns(ops, m3, p, NewRoot(db), rows);
      if rows != [] {
        RunsOn(ops, m0, m2, [], m3);
      }
      RunsOn(ops, m0, m3, [], end);
      n := RunsExec(ops, m0, end);
      code := Done;
      FilledUpTo(p, db, end.db, stop, lim);
    }
  }

  lemma IndexableCol(p: IndexPlan, rows: seq<Entry>)
    requires Indexable(p, rows)
    ensures p.col < |p.columns|
  {
  }
}
