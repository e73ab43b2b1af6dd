// What INSERT and CREATE INDEX do to a file, said of the statement and the schema, not of the plan
// or the program they are compiled to.
module UpdateMeaning {
  import opened Common
  import opened Sql
  import opened Values
  import opened Trees
  import opened TreeContents
  import opened TreeInsert
  import opened Machine
  import opened Planner
  import JoinStart
  import opened Dbms
  import opened IndexVisits
  import opened IndexKeeping
  import opened InsertLayout
  import opened InsertRecord
  import opened InsertRun
  import opened InsertKeeping
  import opened IndexLayout
  import opened IndexRun
  import opened IndexFilling
  import opened Naming
  import opened UpdatePlans

  // ---- INSERT ----------------------------------------------------------------------------------------------

  // A row for table t, whose column k is the key column.
  ghost predicate RowFor(schema: seq<SchemaItem>, table: string, values: seq<Literal>, t: SchemaItem, k: nat) {
    && t in schema && t.TableItem? && IsTable(schema, table, t) && RowMatches(t.columns, values)
    && IsKeyColumn(t.columns, k) && k < |values| && values[k].IntLit?
  }

  // The value that a literal stands for.
  function Given(lit: Literal): Value {
    match lit
    case IntLit(i) => Int(i)
    case TextLit(s) => Str(s)
    case CharLit(c) => Str(if c == 0 then [] else [c])
    case DoubleLit(_) => Unspecified
  }

  // The unsigned number that an integer is stored as in an index.
  function Unsigned32(lit: Literal): nat {
    if lit.IntLit? then lit.i % 0x1_0000_0000 else 0
  }

  // The key column reads back if it is marked as primary key, another one if it is not, or repeats
  // the key.
  predicate ColumnReadsBack(columns: seq<Column>, values: seq<Literal>, k: nat, i: nat)
    requires k < |values| == |columns|
  {
    i < |columns| && if columns[i].primaryKey then values[i] == values[k] else i != k
  }

  function Contents(db: Database, root: nat): seq<Entry> {
    if root in db.store then Entries(db.store[root]) else []
  }

  // Every index of the schema on the table has exactly the pairs of its rows.
  ghost predicate IndexesAgree(schema: seq<SchemaItem>, table: string, t: SchemaItem, db: Database)
    requires t.TableItem?
  {
    forall root: nat, i: nat :: KeepsIndex(schema, table, t.columns, root, i) ==>
      i < |t.columns| && t.root in db.store && root in db.store && IndexHolds(t.columns, i, Contents(db, t.root), Contents(db, root))
  }

  ghost predicate TakenAt(schema: seq<SchemaItem>, table: string, t: SchemaItem, values: seq<Literal>, db: Database, root: nat, i: nat)
    requires t.TableItem?
  {
    KeepsIndex(schema, table, t.columns, root, i) && i < |values| && HasKey(Contents(db, root), Unsigned32(values[i]))
  }

  // Some index of the table has one of the values.
  ghost predicate ValueTaken(schema: seq<SchemaItem>, table: string, t: SchemaItem, values: seq<Literal>, db: Database)
    requires t.TableItem?
  {
    exists root: nat, i: nat :: TakenAt(schema, table, t, values, db, root, i)
  }

  ghost predicate AllReadBack(schema: seq<SchemaItem>, table: string, t: SchemaItem, values: seq<Literal>, k: nat)
    requires t.TableItem? && k < |values| == |t.columns|
  {
    forall root: nat, i: nat :: KeepsIndex(schema, table, t.columns, root, i) ==> ColumnReadsBack(t.columns, values, k, i)
  }

  // The row that was added: under its key, with the literals in the columns that read back.
  ghost predicate IsRow(t: SchemaItem, values: seq<Literal>, k: nat, e: Entry)
    requires t.TableItem? && k < |values| == |t.columns|
  {
    && values[k].IntLit? && e.key == values[k].i && e.pk == 0
    && forall i :: 0 <= i < |t.columns| && ColumnReadsBack(t.columns, values, k, i) ==> ColumnValue(t.columns, e, i) == Given(values[i])
  }

  ghost predicate RowAdded(t: SchemaItem, values: seq<Literal>, k: nat, db: Database, db': Database)
    requires t.TableItem? && k < |values| == |t.columns|
  {
    exists e :: IsRow(t, values, k, e) && Contents(db', t.root) == InsertSorted(Contents(db, t.root), e)
  }

  // What an INSERT does. It succeeds exactly when neither its key nor one of its indexed values is
  // taken, and then every index has one more entry. When the key is taken nothing changes; when
  // only a value is, the row is there. Its indexes agree afterwards exactly when nothing changed, or
  // it succeeded and all indexed columns read back. No other tree changes.
  ghost predicate RowInserted(schema: seq<SchemaItem>, table: string, values: seq<Literal>, t: SchemaItem, k: nat,
                           db: Database, db': Database, code: ExecCode)
    requires RowFor(schema, table, values, t, k)
  {
    var keyTaken, valueTaken := HasKey(Contents(db, t.root), Unsigned32(values[k])), ValueTaken(schema, table, t, values, db);
    && code == (if keyTaken || valueTaken then Violated else Done) && db'.store.Keys == db.store.Keys
    && (keyTaken ==> forall r :: r in db.store ==> Contents(db', r) == Contents(db, r))
    && (!keyTaken ==> RowAdded(t, values, k, db, db'))
    && (code == Done ==> forall root: nat, i: nat :: KeepsIndex(schema, table, t.columns, root, i) && i < |values| ==>
          Contents(db', root) == InsertSorted(Contents(db, root), Entry(Unsigned32(values[i]), [], Unsigned32(values[k]))))
    && (IndexesAgree(schema, table, t, db') <==> keyTaken || (!valueTaken && AllReadBack(schema, table, t, values, k)))
    && forall r :: r in db.store && r != t.root && (forall i: nat :: !KeepsIndex(schema, table, t.columns, r, i)) ==>
         Contents(db', r) == Contents(db, r)
  }

  // The plan is that of this table and this key column.
  ghost predicate PlanOf(schema: seq<SchemaItem>, table: string, values: seq<Literal>, p: InsertPlan, t: SchemaItem) {
    && RowFor(schema, table, values, t, p.pk) && p.root == t.root && p.columns == t.columns && p.values == values
    && forall root: nat, i: nat :: IndexTarget(root, i) in p.targets <==> KeepsIndex(schema, table, t.columns, root, i)
  }

  lemma PlanFound(schema: seq<SchemaItem>, table: string, values: seq<Literal>, p: InsertPlan) returns (t: SchemaItem)
    requires PlanInsert(schema, table, values) == Some(p) && ValidInsertPlan(p)
    ensures PlanOf(schema, table, values, p, t)
  {
    hide PlanInsert, IsTable, RowMatches, IsKeyColumn, KeepsIndex;
    InsertPlanIs(schema, table, values);
    t :| t in schema && IsTable(schema, table, t) && t.TableItem? && p.root == t.root && p.columns == t.columns;
  }

  // Statements about the targets of the plan as statements about the indexes of the schema.
  lemma TargetAt(schema: seq<SchemaItem>, table: string, values: seq<Literal>, p: InsertPlan, t: SchemaItem, root: nat, i: nat) returns (j: nat)
    requires PlanOf(schema, table, values, p, t) && KeepsIndex(schema, table, t.columns, root, i)
    ensures j < |p.targets| && p.targets[j] == IndexTarget(root, i)
  {
    hide KeepsIndex, IsTable;
    assert IndexTarget(root, i) in p.targets;
    j :| 0 <= j < |p.targets| && p.targets[j] == IndexTarget(root, i);
  }

  lemma TargetKept(schema: seq<SchemaItem>, table: string, values: seq<Literal>, p: InsertPlan, t: SchemaItem, j: nat)
    requires PlanOf(schema, table, values, p, t) && j < |p.targets|
    ensures KeepsIndex(schema, table, t.columns, p.targets[j].root, p.targets[j].col)
  {
    hide KeepsIndex, IsTable;
    assert IndexTarget(p.targets[j].root, p.targets[j].col) in p.targets;
  }

  lemma AgreeIs(schema: seq<SchemaItem>, table: string, values: seq<Literal>, p: InsertPlan, t: SchemaItem, db: Database)
    requires PlanOf(schema, table, values, p, t)
    ensures AllHold(p, db) <==> IndexesAgree(schema, table, t, db)
  {
    hide KeepsIndex, IndexHolds, IsTable, RowMatches, IsKeyColumn;
    if AllHold(p, db) {
      forall root: nat, i: nat | KeepsIndex(schema, table, t.columns, root, i)
        ensures i < |t.columns| && t.root in db.store && root in db.store && IndexHolds(t.columns, i, Contents(db, t.root), Contents(db, root))
      {
        var j := TargetAt(schema, table, values, p, t, root, i);
        assert TargetHolds(p, db, j);
      }
    }
    if IndexesAgree(schema, table, t, db) {
      forall j | 0 <= j < |p.targets| ensures TargetHolds(p, db, j) {
        TargetKept(schema, table, values, p, t, j);
      }
    }
  }

  // Numbers as they are stored.
  lemma StoredNumber(i: int)
    requires -0x8000_0000 <= i < 0x8000_0000
    ensures Wrap(i) == i % 0x1_0000_0000
  {
  }

  lemma TargetNumbers(p: InsertPlan, db: Database, j: nat, lim: Limits)
    requires InsertFits(p, db, lim) && j < |p.targets|
    ensures RowFits(p) && TargetFits(p, db, j, lim) && p.targets[j].col < |p.values| && p.targets[j].root in db.store
    ensures TargetEntry(p, j) == Entry(Unsigned32(p.values[p.targets[j].col]), [], Unsigned32(p.values[p.pk]))
    ensures NewKey(p) == Unsigned32(p.values[p.pk]) == p.values[p.pk].i
  {
    hide Buildable, TreeSound, EntrySound;
    FitsAt(p, db, j, lim);
    IndexedLiteral(p, j);
    StoredNumber(p.values[p.targets[j].col].i);
    StoredNumber(p.values[p.pk].i);
  }

  lemma KeyNumber(p: InsertPlan)
    requires RowFits(p)
    ensures ValidInsertPlan(p) && NewKey(p) == Unsigned32(p.values[p.pk]) == p.values[p.pk].i
  {
    hide Buildable;
  }

  lemma TakenIs(schema: seq<SchemaItem>, table: string, values: seq<Literal>, p: InsertPlan, t: SchemaItem, db: Database, lim: Limits)
    requires PlanOf(schema, table, values, p, t) && InsertFits(p, db, lim)
    ensures NothingTaken(p, db, lim) <==>
      !HasKey(Contents(db, t.root), Unsigned32(values[p.pk])) && !ValueTaken(schema, table, t, values, db)
  {
    hide KeepsIndex, RowFits, TreeSound, EntrySound, IsTable, RowMatches, IsKeyColumn, Unsigned32, HasKey, TargetEntry, TargetFits;
    RootThere(p, db, lim);
    forall j: nat | j < |p.targets|
      ensures TargetFits(p, db, j, lim)
      ensures Taken(p, db, j, lim) <==> TakenAt(schema, table, t, values, db, p.targets[j].root, p.targets[j].col)
    {
      TargetNumbers(p, db, j, lim);
      TargetKept(schema, table, values, p, t, j);
    }
    if ValueTaken(schema, table, t, values, db) {
      var root: nat, i: nat :| TakenAt(schema, table, t, values, db, root, i);
      var j := TargetAt(schema, table, values, p, t, root, i);
      assert Taken(p, db, j, lim);
    }
  }

  lemma RootThere(p: InsertPlan, db: Database, lim: Limits)
    requires InsertFits(p, db, lim)
    ensures p.root in db.store && RowFits(p) && NewKey(p) == Unsigned32(p.values[p.pk])
  {
    hide RowFits, TreeSound;
    KeyNumber(p);
  }

  lemma ReadBackIs(schema: seq<SchemaItem>, table: string, values: seq<Literal>, p: InsertPlan, t: SchemaItem)
    requires PlanOf(schema, table, values, p, t) && ValidInsertPlan(p)
    ensures TargetsReadBack(p) <==> AllReadBack(schema, table, t, values, p.pk)
  {
    hide KeepsIndex, IsTable, RowMatches, IsKeyColumn;
    if TargetsReadBack(p) {
      forall root: nat, i: nat | KeepsIndex(schema, table, t.columns, root, i) ensures ColumnReadsBack(t.columns, values, p.pk, i) {
        var j := TargetAt(schema, table, values, p, t, root, i);
      }
    }
    if AllReadBack(schema, table, t, values, p.pk) {
      forall j | 0 <= j < |p.targets| ensures ReadsBack(p, p.targets[j].col) {
        TargetKept(schema, table, values, p, t, j);
      }
    }
  }

  lemma GivenIs(lit: Literal)
    ensures LiteralValue(lit) == Given(lit)
  {
  }

  lemma NewEntryIsRow(schema: seq<SchemaItem>, table: string, values: seq<Literal>, p: InsertPlan, t: SchemaItem)
    requires PlanOf(schema, table, values, p, t) && RowFits(p)
    ensures IsRow(t, values, p.pk, NewEntry(p))
  {
    hide KeepsIndex, IsTable, Buildable, NewRecord, ColumnValue, Given, LiteralValue, IsKeyColumn;
    forall i | 0 <= i < |t.columns| && ColumnReadsBack(t.columns, values, p.pk, i)
      ensures ColumnValue(t.columns, NewEntry(p), i) == Given(values[i])
    {
      RowBack(p, i);
      GivenIs(values[i]);
    }
  }

  lemma OthersAre(schema: seq<SchemaItem>, table: string, values: seq<Literal>, p: InsertPlan, t: SchemaItem, r: nat)
    requires PlanOf(schema, table, values, p, t)
    ensures IsTarget(p, r) <==> exists i: nat :: KeepsIndex(schema, table, t.columns, r, i)
  {
    hide KeepsIndex, IsTable, RowMatches, IsKeyColumn;
    if IsTarget(p, r) {
      var j :| 0 <= j < |p.targets| && p.targets[j].root == r;
      TargetKept(schema, table, values, p, t, j);
    }
    if i: nat :| KeepsIndex(schema, table, t.columns, r, i) {
      var j := TargetAt(schema, table, values, p, t, r, i);
    }
  }

  // What becomes of the indexes when the statement succeeds.
  lemma EntriesAdded(schema: seq<SchemaItem>, table: string, values: seq<Literal>, p: InsertPlan, t: SchemaItem, db: Database, db': Database,
                     lim: Limits, root: nat, i: nat)
    requires PlanOf(schema, table, values, p, t) && InsertFits(p, db, lim) && Progress(p, db, db', |p.targets|, lim)
    requires KeepsIndex(schema, table, t.columns, root, i)
    ensures i < |values| && Contents(db', root) == InsertSorted(Contents(db, root), Entry(Unsigned32(values[i]), [], Unsigned32(values[p.pk])))
  {
    hide KeepsIndex, IsTable, RowMatches, IsKeyColumn, RowFits, TreeSound, EntrySound, InsertSorted, Unsigned32, TargetEntry;
    var j := TargetAt(schema, table, values, p, t, root, i);
    TargetNumbers(p, db, j, lim);
    assert TargetDone(p, db, db', j, |p.targets|, lim);
  }

  // From the plan to the statement.
  lemma InsertMeans(schema: seq<SchemaItem>, table: string, values: seq<Literal>, p: InsertPlan, t: SchemaItem, db: Database, lim: Limits)
    returns (n: nat, code: ExecCode, end: Machine)
    requires PlanOf(schema, table, values, p, t) && InsertFits(p, db, lim) && IndexesAgree(schema, table, t, db)
    ensures ValidInsertPlan(p) && ExecTo(InsertCode(p), JoinStart.Initial(db, 0), n, code, end)
    ensures RowInserted(schema, table, values, t, p.pk, db, end.db, code)
  {
    hide KeepsIndex, IsTable, RowMatches, IsKeyColumn, InsertFits, ExecTo, InsertCode, IndexesAgree, AllHold, HasKey, Unsigned32,
      NothingTaken, ValueTaken, AllReadBack, TargetsReadBack, InsertSorted, Progress, SameEntries, RowAdded, IsTarget, NewEntry, NewKey,
      JoinStart.Initial;
    AgreeIs(schema, table, values, p, t, db);
    RootThere(p, db, lim);
    var stop;
    n, code, end, stop := InsertKeepsIndexes(p, db, lim);
    AgreeIs(schema, table, values, p, t, end.db);
    TakenIs(schema, table, values, p, t, db, lim);
    ReadBackIs(schema, table, values, p, t);
    if HasKey(Contents(db, t.root), Unsigned32(values[p.pk])) {
      SameContents(db, end.db);
    } else {
      RowIsAdded(schema, table, values, p, t, db, end.db, stop, lim);
    }
    if code == Done {
      forall root: nat, i: nat | KeepsIndex(schema, table, t.columns, root, i)
        ensures i < |values| && Contents(end.db, root) == InsertSorted(Contents(db, root), Entry(Unsigned32(values[i]), [], Unsigned32(values[p.pk])))
      {
        EntriesAdded(schema, table, values, p, t, db, end.db, lim, root, i);
      }
    }
    forall r | r in db.store && r != t.root && (forall i: nat :: !KeepsIndex(schema, table, t.columns, r, i))
      ensures Contents(end.db, r) == Contents(db, r)
    {
      OthersAre(schema, table, values, p, t, r);
    }
  }

  lemma SameContents(db: Database, db': Database)
    requires SameEntries(db, db')
    ensures forall r :: r in db.store ==> Contents(db', r) == Contents(db, r)
  {
  }

  lemma RowIsAdded(schema: seq<SchemaItem>, table: string, values: seq<Literal>, p: InsertPlan, t: SchemaItem, db: Database, db': Database,
                   stop: nat, lim: Limits)
    requires PlanOf(schema, table, values, p, t) && InsertFits(p, db, lim) && Progress(p, db, db', stop, lim)
    ensures RowAdded(t, values, p.pk, db, db')
  {
    hide KeepsIndex, IsTable, RowMatches, IsKeyColumn, RowFits, TreeSound, EntrySound, InsertSorted, IsRow, NewEntry, TargetDone;
    RootThere(p, db, lim);
    NewEntryIsRow(schema, table, values, p, t);
  }

  // ---- CREATE INDEX ----------------------------------------------------------------------------------------

  // Two rows have one value in column i.
  ghost predicate SameIn(t: SchemaItem, i: nat, a: Entry, b: Entry)
    requires t.TableItem? && i < |t.columns|
  {
    ColumnValue(t.columns, a, i) == ColumnValue(t.columns, b, i)
  }

  ghost predicate RepeatsIn(t: SchemaItem, i: nat, rows: seq<Entry>, l: nat)
    requires t.TableItem? && i < |t.columns| && l < |rows|
  {
    exists j :: 0 <= j < l && SameIn(t, i, rows[j], rows[l])
  }

  // Field n of a record is text that spells the string.
  ghost predicate FieldSpells(data: seq<byte>, n: nat, s: string) {
    FieldValue(data, n).Some? && FieldValue(data, n).value.Str? && Spells(FieldValue(data, n).value.s, s)
  }

  // The row of the schema table that describes an index.
  ghost predicate DescribesIndex(e: Entry, schema: seq<SchemaItem>, name: string, table: string, root: nat, sql: text) {
    && (forall item :: item in schema ==> item.key < e.key)
    && FieldSpells(e.data, 0, "index") && FieldSpells(e.data, 1, name) && FieldSpells(e.data, 2, table)
    && FieldValue(e.data, 3) == Some(Int(root)) && FieldValue(e.data, 4) == Some(Str(sql))
  }

  ghost predicate IndexDescribed(schema: seq<SchemaItem>, name: string, table: string, sql: text, root: nat, db: Database, db': Database) {
    exists e :: DescribesIndex(e, schema, name, table, root, sql) && Contents(db', 1) == InsertSorted(Contents(db, 1), e)
  }

  // What a CREATE INDEX does. There is a new index, described in the schema table. It holds the pairs
  // of the values of the named column and the keys of the rows, up to the first row that repeats
  // a value: all rows exactly when the statement succeeds. No other tree changes.
  ghost predicate IndexCreated(schema: seq<SchemaItem>, name: string, table: string, sql: text, t: SchemaItem, i: nat, stop: nat,
                               db: Database, db': Database, code: ExecCode)
    requires t.TableItem? && i < |t.columns|
  {
    var rows, root := Contents(db, t.root), db.pages + 1;
    && stop <= |rows| && code == (if stop == |rows| then Done else Violated)
    && (stop < |rows| ==> RepeatsIn(t, i, rows, stop)) && (forall l :: 0 <= l < stop ==> !RepeatsIn(t, i, rows, l))
    && root !in db.store && db'.store.Keys == db.store.Keys + {root} && db'.indexes == db.indexes + {root}
    && IndexHolds(t.columns, i, rows[..stop], Contents(db', root)) && IndexDescribed(schema, name, table, sql, root, db, db')
    && forall r :: r in db.store && r != 1 ==> db'.store[r] == db.store[r]
  }

  ghost predicate IndexMade(schema: seq<SchemaItem>, name: string, table: string, column: string, sql: text,
                            db: Database, db': Database, code: ExecCode) {
    exists t, i: nat, stop: nat :: IndexMadeOn(schema, name, table, column, sql, t, i, stop, db, db', code)
  }

  ghost predicate IndexMadeOn(schema: seq<SchemaItem>, name: string, table: string, column: string, sql: text, t: SchemaItem, i: nat, stop: nat,
                              db: Database, db': Database, code: ExecCode) {
    NamesColumn(schema, table, column, t, i) && IndexCreated(schema, name, table, sql, t, i, stop, db, db', code)
  }

  lemma WordSpells()
    ensures Spells(INDEX_WORD, "index")
  {
    TextSpells("index");
  }

  lemma SchemaRowDescribes(schema: seq<SchemaItem>, name: string, table: string, sql: text, p: IndexPlan, root: nat)
    requires Spells(p.name, name) && Spells(p.table, table) && p.sql == sql && forall item :: item in schema ==> item.key < p.key
    requires SchemaRowFits(p, root)
    ensures DescribesIndex(SchemaEntry(p, root), schema, name, table, root, sql)
  {
    hide Spells, FieldValue, INDEX_WORD, RecordFields;
    SchemaRowBack(p, root);
    WordSpells();
    SchemaKey(p, root);
  }

  lemma SchemaKey(p: IndexPlan, root: nat)
    requires SchemaRowFits(p, root)
    ensures SchemaEntry(p, root).key == p.key
  {
    hide SchemaRecord, RecordFields;
  }

  lemma RepeatIs(t: SchemaItem, p: IndexPlan, rows: seq<Entry>, stop: nat)
    requires t.TableItem? && p.columns == t.columns && p.col < |p.columns| && FirstRepeat(p, rows, stop)
    ensures stop <= |rows| && (stop < |rows| ==> RepeatsIn(t, p.col, rows, stop)) && forall l :: 0 <= l < stop ==> !RepeatsIn(t, p.col, rows, l)
  {
    hide ColumnValue;
    if stop < |rows| {
      var j :| 0 <= j < stop && SameValue(p, rows[j], rows[stop]);
      assert SameIn(t, p.col, rows[j], rows[stop]);
    }
    forall l | 0 <= l < stop ensures !RepeatsIn(t, p.col, rows, l) {
      assert !Repeats(p, rows, l);
      forall j | 0 <= j < l ensures !SameIn(t, p.col, rows[j], rows[l]) {
        assert !SameValue(p, rows[j], rows[l]);
      }
    }
  }

  lemma NewRootIsNew(p: IndexPlan, db: Database, lim: Limits)
    requires IndexFits(p, db, lim)
    ensures NewRoot(db) !in db.store && p.root in db.store && SchemaRowFits(p, NewRoot(db)) && 1 in db.store
  {
    hide SoundAt, TypedTable, SchemaRowFits, EntrySound, SchemaEntry, HasKey, Ascending, RoomyPages;
  }

  // From the plan to the statement.
  lemma IndexMeans(schema: seq<SchemaItem>, name: string, table: string, column: string, sql: text, p: IndexPlan, db: Database, lim: Limits)
    returns (n: nat, code: ExecCode, end: Machine)
    requires PlanIndex(schema, name, table, column, sql) == Some(p) && IndexFits(p, db, lim)
    ensures ExecTo(IndexCode(p), JoinStart.Initial(db, 0), n, code, end)
    ensures IndexMade(schema, name, table, column, sql, db, end.db, code)
  {
    hide PlanIndex, IndexFits, ExecTo, IndexCode, JoinStart.Initial, Spells, IsTable, IsColumn, FirstRepeat, RepeatsIn, DistinctValues,
      SchemaRowFits, SchemaEntry, DescribesIndex, InsertSorted, IndexHolds, SoundAt;
    IndexPlanIs(schema, name, table, column, sql);
    var t :| NamesColumn(schema, table, column, t, p.col) && p.root == t.root && p.columns == t.columns;
    var stop;
    n, code, end, stop := IndexRuns(p, db, lim);
    NewRootIsNew(p, db, lim);
    RepeatIs(t, p, Entries(db.store[p.root]), stop);
    SchemaRowDescribes(schema, name, table, sql, p, NewRoot(db));
    assert IndexMadeOn(schema, name, table, column, sql, t, p.col, stop, db, end.db, code);
  }
}
