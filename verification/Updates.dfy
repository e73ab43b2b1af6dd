// INSERT and CREATE INDEX from the statement to the pages of the file.
module Updates {
  import opened Common
  import opened Sql
  import opened TreeInsert
  import opened Machine
  import opened Layout
  import opened JoinStart
  import opened DbFiles
  import opened Dbms
  import opened Sessions
  import opened InsertLayout
  import opened InsertRun
  import opened IndexLayout
  import opened IndexRun
  import opened Planner
  import opened Naming
  import opened UpdatePlans
  import opened UpdateMeaning
  import opened CodegenInserts
  import opened CodegenIndexes

  // ---- programs without rows --------------------------------------------------------------------

  lemma {:induction false} EntriesWidth(p: InsertPlan, k: nat)
    requires k <= |p.targets|
    ensures RowsOfWidth(StoreEntries(p, k), 0)
  {
    if k != 0 {
      EntriesWidth(p, k - 1);
      WidthAppend(StoreEntries(p, k - 1), StoreEntry(p, k - 1), 0);
    }
  }

  lemma InsertWidth(p: InsertPlan)
    requires ValidInsertPlan(p)
    ensures RowsOfWidth(InsertCode(p), 0)
  {
    hide RowsOfWidth, StoreEntries, LoadValues, OpenInsert, StoreRow;
    HeadWidth(p);
    EntriesWidth(p, |p.targets|);
    WidthAppend(OpenInsert(p), LoadValues(p), 0);
    WidthAppend(OpenInsert(p) + LoadValues(p), StoreRow(p), 0);
    WidthAppend(OpenInsert(p) + LoadValues(p) + StoreRow(p), StoreEntries(p, |p.targets|), 0);
    WidthAppend(OpenInsert(p) + LoadValues(p) + StoreRow(p) + StoreEntries(p, |p.targets|),
      [MakeOp(Op_Close, 0, 0, 0), MakeOp(Op_Halt, 0, 0, 0)], 0);
  }

  lemma HeadWidth(p: InsertPlan)
    requires ValidInsertPlan(p)
    ensures RowsOfWidth(OpenInsert(p), 0) && RowsOfWidth(LoadValues(p), 0) && RowsOfWidth(StoreRow(p), 0)
    ensures RowsOfWidth([MakeOp(Op_Close, 0, 0, 0), MakeOp(Op_Halt, 0, 0, 0)], 0)
  {
  }

  lemma IndexWidth(p: IndexPlan)
    ensures RowsOfWidth(IndexCode(p), 0)
  {
  }

  // ---- statements ---------------------------------------------------------------------------------

  // An INSERT is run on a file with room for it whose indexes agree with the table.
  ghost predicate CanInsert(schema: seq<SchemaItem>, table: string, values: seq<Literal>, db: Database, lim: Limits) {
    && (PlanInsert(schema, table, values).Some? ==> InsertFits(PlanInsert(schema, table, values).value, db, lim))
    && (forall t :: t in schema && t.TableItem? && IsTable(schema, table, t) ==> IndexesAgree(schema, table, t, db))
  }

  // The key column of a table is an integer column.
  ghost predicate KeyIsInteger(schema: seq<SchemaItem>, table: string) {
    forall t, k: nat :: t in schema && t.TableItem? && IsTable(schema, table, t) && IsKeyColumn(t.columns, k) ==>
      k < |t.columns| && t.columns[k].dataType == TypeInt
  }

  lemma KeyFound(schema: seq<SchemaItem>, table: string)
    requires KeyIsInteger(schema, table)
    ensures FindTable(schema, table).Some? ==>
      var columns := FindTable(schema, table).value.columns;
      columns != [] && columns[PrimaryKeyIndex(columns)].dataType == TypeInt
  {
    hide FindTable, IsTable, IsKeyColumn;
    if FindTable(schema, table).Some? {
      var t := FindTable(schema, table).value;
      FindTableIs(schema, table, t);
      KeyColumnIs(t.columns);
      assert IsKeyColumn(t.columns, PrimaryKeyIndex(t.columns));
    }
  }

  // An accepted INSERT has done what it says.
  ghost predicate InsertDone(schema: seq<SchemaItem>, table: string, values: seq<Literal>, db: Database, db': Database, code: ExecCode) {
    exists t, k: nat :: InsertDoneIn(schema, table, values, t, k, db, db', code)
  }

  ghost predicate InsertDoneIn(schema: seq<SchemaItem>, table: string, values: seq<Literal>, t: SchemaItem, k: nat,
                               db: Database, db': Database, code: ExecCode) {
    RowFor(schema, table, values, t, k) && RowInserted(schema, table, values, t, k, db, db', code)
  }

  // An INSERT, compiled and run over the pages of a file. It always comes to an end; whatever
  // it did, the file still stores all its trees on pages of their own.
  method ExecInsert(stmt: Stmt, schema: seq<SchemaItem>, table: string, values: seq<Literal>, ghost lim: Limits)
    returns (ok: bool, code: ExecCode)
    requires New(stmt) && CanInsert(schema, table, values, stmt.Db(), lim) && KeyIsInteger(schema, table)
    modifies stmt, stmt.bt.pager
    ensures stmt.Valid() && (ok <==> InsertAccepted(schema, table, values))
    ensures ok ==> InsertDone(schema, table, values, old(stmt.Db()), stmt.Db(), code)
    ensures !ok ==> stmt.Db() == old(stmt.Db())
  {
    hide PlanInsert, InsertFits, RowsOfWidth, ExecTo, FileStored, InsertCode, Initial, FindTable, InsertAccepted, RowInserted, IndexesAgree,
      IsTable, KeyIsInteger;
    KeyFound(schema, table);
    InsertPlanIs(schema, table, values);
    ghost var db, plan := stmt.Db(), PlanInsert(schema, table, values);
    code := Done;
    ok := CodegenInsert(stmt, schema, table, values);
    if ok {
      ghost var t := PlanFound(schema, table, values, plan.value);
      ghost var n, pause, end := InsertMeans(schema, table, values, plan.value, t, db, lim);
      assert InsertDoneIn(schema, table, values, t, plan.value.pk, db, end.db, pause);
      InsertWidth(plan.value);
      code := stmt.Exec(n, pause, end);
    }
  }

  ghost predicate CanIndex(plan: Option<IndexPlan>, db: Database, lim: Limits) {
    plan.Some? ==> IndexFits(plan.value, db, lim)
  }

  // The same for CREATE INDEX.
  method ExecCreateIndex(stmt: Stmt, schema: seq<SchemaItem>, name: string, table: string, column: string, sql: text, ghost lim: Limits)
    returns (ok: bool, code: ExecCode)
    requires New(stmt) && CanIndex(PlanIndex(schema, name, table, column, sql), stmt.Db(), lim)
    modifies stmt, stmt.bt.pager
    ensures stmt.Valid() && (ok <==> IndexAccepted(schema, table, column))
    ensures ok ==> IndexMade(schema, name, table, column, sql, old(stmt.Db()), stmt.Db(), code)
    ensures !ok ==> stmt.Db() == old(stmt.Db())
  {
    hide PlanIndex, IndexFits, RowsOfWidth, ExecTo, FileStored, IndexCode, Initial, IndexMade, IndexAccepted;
    IndexPlanIs(schema, name, table, column, sql);
    ghost var db, plan := stmt.Db(), PlanIndex(schema, name, table, column, sql);
    code := Done;
    ok := CodegenIndex(stmt, schema, name, table, column, sql);
    if ok {
      ghost var n, pause, end := IndexMeans(schema, name, table, column, sql, plan.value, db, lim);
      IndexWidth(plan.value);
      code := stmt.Exec(n, pause, end);
    }
  }
}
