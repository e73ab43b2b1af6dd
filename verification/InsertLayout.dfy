// INSERT: what the code generator makes of the statement, and the program (codegen_insert).
module InsertLayout {
  import opened Common
  import opened Sql
  import opened Values
  import opened Trees
  import opened Records
  import opened Machine
  import opened Planner
  import opened Layout
  import opened JoinLayout

  // An index that the statement keeps up to date: its root and the column it is on.
  datatype IndexTarget = IndexTarget(root: nat, col: nat)

  datatype InsertPlan = InsertPlan(root: nat, columns: seq<Column>, pk: nat, values: seq<Literal>, targets: seq<IndexTarget>)

  // The first primary-key column; the first column when there is none.
  function PrimaryKeyIndex(columns: seq<Column>): nat {
    FirstPrimaryKey(columns, 0)
  }

  function FirstPrimaryKey(columns: seq<Column>, i: nat): (r: nat)
    ensures r != 0 && i < |columns| ==> i <= r < |columns| && columns[r].primaryKey
    ensures i < |columns| ==> forall j :: i <= j < r ==> !columns[j].primaryKey
    decreases |columns| - i
  {
    if |columns| <= i then 0
    else if columns[i].primaryKey then i
    else FirstPrimaryKey(columns, i + 1)
  }

  // The indexes on a table, in schema order; an index on a column that does not exist is skipped.
  function TargetsOf(schema: seq<SchemaItem>, table: string, columns: seq<Column>): (r: seq<IndexTarget>)
    ensures forall k :: 0 <= k < |r| ==> r[k].col < |columns|
  {
    if schema == [] then []
    else TargetsOf(schema[..|schema| - 1], table, columns) + TargetOf(schema[|schema| - 1], table, columns)
  }

  function TargetOf(item: SchemaItem, table: string, columns: seq<Column>): (r: seq<IndexTarget>)
    ensures forall k :: 0 <= k < |r| ==> r[k].col < |columns|
  {
    if item.TableItem? || !SameName(item.table, table) then []
    else match ColumnIndex(columns, item.column)
      case None => []
      case Some(i) => [IndexTarget(item.root, i)]
  }

  predicate LiteralsMatch(columns: seq<Column>, values: seq<Literal>) {
    |values| == |columns| && forall i :: 0 <= i < |columns| ==> LiteralMatches(values[i], columns[i].dataType)
  }

  // None is CHIDB_EINVALIDSQL.
  function PlanInsert(schema: seq<SchemaItem>, table: string, values: seq<Literal>): Option<InsertPlan> {
    match FindTable(schema, table)
    case None => None
    case Some(t) =>
      if !LiteralsMatch(t.columns, values) then None
      else Some(InsertPlan(t.root, t.columns, PrimaryKeyIndex(t.columns), values, TargetsOf(schema, table, t.columns)))
  }

  // ---- the program ------------------------------------------------------------------------------

  // Registers: table root 0, key 1, columns from 2, then the record, then one per index.
  const COLUMN_REG: nat := 2

  function RecordReg(p: InsertPlan): nat {
    COLUMN_REG + |p.values|
  }

  predicate ValidInsertPlan(p: InsertPlan) {
    && p.pk < |p.values| == |p.columns| && p.values[p.pk].IntLit?
    && forall k :: 0 <= k < |p.targets| ==> p.targets[k].col < |p.columns|
  }

  function OpenInsert(p: InsertPlan): seq<Op>
    requires ValidInsertPlan(p)
  {
    [MakeOp(Op_Integer, p.root, 0, 0), MakeOp(Op_OpenWrite, 0, 0, |p.columns|), MakeOp(Op_Integer, p.values[p.pk].i, 1, 0)]
  }

  // The primary key is stored as NULL in the record.
  function LoadValues(p: InsertPlan): (code: seq<Op>)
    ensures |code| == |p.values|
  {
    seq(|p.values|, i requires 0 <= i < |p.values| =>
      if i == p.pk then MakeOp(Op_Null, 0, COLUMN_REG + i, 0) else LoadLiteral(p.values[i], COLUMN_REG + i))
  }

  function StoreRow(p: InsertPlan): seq<Op> {
    [MakeOp(Op_MakeRecord, COLUMN_REG, |p.values|, RecordReg(p)), MakeOp(Op_Insert, 0, RecordReg(p), 1)]
  }

  function IndexKeyReg(p: InsertPlan, col: nat): nat {
    if col == p.pk then 1 else COLUMN_REG + col
  }

  function StoreEntry(p: InsertPlan, k: nat): seq<Op>
    requires k < |p.targets|
  {
    var r := RecordReg(p) + 1 + k;
    [MakeOp(Op_Integer, p.targets[k].root, r, 0), MakeOp(Op_OpenWrite, k + 1, r, 0),
     MakeOp(Op_IdxInsert, k + 1, IndexKeyReg(p, p.targets[k].col), 1), MakeOp(Op_Close, k + 1, 0, 0)]
  }

  function StoreEntries(p: InsertPlan, n: nat): (code: seq<Op>)
    requires n <= |p.targets|
    ensures |code| == 4 * n
  {
    if n == 0 then [] else StoreEntries(p, n - 1) + StoreEntry(p, n - 1)
  }

  function InsertCode(p: InsertPlan): seq<Op>
    requires ValidInsertPlan(p)
  {
    OpenInsert(p) + LoadValues(p) + StoreRow(p) + StoreEntries(p, |p.targets|)
    + [MakeOp(Op_Close, 0, 0, 0), MakeOp(Op_Halt, 0, 0, 0)]
  }

  // Where the code for the indexes starts.
  function EntriesAt(p: InsertPlan): nat {
    3 + |p.values| + 2
  }

  lemma InsertPieces(p: InsertPlan)
    requires ValidInsertPlan(p)
    ensures var ops := InsertCode(p);
      && CodeAt(ops, 0, OpenInsert(p)) && CodeAt(ops, 3, LoadValues(p)) && CodeAt(ops, 3 + |p.values|, StoreRow(p))
      && CodeAt(ops, EntriesAt(p), StoreEntries(p, |p.targets|))
      && CodeAt(ops, EntriesAt(p) + 4 * |p.targets|, [MakeOp(Op_Close, 0, 0, 0), MakeOp(Op_Halt, 0, 0, 0)])
      && |ops| == EntriesAt(p) + 4 * |p.targets| + 2
  {
    hide CodeAt, LoadValues, StoreEntries, ValidInsertPlan;
    var ops := InsertCode(p);
    assert CodeAt(ops, 0, ops) by { AllOf(ops); }
    var c1, c2, c3, c4 := OpenInsert(p), LoadValues(p), StoreRow(p), StoreEntries(p, |p.targets|);
    CodeSplits(ops, 0, c1 + c2 + c3 + c4, [MakeOp(Op_Close, 0, 0, 0), MakeOp(Op_Halt, 0, 0, 0)]);
    CodeSplits(ops, 0, c1 + c2 + c3, c4);
    CodeSplits(ops, 0, c1 + c2, c3);
    CodeSplits(ops, 0, c1, c2);
  }

  lemma AllOf(ops: seq<Op>)
    ensures CodeAt(ops, 0, ops)
  {
  }

  lemma {:induction false} EntryPiece(ops: seq<Op>, at: nat, p: InsertPlan, n: nat, k: nat)
    requires k < n <= |p.targets| && CodeAt(ops, at, StoreEntries(p, n))
    ensures CodeAt(ops, at + 4 * k, StoreEntry(p, k))
  {
    hide CodeAt;
    CodeSplits(ops, at, StoreEntries(p, n - 1), StoreEntry(p, n - 1));
    if k < n - 1 {
      EntryPiece(ops, at, p, n - 1, k);
    }
  }
}
