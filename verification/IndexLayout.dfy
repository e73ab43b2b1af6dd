// CREATE INDEX: what the code generator makes of the statement, and the program, which
// registers the index in the schema table and then enters every row of the table into it
// (codegen_create_index).
module IndexLayout {
  import opened Common
  import opened Sql
  import opened Values
  import opened Trees
  import opened Records
  import opened Machine
  import opened Planner
  import opened Layout
  import opened JoinLayout

  // key is the key of the schema row, root the root of the table, col the indexed column.
  datatype IndexPlan = IndexPlan(name: text, table: text, sql: text, key: nat, root: nat, columns: seq<Column>, col: nat)

  function TextOf(s: string): (t: text)
    ensures |t| == |s|
  {
    seq(|s|, i requires 0 <= i < |s| => s[i] as int % 0x100)
  }

  // The largest key of the schema table, and one more.
  function MaxKey(schema: seq<SchemaItem>): (m: nat)
    ensures forall item :: item in schema ==> item.key <= m
    ensures m == 0 || exists item :: item in schema && item.key == m
  {
    if schema == [] then 0
    else
      var front := MaxKey(schema[..|schema| - 1]);
      assert schema == schema[..|schema| - 1] + [schema[|schema| - 1]];
      if schema[|schema| - 1].key > front then schema[|schema| - 1].key else front
  }

  // None is CHIDB_EINVALIDSQL: an unknown table or column, or a column that is not an integer.
  function PlanIndex(schema: seq<SchemaItem>, name: string, table: string, column: string, sql: text): Option<IndexPlan> {
    match FindTable(schema, table)
    case None => None
    case Some(t) =>
      match ColumnIndex(t.columns, column)
      case None => None
      case Some(i) =>
        if t.columns[i].dataType != TypeInt then None
        else Some(IndexPlan(TextOf(name), TextOf(table), sql, MaxKey(schema) + 1, t.root, t.columns, i))
  }

  const INDEX_WORD: text := TextOf("index")

  // The new root page is read from register 4, where CreateIndex leaves it.
  function RegisterIndex(p: IndexPlan): seq<Op> {
    [MakeOp(Op_Integer, 1, 0, 0), MakeOp(Op_OpenWrite, 0, 0, 5), MakeOp(Op_CreateIndex, 4, 0, 0),
     Op(Op_String, |INDEX_WORD|, 1, 0, INDEX_WORD), Op(Op_String, |p.name|, 2, 0, p.name),
     Op(Op_String, |p.table|, 3, 0, p.table), Op(Op_String, |p.sql|, 5, 0, p.sql),
     MakeOp(Op_MakeRecord, 1, 5, 6), MakeOp(Op_Integer, p.key, 7, 0), MakeOp(Op_Insert, 0, 6, 7), MakeOp(Op_Close, 0, 0, 0)]
  }

  function OpenIndexed(p: IndexPlan): seq<Op> {
    [MakeOp(Op_OpenWrite, 2, 4, 0), MakeOp(Op_Integer, p.root, 8, 0), MakeOp(Op_OpenRead, 1, 8, |p.columns|)]
  }

  const LOOP: nat := 15
  const AFTER: nat := 19

  function EnterRow(p: IndexPlan): seq<Op> {
    [LoadColumn(p.columns, 1, p.col, 9), MakeOp(Op_Key, 1, 10, 0), MakeOp(Op_IdxInsert, 2, 9, 10), MakeOp(Op_Next, 1, LOOP, 0)]
  }

  function CloseIndexed(): seq<Op> {
    [MakeOp(Op_Close, 1, 0, 0), MakeOp(Op_Close, 2, 0, 0), MakeOp(Op_Halt, 0, 0, 0)]
  }

  function IndexCode(p: IndexPlan): (code: seq<Op>)
    ensures |code| == 22
  {
    RegisterIndex(p) + OpenIndexed(p) + [MakeOp(Op_Rewind, 1, AFTER, 0)] + EnterRow(p) + CloseIndexed()
  }

  lemma IndexPieces(p: IndexPlan)
    ensures var ops := IndexCode(p);
      && CodeAt(ops, 0, RegisterIndex(p)) && CodeAt(ops, 11, OpenIndexed(p)) && CodeAt(ops, 14, [MakeOp(Op_Rewind, 1, AFTER, 0)])
      && CodeAt(ops, LOOP, EnterRow(p)) && CodeAt(ops, AFTER, CloseIndexed())
  {
    hide LoadColumn;
    var ops, c1, c2, c3, c4 := IndexCode(p), RegisterIndex(p), OpenIndexed(p), [MakeOp(Op_Rewind, 1, AFTER, 0)], EnterRow(p);
    assert CodeAt(ops, 0, c1 + c2 + c3 + c4 + CloseIndexed());
    CodeSplits(ops, 0, c1 + c2 + c3 + c4, CloseIndexed());
    CodeSplits(ops, 0, c1 + c2 + c3, c4);
    CodeSplits(ops, 0, c1 + c2, c3);
    CodeSplits(ops, 0, c1, c2);
  }
}
