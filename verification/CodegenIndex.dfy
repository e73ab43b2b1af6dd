// codegen_create_index: the program for CREATE INDEX, with the Rewind patched once the address
// behind the loop is known.
module CodegenIndexes {
  import opened Common
  import opened Sql
  import opened Values
  import opened Trees
  import opened Machine
  import opened Planner
  import opened Layout
  import opened Dbms
  import opened Codegens
  import opened IndexLayout

  // chidb_schema_next_key
  method NextKey(schema: seq<SchemaItem>) returns (key: nat)
    ensures key == MaxKey(schema) + 1
    ensures forall item :: item in schema ==> item.key < key
  {
    var max := 0;
    for i := 0 to |schema|
      invariant max == MaxKey(schema[..i])
    {
      assert schema[..i + 1][..i] == schema[..i];
      if schema[i].key > max {
        max := schema[i].key;
      }
    }
    assert schema[..|schema|] == schema;
    key := max + 1;
  }

  ghost predicate Listed(schema: seq<SchemaItem>, key: nat) {
    exists item :: item in schema && item.key == key
  }

  // The next key is free in a schema table that the schema was loaded from.
  lemma NextKeyIsFree(schema: seq<SchemaItem>, rows: seq<Entry>)
    requires forall i :: 0 <= i < |rows| ==> Listed(schema, rows[i].key)
    ensures !HasKey(rows, MaxKey(schema) + 1)
  {
    forall i | 0 <= i < |rows| ensures rows[i].key != MaxKey(schema) + 1 {
      var key := rows[i].key;
      var item :| item in schema && item.key == key;
    }
  }

  method EmitNames(stmt: Stmt, p: IndexPlan) returns (next: nat)
    requires stmt.ops == []
    modifies stmt`ops
    ensures stmt.ops == RegisterIndex(p)[..7] && next == |stmt.ops|
  {
    hide INDEX_WORD;
    var addr;
    addr, next := Emit(stmt, 0, Op_Integer, 1, 0, 0, []);
    addr, next := Emit(stmt, next, Op_OpenWrite, 0, 0, 5, []);
    addr, next := Emit(stmt, next, Op_CreateIndex, 4, 0, 0, []);
    addr, next := Emit(stmt, next, Op_String, |INDEX_WORD|, 1, 0, INDEX_WORD);
    addr, next := Emit(stmt, next, Op_String, |p.name|, 2, 0, p.name);
    addr, next := Emit(stmt, next, Op_String, |p.table|, 3, 0, p.table);
    addr, next := Emit(stmt, next, Op_String, |p.sql|, 5, 0, p.sql);
  }

  method EmitRegistration(stmt: Stmt, p: IndexPlan) returns (next: nat)
    requires stmt.ops == []
    modifies stmt`ops
    ensures stmt.ops == RegisterIndex(p) && next == |stmt.ops| == 11
  {
    next := EmitNames(stmt, p);
    var addr;
    addr, next := Emit(stmt, next, Op_MakeRecord, 1, 5, 6, []);
    addr, next := Emit(stmt, next, Op_Integer, p.key, 7, 0, []);
    addr, next := Emit(stmt, next, Op_Insert, 0, 6, 7, []);
    addr, next := Emit(stmt, next, Op_Close, 0, 0, 0, []);
  }

  method EmitOpens(stmt: Stmt, pc: nat, p: IndexPlan) returns (next: nat)
    requires pc == |stmt.ops|
    modifies stmt`ops
    ensures stmt.ops == old(stmt.ops) + OpenIndexed(p) && next == |stmt.ops| == pc + 3
  {
    var addr;
    addr, next := Emit(stmt, pc, Op_OpenWrite, 2, 4, 0, []);
    addr, next := Emit(stmt, next, Op_Integer, p.root, 8, 0, []);
    addr, next := Emit(stmt, next, Op_OpenRead, 1, 8, |p.columns|, []);
  }

  method EmitLoop(stmt: Stmt, pc: nat, p: IndexPlan) returns (next: nat)
    requires pc == |stmt.ops| == LOOP
    modifies stmt`ops
    ensures stmt.ops == old(stmt.ops) + EnterRow(p) && next == |stmt.ops| == AFTER
  {
    var addr;
    next := pc;
    if p.col < |p.columns| && p.columns[p.col].primaryKey {
      addr, next := Emit(stmt, next, Op_Key, 1, 9, 0, []);
    } else {
      addr, next := Emit(stmt, next, Op_Column, 1, p.col, 9, []);
    }
    addr, next := Emit(stmt, next, Op_Key, 1, 10, 0, []);
    addr, next := Emit(stmt, next, Op_IdxInsert, 2, 9, 10, []);
    addr, next := Emit(stmt, next, Op_Next, 1, pc, 0, []);
  }

  // The Rewind does not know its target until the loop behind it is there.
  method EmitIndex(stmt: Stmt, p: IndexPlan)
    requires stmt.ops == []
    modifies stmt`ops
    ensures stmt.ops == IndexCode(p)
  {
    hide RegisterIndex, EnterRow, OpenIndexed;
    var next := EmitRegistration(stmt, p);
    next := EmitOpens(stmt, next, p);
    var rewind;
    rewind, next := Emit(stmt, next, Op_Rewind, 1, -1, 0, []);
    next := EmitLoop(stmt, next, p);
    assert stmt.ops[rewind] == MakeOp(Op_Rewind, 1, -1, 0);
    stmt.ops := stmt.ops[rewind := stmt.ops[rewind].(p2 := next)];
    assert stmt.ops == RegisterIndex(p) + OpenIndexed(p) + [MakeOp(Op_Rewind, 1, AFTER, 0)] + EnterRow(p);
    var addr;
    addr, next := Emit(stmt, next, Op_Close, 1, 0, 0, []);
    addr, next := Emit(stmt, next, Op_Close, 2, 0, 0, []);
    addr, next := Emit(stmt, next, Op_Halt, 0, 0, 0, []);
  }

  // false is CHIDB_EINVALIDSQL.
  method CodegenIndex(stmt: Stmt, schema: seq<SchemaItem>, name: string, table: string, column: string, sql: text) returns (ok: bool)
    requires stmt.ops == []
    modifies stmt`ops
    ensures ok <==> PlanIndex(schema, name, table, column, sql).Some?
    ensures stmt.ops == if ok then IndexCode(PlanIndex(schema, name, table, column, sql).value) else []
  {
    hide IndexCode, MaxKey;
    var t := FindTable(schema, table);
    if t.None? {
      return false;
    }
    var columns := t.value.columns;
    var i := ColumnIndex(columns, column);
    if i.None? || columns[i.value].dataType != TypeInt {
      return false;
    }
    var key := NextKey(schema);
    EmitIndex(stmt, IndexPlan(TextOf(name), TextOf(table), sql, key, t.value.root, columns, i.value));
    ok := true;
  }
}
