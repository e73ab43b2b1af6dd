// codegen_insert: the statement is checked, then its program emitted, one group of
// instructions for every index on the table.
module CodegenInserts {
  import opened Common
  import opened Sql
  import opened Values
  import opened Machine
  import opened Planner
  import opened Layout
  import opened Dbms
  import opened Codegens
  import opened InsertLayout

  method FindPrimaryKey(columns: seq<Column>) returns (pk: nat)
    ensures pk == PrimaryKeyIndex(columns)
  {
    for i := 0 to |columns|
      invariant PrimaryKeyIndex(columns) == FirstPrimaryKey(columns, i)
    {
      if columns[i].primaryKey {
        return i;
      }
    }
    pk := 0;
  }

  method CheckLiterals(columns: seq<Column>, values: seq<Literal>) returns (ok: bool)
    ensures ok <==> LiteralsMatch(columns, values)
  {
    if |values| != |columns| {
      return false;
    }
    for i := 0 to |columns|
      invariant forall j :: 0 <= j < i ==> LiteralMatches(values[j], columns[j].dataType)
    {
      if !LiteralMatches(values[i], columns[i].dataType) {
        return false;
      }
    }
    ok := true;
  }

  // The values of a row: NULL for the primary key, the literal for every other column.
  method EmitValues(stmt: Stmt, pc: nat, p: InsertPlan) returns (next: nat)
    requires pc == |stmt.ops| && LiteralsMatch(p.columns, p.values)
    modifies stmt`ops
    ensures stmt.ops == old(stmt.ops) + LoadValues(p) && next == |stmt.ops|
  {
    next := pc;
    for i := 0 to |p.values|
      invariant next == |stmt.ops| && stmt.ops == old(stmt.ops) + LoadValues(p)[..i]
    {
      assert LiteralMatches(p.values[i], p.columns[i].dataType);
      if i == p.pk {
        var addr;
        addr, next := Emit(stmt, next, Op_Null, 0, COLUMN_REG + i, 0, []);
      } else {
        next := EmitLiteral(stmt, next, p.values[i], COLUMN_REG + i);
      }
    }
  }

  method EmitEntry(stmt: Stmt, pc: nat, root: nat, register: nat, cursor: nat, keyReg: nat) returns (next: nat)
    requires pc == |stmt.ops|
    modifies stmt`ops
    ensures next == |stmt.ops|
    ensures stmt.ops == old(stmt.ops) + [MakeOp(Op_Integer, root, register, 0), MakeOp(Op_OpenWrite, cursor, register, 0),
                                         MakeOp(Op_IdxInsert, cursor, keyReg, 1), MakeOp(Op_Close, cursor, 0, 0)]
  {
    var addr;
    addr, next := Emit(stmt, pc, Op_Integer, root, register, 0, []);
    addr, next := Emit(stmt, next, Op_OpenWrite, cursor, register, 0, []);
    addr, next := Emit(stmt, next, Op_IdxInsert, cursor, keyReg, 1, []);
    addr, next := Emit(stmt, next, Op_Close, cursor, 0, 0, []);
  }

  lemma {:induction false} EntriesOfPrefix(p: InsertPlan, q: InsertPlan, n: nat)
    requires n <= |q.targets| <= |p.targets| && q == p.(targets := p.targets[..|q.targets|])
    ensures StoreEntries(q, n) == StoreEntries(p, n)
  {
    if n != 0 {
      EntriesOfPrefix(p, q, n - 1);
    }
  }

  // One item of the schema: the code for it when it is an index on the table.
  method EmitItem(stmt: Stmt, pc: nat, item: SchemaItem, table: string, p: InsertPlan, register: nat, cursor: nat)
    returns (next: nat, register': nat, cursor': nat)
    requires pc == |stmt.ops| && 0 < cursor && register == RecordReg(p) + cursor
    modifies stmt`ops
    ensures next == |stmt.ops| && cursor' == cursor + |TargetOf(item, table, p.columns)| && register' == RecordReg(p) + cursor'
    ensures stmt.ops == old(stmt.ops) + ItemCode(p, TargetOf(item, table, p.columns), cursor - 1)
  {
    next, register', cursor' := pc, register, cursor;
    if item.IndexItem? && SameName(item.table, table) && ColumnIndex(p.columns, item.column).Some? {
      var col := ColumnIndex(p.columns, item.column).value;
      next := EmitEntry(stmt, next, item.root, register, cursor, if col == p.pk then 1 else COLUMN_REG + col);
      register', cursor' := register + 1, cursor + 1;
    }
  }

  ghost function ItemCode(p: InsertPlan, target: seq<IndexTarget>, k: nat): seq<Op> {
    if |target| != 1 then []
    else
      var r := RecordReg(p) + 1 + k;
      [MakeOp(Op_Integer, target[0].root, r, 0), MakeOp(Op_OpenWrite, k + 1, r, 0),
       MakeOp(Op_IdxInsert, k + 1, IndexKeyReg(p, target[0].col), 1), MakeOp(Op_Close, k + 1, 0, 0)]
  }

  lemma ItemIsEntry(p: InsertPlan, q: InsertPlan, q': InsertPlan, target: seq<IndexTarget>)
    requires q == p.(targets := q.targets) && q' == p.(targets := q'.targets) && |target| <= 1
    requires q'.targets == q.targets + target
    ensures StoreEntries(q', |q'.targets|) == StoreEntries(q, |q.targets|) + ItemCode(p, target, |q.targets|)
  {
    hide StoreEntries, ItemCode;
    if |target| == 0 {
      assert q' == q;
      NoItem(p, target, |q.targets|);
    } else {
      OneMore(p, q, q', target[0]);
      assert target == [target[0]];
    }
  }

  lemma OneMore(p: InsertPlan, q: InsertPlan, q': InsertPlan, last: IndexTarget)
    requires q == p.(targets := q.targets) && q' == p.(targets := q'.targets) && q'.targets == q.targets + [last]
    ensures StoreEntries(q', |q'.targets|) == StoreEntries(q, |q.targets|) + ItemCode(p, [last], |q.targets|)
  {
    hide StoreEntry, ItemCode;
    EntriesOfPrefix(q', q, |q.targets|);
    EntryIsItem(p, q', |q.targets|);
  }

  lemma NoItem(p: InsertPlan, target: seq<IndexTarget>, k: nat)
    requires |target| != 1
    ensures ItemCode(p, target, k) == []
  {
  }

  lemma EntryIsItem(p: InsertPlan, q: InsertPlan, k: nat)
    requires q == p.(targets := q.targets) && k < |q.targets|
    ensures StoreEntry(q, k) == ItemCode(p, [q.targets[k]], k)
  {
  }

  lemma TargetsNext(schema: seq<SchemaItem>, i: nat, table: string, columns: seq<Column>)
    requires i < |schema|
    ensures TargetsOf(schema[..i + 1], table, columns) == TargetsOf(schema[..i], table, columns) + TargetOf(schema[i], table, columns)
    ensures |TargetOf(schema[i], table, columns)| <= 1
  {
    assert schema[..i + 1][..i] == schema[..i];
  }

  // The walk over the schema; p is the plan without its indexes.
  method EmitEntries(stmt: Stmt, pc: nat, schema: seq<SchemaItem>, table: string, p: InsertPlan) returns (next: nat)
    requires pc == |stmt.ops| && p.targets == []
    modifies stmt`ops
    ensures var q := p.(targets := TargetsOf(schema, table, p.columns));
      stmt.ops == old(stmt.ops) + StoreEntries(q, |q.targets|) && next == |stmt.ops|
  {
    hide TargetsOf, TargetOf, ItemCode;
    next := pc;
    var register, cursor := RecordReg(p) + 1, 1;
    ghost var q := p.(targets := TargetsOf(schema[..0], table, p.columns));
    assert q.targets == [] by { NoTargets(schema, table, p.columns); }
    for i := 0 to |schema|
      invariant q == p.(targets := TargetsOf(schema[..i], table, p.columns))
      invariant register == RecordReg(p) + cursor && cursor == 1 + |q.targets| && next == |stmt.ops|
      invariant stmt.ops == old(stmt.ops) + StoreEntries(q, |q.targets|)
    {
      TargetsNext(schema, i, table, p.columns);
      ghost var target := TargetOf(schema[i], table, p.columns);
      ghost var q' := p.(targets := q.targets + target);
      next, register, cursor := EmitItem(stmt, next, schema[i], table, p, register, cursor);
      ItemIsEntry(p, q, q', target);
      q := q';
    }
    assert schema[..|schema|] == schema;
  }

  lemma NoTargets(schema: seq<SchemaItem>, table: string, columns: seq<Column>)
    ensures TargetsOf(schema[..0], table, columns) == []
  {
  }

  method CodegenInsert(stmt: Stmt, schema: seq<SchemaItem>, table: string, values: seq<Literal>) returns (ok: bool)
    requires stmt.ops == []
    requires FindTable(schema, table).Some? ==>
      var columns := FindTable(schema, table).value.columns;
      columns != [] && columns[PrimaryKeyIndex(columns)].dataType == TypeInt
    modifies stmt`ops
    ensures ok <==> PlanInsert(schema, table, values).Some?
    ensures match PlanInsert(schema, table, values)
      case None => stmt.ops == []
      case Some(p) => ValidInsertPlan(p) && stmt.ops == InsertCode(p)
  {
    hide LoadValues, StoreEntries, TargetsOf;
    var t := FindTable(schema, table);
    if t.None? {
      return false;
    }
    var columns := t.value.columns;
    var pk := FindPrimaryKey(columns);
    ok := CheckLiterals(columns, values);
    if !ok {
      return;
    }
    assert LiteralMatches(values[pk], columns[pk].dataType);
    var p := InsertPlan(t.value.root, columns, pk, values, []);
    ghost var q := p.(targets := TargetsOf(schema, table, columns));
    SameHead(p, q);
    var addr, next := Emit(stmt, 0, Op_Integer, t.value.root, 0, 0, []);
    addr, next := Emit(stmt, next, Op_OpenWrite, 0, 0, |columns|, []);
    addr, next := Emit(stmt, next, Op_Integer, values[pk].i, 1, 0, []);
    assert stmt.ops == OpenInsert(p);
    next := EmitValues(stmt, next, p);
    addr, next := Emit(stmt, next, Op_MakeRecord, COLUMN_REG, |values|, RecordReg(p), []);
    addr, next := Emit(stmt, next, Op_Insert, 0, RecordReg(p), 1, []);
    assert stmt.ops == OpenInsert(p) + LoadValues(p) + StoreRow(p);
    next := EmitEntries(stmt, next, schema, table, p);
    assert stmt.ops == OpenInsert(q) + LoadValues(q) + StoreRow(q) + StoreEntries(q, |q.targets|);
    addr, next := Emit(stmt, next, Op_Close, 0, 0, 0, []);
    addr, next := Emit(stmt, next, Op_Halt, 0, 0, 0, []);
  }

  lemma SameHead(p: InsertPlan, q: InsertPlan)
    requires q == p.(targets := q.targets) && ValidInsertPlan(p) && ValidInsertPlan(q)
    ensures OpenInsert(q) == OpenInsert(p) && LoadValues(q) == LoadValues(p) && StoreRow(q) == StoreRow(p)
  {
  }
}
