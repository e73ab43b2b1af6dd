// The database machine as the program runs it (dbm.c, dbm-ops.c): registers, cursors and
// program counter updated in place, trees read from and written to the pages of the file.
module Dbms {
  import opened Common
  import opened Values
  import opened Records
  import opened Trees
  import opened TreeSnapshot
  import opened TreePages
  import opened Machine
  import opened MachineRun
  import opened Pages
  import opened PageNodes
  import opened BtreeReps
  import opened Btrees
  import opened DbFiles
  import opened DbmCursors
  import opened RecordBuffers

  datatype ReturnCode = CodeOk | CodeRow | CodeConstraint

  // A handler did what the instruction means.
  predicate Answers(r: Result, code: ReturnCode, m: Machine) {
    match r
    case Ok(m') => code == CodeOk && m == m'
    case Row(m') => code == CodeRow && m == m'
    case Constraint(m') => code == CodeConstraint && m == m'
    case Undefined => false
  }

  // How a call of chidb_stmt_exec ends.
  datatype ExecCode = Done | Yielded | Violated

  // n turns of the fetch loop lead to a pause: the end of the program, a row, or a violated
  // constraint.
  ghost predicate ExecTo(ops: seq<Op>, m: Machine, n: nat, code: ExecCode, m': Machine)
    decreases n
  {
    if |ops| <= m.pc then n == 0 && code == Done && m' == m
    else
      0 < n && match Step(ops, m)
               case Ok(m1) => ExecTo(ops, m1, n - 1, code, m')
               case Row(m1) => n == 1 && code == Yielded && m' == m1
               case Constraint(m1) => n == 1 && code == Violated && m' == m1
               case Undefined => false
  }

  // Every row the program yields has n columns.
  ghost predicate RowsOfWidth(ops: seq<Op>, n: nat) {
    forall i :: 0 <= i < |ops| && ops[i].code == Op_ResultRow ==> ops[i].p2 == n
  }

  lemma KeepsWidth(ops: seq<Op>, m: Machine, n: nat)
    requires RowsOfWidth(ops, n) && m.nRR == n && m.pc < |ops|
    ensures Step(ops, m) != Undefined ==> Step(ops, m).m.nRR == n
  {
  }

  class Stmt {
    const bt: BTree
    var ops: seq<Op>
    var pc: nat
    var regs: seq<Value>
    var cursors: seq<Cursor>
    var startRR: nat
    var nRR: nat
    // The number of columns of a row.
    var nCols: nat
    // What the pages of the file stand for.
    ghost var store: map<nat, Tree>
    ghost var indexes: set<nat>

    // chidb_stmt_init
    constructor (bt: BTree, ghost store: map<nat, Tree>, ghost indexes: set<nat>)
      requires bt.pager.Valid() && FileStored(Database(store, indexes, bt.pager.nPages, bt.pager.pageSize), bt.pager.pages)
      ensures Valid() && this.bt == bt && ops == [] && this.store == store && this.indexes == indexes && nCols == 0
      ensures State() == Machine(0, Filled(10), seq(10, i => Closed), Db(), 0, 0)
    {
      this.bt := bt;
      ops, pc, regs, cursors, startRR, nRR, nCols := [], 0, Filled(10), seq(10, i => Closed), 0, 0, 0;
      this.store, this.indexes := store, indexes;
    }

    ghost function Db(): Database
      reads this, bt.pager
    {
      Database(store, indexes, bt.pager.nPages, bt.pager.pageSize)
    }

    ghost function State(): Machine
      reads this, bt.pager
    {
      Machine(pc, regs, cursors, Db(), startRR, nRR)
    }

    ghost predicate Valid()
      reads this, bt.pager
    {
      bt.pager.Valid() && FileStored(Db(), bt.pager.pages)
    }

    // ---- the growing arrays -------------------------------------------------------------------------

    // realloc_ops
    method EnsureOps(n: nat)
      modifies this`ops
      ensures |ops| == (if n <= |old(ops)| then |old(ops)| else n) && ops[..|old(ops)|] == old(ops)
      ensures forall i :: |old(ops)| <= i < |ops| ==> ops[i] == Op(Op_Noop, 0, 0, 0, [])
    {
      while |ops| < n
        invariant |old(ops)| <= |ops| && (|ops| <= n || ops == old(ops)) && ops[..|old(ops)|] == old(ops)
        invariant forall i :: |old(ops)| <= i < |ops| ==> ops[i] == Op(Op_Noop, 0, 0, 0, [])
        decreases n - |ops|
      {
        ops := ops + [Op(Op_Noop, 0, 0, 0, [])];
      }
    }

    // chidb_stmt_set_op; the length of ops is endOp.
    method SetOp(op: Op, pos: nat)
      modifies this`ops
      ensures |ops| == (if pos < |old(ops)| then |old(ops)| else pos + 1) && ops[pos] == op
      ensures forall i :: 0 <= i < |old(ops)| && i != pos ==> ops[i] == old(ops)[i]
    {
      EnsureOps(pos + 1);
      ghost var grown := ops;
      assert forall i :: 0 <= i < |old(ops)| ==> grown[i] == grown[..|old(ops)|][i];
      ops := ops[pos := op];
    }

    // realloc_reg and the write that follows it.
    method WriteReg(r: nat, v: Value)
      modifies this`regs
      ensures regs == SetReg(old(regs), r, v)
    {
      while |regs| <= r
        invariant regs == old(regs) + Filled(|regs| - |old(regs)|) && |old(regs)| <= |regs|
        invariant |regs| <= r + 1 || regs == old(regs)
        decreases r + 1 - |regs|
      {
        regs := regs + [Unspecified];
      }
      regs := regs[r := v];
    }

    // realloc_cur and the write that follows it.
    method WriteCursor(c: nat, v: Cursor)
      modifies this`cursors
      ensures cursors == SetCursor(old(cursors), c, v)
    {
      while |cursors| <= c
        invariant |old(cursors)| <= |cursors| && (|cursors| <= c + 1 || cursors == old(cursors))
        invariant cursors == old(cursors) + seq(|cursors| - |old(cursors)|, i => Closed)
        decreases c + 1 - |cursors|
      {
        cursors := cursors + [Closed];
      }
      cursors := cursors[c := v];
    }

    // ---- handlers -------------------------------------------------------------------------------------

    // chidb_dbm_op_OpenRead and OpenWrite, with chidb_Cursor_open
    method HandleOpen(op: Op) returns (code: ReturnCode)
      requires Valid() && OpenCursor(op, State()) != Undefined
      modifies this`cursors
      ensures Valid() && Answers(OpenCursor(op, old(State())), code, State())
    {
      hide Rep, Distinct, Plain, TreeInFile, FileStored, NodeStored, PagesWithin, Loaded;
      var root := Wrap(regs[op.p2].i);
      ghost var sh, t := ShapeOf(Db(), root), store[root];
      FileTree(Db(), bt.pager.pages, root);
      TreeParts(Db(), bt.pager.pages, root);
      var out := new Collector();
      CollectPage(bt, root, out, sh, t);
      var btn := bt.LoadNode(sh, t, root);
      LoadedFields(btn, sh, t);
      var index := btn.ptype == INDEX_INTERNAL || btn.ptype == INDEX_LEAF;
      assert [] + Collect(sh.index, t) == Collect(sh.index, t);
      WriteCursor(op.p1, Open(root, index, out.entries, -1));
      code := CodeOk;
    }

    // chidb_dbm_op_Close
    method HandleClose(op: Op) returns (code: ReturnCode)
      requires Valid() && IsOpen(State(), op.p1)
      modifies this`cursors
      ensures Valid() && code == CodeOk && State() == old(State()).(cursors := old(cursors)[op.p1 := Closed])
    {
      cursors := cursors[op.p1 := Closed];
      code := CodeOk;
    }

    // chidb_dbm_op_Rewind, Next and Prev
    method HandleMove(op: Op) returns (code: ReturnCode)
      requires Valid() && MoveCursor(op, State()) != Undefined
      modifies this`cursors, this`pc
      ensures Valid() && Answers(MoveCursor(op, old(State())), code, State())
    {
      hide FileStored;
      var c := cursors[op.p1];
      code := CodeOk;
      if op.code == Op_Rewind {
        var empty := |c.snapshot| == 0;
        cursors := cursors[op.p1 := c.(pos := if empty then -1 else 0)];
        if empty {
          pc := Address(op.p2);
        }
      } else {
        var step := if op.code == Op_Next then 1 else -1;
        var moved := if op.code == Op_Next then c.pos + 1 < |c.snapshot| else c.pos - 1 >= 0;
        if moved {
          cursors := cursors[op.p1 := c.(pos := c.pos + step)];
          pc := Address(op.p2);
        }
      }
    }

    // chidb_dbm_op_Seek, SeekGt, SeekGe, SeekLt and SeekLe
    method HandleSeek(op: Op) returns (code: ReturnCode)
      requires Valid() && SeekCursor(op, State()) != Undefined
      modifies this`cursors, this`pc
      ensures Valid() && Answers(SeekCursor(op, old(State())), code, State())
    {
      hide FileStored;
      var key, c := Wrap(regs[op.p3].i), cursors[op.p1];
      var found: Option<nat>;
      if SeeksForward(op.code) {
        found := SeekFirst(op.code, c.snapshot, key);
      } else {
        found := SeekLast(op.code, c.snapshot, key);
      }
      match found {
        case Some(i) => cursors := cursors[op.p1 := c.(pos := i)];
        case None => pc := Address(op.p2);
      }
      code := CodeOk;
    }

    // chidb_dbm_op_Column, Key and IdxPKey
    method HandleRead(op: Op) returns (code: ReturnCode)
      requires Valid() && ReadEntry(op, State()) != Undefined
      modifies this`regs
      ensures Valid() && Answers(ReadEntry(op, old(State())), code, State())
    {
      hide FileStored, FieldValue;
      var e := cursors[op.p1].snapshot[cursors[op.p1].pos];
      if op.code == Op_Column {
        var v := ReadColumn(e.data, op.p2);
        WriteReg(op.p3, v);
      } else if op.code == Op_Key {
        WriteReg(op.p2, Int(Unwrap(e.key)));
      } else {
        WriteReg(op.p2, Int(Unwrap(e.pk)));
      }
      code := CodeOk;
    }

    // chidb_dbm_op_Integer, String and Null
    method HandleConstant(op: Op) returns (code: ReturnCode)
      requires Valid() && LoadConstant(op, State()) != Undefined
      modifies this`regs
      ensures Valid() && Answers(LoadConstant(op, old(State())), code, State())
    {
      hide FileStored;
      if op.code == Op_Integer {
        WriteReg(op.p2, Int(op.p1));
      } else if op.code == Op_String {
        WriteReg(op.p2, Str(op.p4));
      } else {
        WriteReg(op.p2, Null);
      }
      code := CodeOk;
    }

    // chidb_dbm_op_Eq, Ne, Lt, Le, Gt and Ge
    method HandleCompare(op: Op) returns (code: ReturnCode)
      requires Valid() && CompareRegs(op, State()) != Undefined
      modifies this`pc
      ensures Valid() && Answers(CompareRegs(op, old(State())), code, State())
    {
      hide FileStored, Order;
      var order := Order(regs[op.p3], regs[op.p1]);
      if JumpsOn(op.code, order) {
        pc := Address(op.p2);
      }
      code := CodeOk;
    }

    // chidb_dbm_op_ResultRow
    method HandleResultRow(op: Op) returns (code: ReturnCode)
      requires Valid() && YieldRow(op, State()) != Undefined
      modifies this`startRR, this`nRR
      ensures Valid() && Answers(YieldRow(op, old(State())), code, State())
    {
      hide FileStored;
      startRR, nRR := op.p1, op.p2;
      code := CodeRow;
    }

    // chidb_dbm_op_MakeRecord
    method HandleMakeRecord(op: Op) returns (code: ReturnCode)
      requires Valid() && PackRegs(op, State()) != Undefined
      modifies this`regs
      ensures Valid() && Answers(PackRegs(op, old(State())), code, State())
    {
      hide FileStored, RecordFields, Buildable, Packed;
      var range := regs[op.p1..op.p1 + op.p2];
      var buffer := BuildRecord(range);
      BuildableParts(RecordFields(range));
      var r, packedLen := buffer.Finalize();
      var packed := Pack(r, packedLen, RecordFields(range));
      WriteReg(op.p3, Bytes(packed[..]));
      code := CodeOk;
    }

    // chidb_dbm_op_Insert
    method HandleInsert(op: Op) returns (code: ReturnCode)
      requires Valid() && InsertRow(op, State()) != Undefined && op.code == Op_Insert
      modifies this`store, bt.pager
      ensures Valid() && Answers(InsertRow(op, old(State())), code, State())
    {
      hide FileStored, RootInsertable, Trees.Insert;
      var key, data := Wrap(regs[op.p3].i), regs[op.p2].b;
      code := InsertInto(op, cursors[op.p1].root, TableLeaf(key, data), Entry(key, data, 0));
    }

    // chidb_dbm_op_IdxInsert
    method HandleIdxInsert(op: Op) returns (code: ReturnCode)
      requires Valid() && InsertIndex(op, State()) != Undefined && op.code == Op_IdxInsert
      modifies this`store, bt.pager
      ensures Valid() && Answers(InsertIndex(op, old(State())), code, State())
    {
      hide FileStored, RootInsertable, Trees.Insert;
      var key, pk := Wrap(regs[op.p2].i), Wrap(regs[op.p3].i);
      code := InsertInto(op, cursors[op.p1].root, IndexLeaf(key, pk), Entry(key, [], pk));
    }

    // chidb_dbm_op_handle
    method Handle(op: Op) returns (code: ReturnCode)
      requires Valid() && Apply(|ops|, op, State()) != Undefined
      modifies this`pc, this`regs, this`cursors, this`startRR, this`nRR, this`store, this`indexes, bt.pager
      ensures Valid() && Answers(Apply(|ops|, op, old(State())), code, State())
    {
      hide FileStored, OpenCursor, MoveCursor, SeekCursor, ReadEntry, LoadConstant, CompareRegs, YieldRow, PackRegs,
        InsertRow, InsertIndex, CreateTree;
      match op.code {
        case Op_Noop => code := CodeOk;
        case Op_OpenRead => code := HandleOpen(op);
        case Op_OpenWrite => code := HandleOpen(op);
        case Op_Close => code := HandleClose(op);
        case Op_Rewind => code := HandleMove(op);
        case Op_Next => code := HandleMove(op);
        case Op_Prev => code := HandleMove(op);
        case Op_Seek => code := HandleSeek(op);
        case Op_SeekGt => code := HandleSeek(op);
        case Op_SeekGe => code := HandleSeek(op);
        case Op_SeekLt => code := HandleSeek(op);
        case Op_SeekLe => code := HandleSeek(op);
        case Op_Column => code := HandleRead(op);
        case Op_Key => code := HandleRead(op);
        case Op_IdxPKey => code := HandleRead(op);
        case Op_Integer => code := HandleConstant(op);
        case Op_String => code := HandleConstant(op);
        case Op_Null => code := HandleConstant(op);
        case Op_ResultRow => code := HandleResultRow(op);
        case Op_MakeRecord => code := HandleMakeRecord(op);
        case Op_Insert => code := HandleInsert(op);
        case Op_Eq => code := HandleCompare(op);
        case Op_Ne => code := HandleCompare(op);
        case Op_Lt => code := HandleCompare(op);
        case Op_Le => code := HandleCompare(op);
        case Op_Gt => code := HandleCompare(op);
        case Op_Ge => code := HandleCompare(op);
        case Op_IdxInsert => code := HandleIdxInsert(op);
        case Op_CreateTable => code := HandleCreate(op);
        case Op_CreateIndex => code := HandleCreate(op);
        case Op_Halt => {
          pc := |ops|;
          code := CodeOk;
        }
      }
    }

    // chidb_stmt_exec: instructions are run until one does not answer CHIDB_OK or the
    // program ends; the next call goes on from there.
    method Exec(ghost n: nat, ghost pause: ExecCode, ghost end: Machine) returns (code: ExecCode)
      requires Valid() && ExecTo(ops, State(), n, pause, end)
      requires RowsOfWidth(ops, nCols) && nRR == nCols
      modifies this`pc, this`regs, this`cursors, this`startRR, this`nRR, this`store, this`indexes, bt.pager
      ensures Valid() && code == pause && State() == end && nRR == nCols
    {
      hide FileStored, Apply, RowsOfWidth;
      ghost var k := n;
      while pc < |ops|
        invariant Valid() && ops == old(ops) && ExecTo(ops, State(), k, pause, end)
        invariant nRR == nCols
        decreases k
      {
        KeepsWidth(ops, State(), nCols);
        var op := ops[pc];
        pc := pc + 1;
        var rc := Handle(op);
        if rc != CodeOk {
          return if rc == CodeRow then Yielded else Violated;
        }
        k := k - 1;
      }
      code := Done;
    }

    // chidb_dbm_op_Insert and IdxInsert, with the translation of the duplicate code
    method InsertInto(op: Op, root: nat, cell: Cell, ghost e: Entry) returns (code: ReturnCode)
      requires Valid() && root in store && cell == EntryCell(root in indexes, e) && PlainEntry(ShapeOf(Db(), root), e)
      requires RootInsertable(ShapeOf(Db(), root), store[root], e, bt.pager.nPages)
      modifies this`store, bt.pager
      ensures Valid() && Answers(InsertEntry(old(State()), root, e), code, State())
    {
      hide Rep, Distinct, Plain, RootInsertable, Trees.Insert, TreeInFile, EntryCell, PlainEntry, FileStored;
      ghost var db, a, sh, t := Db(), bt.pager.pages, ShapeOf(Db(), root), store[root];
      FileTree(db, a, root);
      TreeParts(db, a, root);
      InsertableFits(sh, t, e, bt.pager.nPages);
      var duplicate := bt.Insert(root, cell, sh, t, e);
      store := store[root := Trees.Insert(sh, t, e, db.pages).tree];
      InsertKeepsFile(db, a, bt.pager.pages, root, e);
      code := if duplicate then CodeConstraint else CodeOk;
    }

    // chidb_dbm_op_CreateTable and CreateIndex
    method HandleCreate(op: Op) returns (code: ReturnCode)
      requires Valid() && CreateTree(op, State()) != Undefined
      requires op.code == Op_CreateTable || op.code == Op_CreateIndex
      modifies this`store, this`indexes, this`regs, bt.pager
      ensures Valid() && Answers(CreateTree(op, old(State())), code, State())
    {
      hide Rep, Distinct, Plain, TreeInFile, FileStored, PageHolds;
      ghost var db, a := Db(), bt.pager.pages;
      var index := op.code == Op_CreateIndex;
      var root := bt.NewNode(if index then INDEX_LEAF else TABLE_LEAF);
      store := store[root := Leaf(root, [])];
      indexes := if index then indexes + {root} else indexes - {root};
      NewLeafStored(Shape(index, db.pageSize), bt.pager.pages, root);
      CreateKeepsFile(db, a, bt.pager.pages, index);
      WriteReg(op.p1, Int(Unwrap(root)));
      code := CodeOk;
    }
  }

  lemma InsertableFits(sh: Shape, t: Tree, e: Entry, n: nat)
    requires RootInsertable(sh, t, e, n)
    ensures EntryFits(sh, e)
  {
  }

  lemma FileTree(db: Database, pages: PageFile, root: nat)
    requires FileStored(db, pages) && root in db.store
    ensures TreeInFile(db, pages, root)
  {
  }

  lemma TreeParts(db: Database, pages: PageFile, root: nat)
    requires root in db.store && TreeInFile(db, pages, root)
    ensures var t := db.store[root];
      && t.page == root && Rep(ShapeOf(db, root), pages, t) && NodeStored(ShapeOf(db, root), pages, t)
      && PagesWithin(PagesOf(t), db.pages) && Plain(ShapeOf(db, root), Entries(t)) && 0 < root <= db.pages
  {
    hide NodeStored, Plain;
    RootWithin(db.store[root], db.pages);
  }

  lemma NewLeafStored(sh: Shape, pages: PageFile, root: nat)
    requires root in pages && |pages[root]| == sh.pageSize
    requires PageHolds(Base(root), pages[root], NodeType(sh.index, true), [], 0)
    ensures NodeStored(sh, pages, Leaf(root, []))
  {
    hide PageHolds;
    assert LeafCells(sh.index, []) == [];
  }

  // ---- records --------------------------------------------------------------------------------------

  // The field a register adds to a record, if any.
  function RegisterField(v: Value): Option<Field> {
    match v
    case Null => Some(NullField)
    case Int(i) => Some(Int32(i))
    case Str(s) => Some(Text(s))
    case _ => None
  }

  lemma EmptyFields(range: seq<Value>)
    ensures RecordFields(range[..0]) == []
  {
  }

  lemma FieldsNext(range: seq<Value>, i: nat)
    requires i < |range|
    ensures RecordFields(range[..i + 1]) == RecordFields(range[..i])
              + (match RegisterField(range[i]) case None => [] case Some(f) => [f])
    ensures |RecordFields(range[..i + 1])| <= |RecordFields(range)|
    ensures RecordFields(range)[..|RecordFields(range[..i + 1])|] == RecordFields(range[..i + 1])
  {
    assert range[..i + 1][..i] == range[..i];
    FieldsPrefix(range, i + 1);
  }

  lemma {:induction false} FieldsPrefix(range: seq<Value>, i: nat)
    requires i <= |range|
    ensures |RecordFields(range[..i])| <= |RecordFields(range)|
    ensures RecordFields(range)[..|RecordFields(range[..i])|] == RecordFields(range[..i])
    decreases |range|
  {
    if i == |range| {
      assert range[..i] == range;
    } else {
      var front := range[..|range| - 1];
      FieldsPrefix(front, i);
      assert front[..i] == range[..i];
    }
  }

  lemma BuildableParts(fs: seq<Field>)
    requires Buildable(fs)
    ensures AllInRange(fs) && Packable(fs) && |Body(fs)| <= 63 * STEP
    ensures forall i :: 0 <= i < |fs| && fs[i].Text? ==> |fs[i].s| <= STEP
  {
  }

  lemma {:induction false} PrefixSizes(fs: seq<Field>, n: nat)
    requires AllInRange(fs) && n <= |fs|
    ensures AllInRange(fs[..n]) && |Header(fs[..n])| <= |Header(fs)| && |Body(fs[..n])| <= |Body(fs)|
    decreases |fs|
  {
    hide HeaderEntry, FieldBytes;
    if n == |fs| {
      assert fs[..n] == fs;
    } else {
      var front := fs[..|fs| - 1];
      PrefixSizes(front, n);
      assert front[..n] == fs[..n];
    }
  }

  // Reading a column: unpack the record and ask it for the field, by its type.
  method ReadColumn(data: seq<byte>, i: nat) returns (v: Value)
    requires FieldValue(data, i).Some?
    ensures Some(v) == FieldValue(data, i)
  {
    hide ReadTypes, DataLength, GetField, GetType;
    var r := UnpackRecord(data);
    var t := GetType(r.value.types[i]);
    TypeOfField(r.value, i);
    if t == SQL_NULL {
      v := Null;
    } else if t == SQL_INTEGER_1BYTE {
      var n := GetInt8(r.value, i);
      v := Int(n);
    } else if t == SQL_INTEGER_2BYTE {
      var n := GetInt16(r.value, i);
      v := Int(n);
    } else if t == SQL_INTEGER_4BYTE {
      var n := GetInt32(r.value, i);
      v := Int(n);
    } else {
      var s := GetString(r.value, i);
      v := Str(s);
    }
  }

  lemma TypeOfField(r: Record, i: nat)
    requires HasField(r, i)
    ensures GetType(r.types[i]) in {SQL_NULL as int, SQL_INTEGER_1BYTE, SQL_INTEGER_2BYTE, SQL_INTEGER_4BYTE, SQL_TEXT}
    ensures GetType(r.types[i]) == SQL_NULL ==> GetField(r, i) == Some(NullField)
  {
  }

  // The loop of MakeRecord over a range of registers.
  method BuildRecord(range: seq<Value>) returns (buffer: DBRecordBuffer)
    requires Buildable(RecordFields(range)) && |range| < 0x100
    ensures fresh(buffer) && buffer.Valid() && buffer.fields == RecordFields(range)
  {
    hide RecordFields, Buildable, RegisterField;
    ghost var fs := RecordFields(range);
    BuildableParts(fs);
    buffer := new DBRecordBuffer(|range|);
    EmptyFields(range);
    for i := 0 to |range|
      invariant buffer.Valid() && buffer.fields == RecordFields(range[..i]) && |buffer.fields| <= i
      invariant buffer.types.Length == |range| && fresh(buffer.types) && fresh(buffer.offsets) && fresh(buffer.data)
    {
      FieldsNext(range, i);
      AppendRegister(buffer, range[i], fs);
    }
    assert range[..|range|] == range;
  }

  // A register joins the record, unless its kind is skipped.
  method AppendRegister(buffer: DBRecordBuffer, v: Value, ghost fs: seq<Field>)
    requires buffer.Valid() && |buffer.fields| < buffer.types.Length
    requires AllInRange(fs) && Packable(fs) && |Body(fs)| <= 63 * STEP
    requires forall i :: 0 <= i < |fs| && fs[i].Text? ==> |fs[i].s| <= STEP
    requires RegisterField(v).Some? ==> |buffer.fields| < |fs| && fs[..|buffer.fields| + 1] == buffer.fields + [RegisterField(v).value]
    modifies buffer, buffer.types, buffer.offsets, buffer.data
    ensures buffer.Valid() && buffer.types == old(buffer.types) && buffer.offsets == old(buffer.offsets)
    ensures buffer.data == old(buffer.data) || fresh(buffer.data)
    ensures buffer.fields == old(buffer.fields) + (match RegisterField(v) case None => [] case Some(f) => [f])
  {
    hide Body, Header, InRange;
    if RegisterField(v).Some? {
      ghost var n := |buffer.fields|;
      PrefixSizes(fs, n + 1);
      assert fs[n] == fs[..n + 1][n];
    }
    match v {
      case Null => buffer.AppendNull();
      case Int(i) => buffer.AppendInt32(i);
      case Str(s) => buffer.AppendString(s);
      case _ =>
    }
  }
}
