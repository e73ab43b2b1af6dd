// The database machine: instructions, cursors, and the effect of one instruction
// (dbm-ops.c, dbm-cursor.c).
module Machine {
  import opened Common
  import opened Sql
  import opened Values
  import opened Records
  import opened Trees
  import opened TreeSnapshot
  import Btrees

  datatype Opcode =
    | Op_Noop | Op_OpenRead | Op_OpenWrite | Op_Close
    | Op_Rewind | Op_Next | Op_Prev
    | Op_Seek | Op_SeekGt | Op_SeekGe | Op_SeekLt | Op_SeekLe
    | Op_Column | Op_Key | Op_Integer | Op_String | Op_Null
    | Op_ResultRow | Op_MakeRecord | Op_Insert
    | Op_Eq | Op_Ne | Op_Lt | Op_Le | Op_Gt | Op_Ge
    | Op_IdxPKey | Op_IdxInsert | Op_CreateTable | Op_CreateIndex | Op_Halt

  datatype Op = Op(code: Opcode, p1: int, p2: int, p3: int, p4: text)

  // A cursor owns the snapshot of its tree taken when it was opened. Position -1
  // means unpositioned.
  datatype Cursor = Closed | Open(root: nat, index: bool, snapshot: seq<Entry>, pos: int)

  // The trees of the file by root page, which of them are indexes, and the page count.
  datatype Database = Database(store: map<nat, Tree>, indexes: set<nat>, pages: nat, pageSize: nat)

  datatype Machine = Machine(pc: nat, regs: seq<Value>, cursors: seq<Cursor>, db: Database, startRR: nat, nRR: nat)

  // Outcome of one instruction. Undefined stands for what the C code leaves
  // undefined: a register or cursor that does not exist, a read through a cursor
  // that is not positioned, a comparison of values of different kinds, an insertion
  // into a tree of the other kind or without the room it needs.
  datatype Result = Ok(m: Machine) | Row(m: Machine) | Constraint(m: Machine) | Undefined

  // ---- integers ------------------------------------------------------------------------

  // int32_t to uint32_t and back.
  function Wrap(i: int): nat
    requires -0x8000_0000 <= i < 0x8000_0000
  {
    if i < 0 then i + 0x1_0000_0000 else i
  }

  function Unwrap(u: nat): int {
    if u < 0x8000_0000 then u else u - 0x1_0000_0000
  }

  predicate IsInt32(v: Value) {
    v.Int? && -0x8000_0000 <= v.i < 0x8000_0000
  }

  // ---- registers and cursors -------------------------------------------------------------

  function Filled(n: nat): (s: seq<Value>)
    ensures |s| == n && forall i :: 0 <= i < n ==> s[i] == Unspecified
  {
    seq(n, i => Unspecified)
  }

  // A write to a register that does not exist yet grows the register file up to it.
  function SetReg(regs: seq<Value>, r: nat, v: Value): (s: seq<Value>)
    ensures |s| == (if r < |regs| then |regs| else r + 1)
    ensures s[r] == v
    ensures forall i :: 0 <= i < |regs| && i != r ==> s[i] == regs[i]
  {
    if r < |regs| then regs[r := v] else regs + Filled(r - |regs|) + [v]
  }

  function SetCursor(cursors: seq<Cursor>, c: nat, v: Cursor): (s: seq<Cursor>)
    ensures |s| == (if c < |cursors| then |cursors| else c + 1)
    ensures s[c] == v
    ensures forall i :: 0 <= i < |cursors| && i != c ==> s[i] == cursors[i]
  {
    if c < |cursors| then cursors[c := v] else cursors + seq(c - |cursors|, i => Closed) + [v]
  }

  predicate IsOpen(m: Machine, c: int) {
    0 <= c < |m.cursors| && m.cursors[c].Open?
  }

  predicate IsPositioned(m: Machine, c: int) {
    IsOpen(m, c) && 0 <= m.cursors[c].pos < |m.cursors[c].snapshot|
  }

  function CurrentEntry(m: Machine, c: int): Entry
    requires IsPositioned(m, c)
  {
    m.cursors[c].snapshot[m.cursors[c].pos]
  }

  predicate HasReg(m: Machine, r: int) {
    0 <= r < |m.regs|
  }

  predicate HasInt(m: Machine, r: int) {
    HasReg(m, r) && IsInt32(m.regs[r])
  }

  // An address stored in a program counter of unsigned type.
  function Address(p: int): nat {
    if p < 0 then p + 0x1_0000_0000 * ((-p) / 0x1_0000_0000 + 1) else p
  }

  function Jump(m: Machine, p: int): Machine {
    m.(pc := Address(p))
  }

  // ---- seeks -------------------------------------------------------------------------------

  predicate SeekMatches(code: Opcode, entryKey: nat, key: nat) {
    match code
    case Op_Seek => entryKey == key
    case Op_SeekGt => entryKey > key
    case Op_SeekGe => entryKey >= key
    case Op_SeekLt => entryKey < key
    case Op_SeekLe => entryKey <= key
    case _ => false
  }

  predicate SeeksForward(code: Opcode) {
    code == Op_Seek || code == Op_SeekGt || code == Op_SeekGe
  }

  // First match at or after position i.
  function SeekUp(code: Opcode, s: seq<Entry>, key: nat, i: nat): (r: Option<nat>)
    requires i <= |s|
    ensures r.Some? ==> i <= r.value < |s| && SeekMatches(code, s[r.value].key, key)
    ensures r.Some? ==> forall j :: i <= j < r.value ==> !SeekMatches(code, s[j].key, key)
    ensures r.None? ==> forall j :: i <= j < |s| ==> !SeekMatches(code, s[j].key, key)
    decreases |s| - i
  {
    if i == |s| then None
    else if SeekMatches(code, s[i].key, key) then Some(i)
    else SeekUp(code, s, key, i + 1)
  }

  // Last match before position i.
  function SeekDown(code: Opcode, s: seq<Entry>, key: nat, i: nat): (r: Option<nat>)
    requires i <= |s|
    ensures r.Some? ==> r.value < i && SeekMatches(code, s[r.value].key, key)
    ensures r.Some? ==> forall j :: r.value < j < i ==> !SeekMatches(code, s[j].key, key)
    ensures r.None? ==> forall j :: 0 <= j < i ==> !SeekMatches(code, s[j].key, key)
  {
    if i == 0 then None
    else if SeekMatches(code, s[i - 1].key, key) then Some(i - 1)
    else SeekDown(code, s, key, i - 1)
  }

  function SeekPosition(code: Opcode, s: seq<Entry>, key: nat): (r: Option<nat>)
    ensures r.Some? ==> r.value < |s|
  {
    if SeeksForward(code) then SeekUp(code, s, key, 0) else SeekDown(code, s, key, |s|)
  }

  // ---- handlers ----------------------------------------------------------------------------

  function OpenCursor(op: Op, m: Machine): Result {
    if op.p1 < 0 || !HasInt(m, op.p2) then Undefined
    else
      var root := Wrap(m.regs[op.p2].i);
      if root !in m.db.store then Undefined
      else
        var index := root in m.db.indexes;
        var c := Open(root, index, Collect(index, m.db.store[root]), -1);
        Ok(m.(cursors := SetCursor(m.cursors, op.p1, c)))
  }

  function MoveCursor(op: Op, m: Machine): Result {
    if !IsOpen(m, op.p1) then Undefined
    else
      var c := m.cursors[op.p1];
      match op.code
      case Op_Rewind =>
        if c.snapshot == [] then Ok(Jump(m.(cursors := m.cursors[op.p1 := c.(pos := -1)]), op.p2))
        else Ok(m.(cursors := m.cursors[op.p1 := c.(pos := 0)]))
      case Op_Next =>
        if c.pos + 1 < |c.snapshot| then Ok(Jump(m.(cursors := m.cursors[op.p1 := c.(pos := c.pos + 1)]), op.p2))
        else Ok(m)
      case Op_Prev =>
        if c.pos - 1 >= 0 then Ok(Jump(m.(cursors := m.cursors[op.p1 := c.(pos := c.pos - 1)]), op.p2))
        else Ok(m)
      case _ => Undefined
  }

  function SeekCursor(op: Op, m: Machine): Result {
    if !IsOpen(m, op.p1) || !HasInt(m, op.p3) then Undefined
    else
      var c := m.cursors[op.p1];
      match SeekPosition(op.code, c.snapshot, Wrap(m.regs[op.p3].i))
      case None => Ok(Jump(m, op.p2))
      case Some(i) => Ok(m.(cursors := m.cursors[op.p1 := c.(pos := i)]))
  }

  // Column, Key and IdxPKey read the entry under a cursor.
  function ReadEntry(op: Op, m: Machine): Result {
    if !IsPositioned(m, op.p1) then Undefined
    else
      var e := CurrentEntry(m, op.p1);
      match op.code
      case Op_Column =>
        if op.p2 < 0 || op.p3 < 0 || FieldValue(e.data, op.p2).None? then Undefined
        else Ok(m.(regs := SetReg(m.regs, op.p3, FieldValue(e.data, op.p2).value)))
      case Op_Key => if op.p2 < 0 then Undefined else Ok(m.(regs := SetReg(m.regs, op.p2, Int(Unwrap(e.key)))))
      case Op_IdxPKey => if op.p2 < 0 then Undefined else Ok(m.(regs := SetReg(m.regs, op.p2, Int(Unwrap(e.pk)))))
      case _ => Undefined
  }

  function LoadConstant(op: Op, m: Machine): Result {
    if op.p2 < 0 then Undefined
    else
      match op.code
      case Op_Integer => Ok(m.(regs := SetReg(m.regs, op.p2, Int(op.p1))))
      case Op_String => Ok(m.(regs := SetReg(m.regs, op.p2, Str(op.p4))))
      case Op_Null => Ok(m.(regs := SetReg(m.regs, op.p2, Null)))
      case _ => Undefined
  }

  // The jump condition of a comparison, given how the register p3 orders against the
  // register p1.
  predicate JumpsOn(code: Opcode, order: int) {
    match code
    case Op_Eq => order == 0
    case Op_Ne => order != 0
    case Op_Lt => order < 0
    case Op_Le => order <= 0
    case Op_Gt => order > 0
    case Op_Ge => order >= 0
    case _ => false
  }

  function CompareRegs(op: Op, m: Machine): Result {
    if !HasReg(m, op.p1) || !HasReg(m, op.p3) || !Comparable(m.regs[op.p3], m.regs[op.p1]) then Undefined
    else if JumpsOn(op.code, Order(m.regs[op.p3], m.regs[op.p1])) then Ok(Jump(m, op.p2))
    else Ok(m)
  }

  function YieldRow(op: Op, m: Machine): Result {
    if op.p1 < 0 || op.p2 < 0 || |m.regs| < op.p1 + op.p2 then Undefined
    else Row(m.(startRR := op.p1, nRR := op.p2))
  }

  // The fields MakeRecord appends: unspecified and binary registers are skipped.
  function RecordFields(regs: seq<Value>): seq<Field> {
    if regs == [] then []
    else
      var front := RecordFields(regs[..|regs| - 1]);
      match regs[|regs| - 1]
      case Null => front + [NullField]
      case Int(i) => front + [Int32(i)]
      case Str(s) => front + [Text(s)]
      case _ => front
  }

  // What the record buffer can hold: it grows by 1024 bytes at most once per field, and
  // its size and the header size are a 16-bit and an 8-bit number.
  predicate Buildable(fs: seq<Field>) {
    && Packable(fs)
    && (forall i :: 0 <= i < |fs| ==> InRange(fs[i]) && (fs[i].Text? ==> |fs[i].s| <= 1024))
    && |Body(fs)| <= 63 * 1024
  }

  function PackRegs(op: Op, m: Machine): Result {
    // The number of fields is an 8-bit number.
    if op.p1 < 0 || op.p2 < 0 || 0x100 <= op.p2 || op.p3 < 0 || |m.regs| < op.p1 + op.p2 then Undefined
    else
      var fs := RecordFields(m.regs[op.p1..op.p1 + op.p2]);
      if !Buildable(fs) then Undefined
      else Ok(m.(regs := SetReg(m.regs, op.p3, Bytes(Packed(fs)))))
  }

  // The C code does not check for room; without it, cells overwrite each other.
  ghost function InsertEntry(m: Machine, root: nat, e: Entry): Result {
    var sh := Shape(root in m.db.indexes, m.db.pageSize);
    if root !in m.db.store || !Btrees.RootInsertable(sh, m.db.store[root], e, m.db.pages) then Undefined
    else
      var r := Insert(sh, m.db.store[root], e, m.db.pages);
      var m' := m.(db := m.db.(store := m.db.store[root := r.tree], pages := r.pages));
      if r.duplicate then Constraint(m') else Ok(m')
  }

  ghost function InsertRow(op: Op, m: Machine): Result {
    if !IsOpen(m, op.p1) || m.cursors[op.p1].root in m.db.indexes || !HasReg(m, op.p2) || !m.regs[op.p2].Bytes? || !HasInt(m, op.p3) then Undefined
    else
      var key := Wrap(m.regs[op.p3].i);
      // Table keys and sizes go through 28-bit varints.
      if 0x1000_0000 <= key then Undefined
      else InsertEntry(m, m.cursors[op.p1].root, Entry(key, m.regs[op.p2].b, 0))
  }

  ghost function InsertIndex(op: Op, m: Machine): Result {
    if !IsOpen(m, op.p1) || m.cursors[op.p1].root !in m.db.indexes || !HasInt(m, op.p2) || !HasInt(m, op.p3) then Undefined
    else InsertEntry(m, m.cursors[op.p1].root, Entry(Wrap(m.regs[op.p2].i), [], Wrap(m.regs[op.p3].i)))
  }

  function CreateTree(op: Op, m: Machine): Result {
    if op.p1 < 0 then Undefined
    else
      var root := m.db.pages + 1;
      var indexes := if op.code == Op_CreateIndex then m.db.indexes + {root} else m.db.indexes - {root};
      var db := m.db.(store := m.db.store[root := Leaf(root, [])], indexes := indexes, pages := root);
      Ok(m.(db := db, regs := SetReg(m.regs, op.p1, Int(Unwrap(root)))))
  }

  // One instruction of a program of n instructions; the program counter has already
  // been advanced past it.
  ghost function Apply(n: nat, op: Op, m: Machine): Result {
    match op.code
    case Op_Noop => Ok(m)
    case Op_OpenRead => OpenCursor(op, m)
    case Op_OpenWrite => OpenCursor(op, m)
    case Op_Close => if IsOpen(m, op.p1) then Ok(m.(cursors := m.cursors[op.p1 := Closed])) else Undefined
    case Op_Rewind => MoveCursor(op, m)
    case Op_Next => MoveCursor(op, m)
    case Op_Prev => MoveCursor(op, m)
    case Op_Seek => SeekCursor(op, m)
    case Op_SeekGt => SeekCursor(op, m)
    case Op_SeekGe => SeekCursor(op, m)
    case Op_SeekLt => SeekCursor(op, m)
    case Op_SeekLe => SeekCursor(op, m)
    case Op_Column => ReadEntry(op, m)
    case Op_Key => ReadEntry(op, m)
    case Op_IdxPKey => ReadEntry(op, m)
    case Op_Integer => LoadConstant(op, m)
    case Op_String => LoadConstant(op, m)
    case Op_Null => LoadConstant(op, m)
    case Op_ResultRow => YieldRow(op, m)
    case Op_MakeRecord => PackRegs(op, m)
    case Op_Insert => InsertRow(op, m)
    case Op_Eq => CompareRegs(op, m)
    case Op_Ne => CompareRegs(op, m)
    case Op_Lt => CompareRegs(op, m)
    case Op_Le => CompareRegs(op, m)
    case Op_Gt => CompareRegs(op, m)
    case Op_Ge => CompareRegs(op, m)
    case Op_IdxInsert => InsertIndex(op, m)
    case Op_CreateTable => CreateTree(op, m)
    case Op_CreateIndex => CreateTree(op, m)
    case Op_Halt => Ok(m.(pc := n))
  }

  // One turn of the fetch loop.
  ghost function Step(ops: seq<Op>, m: Machine): Result
    requires m.pc < |ops|
  {
    Apply(|ops|, ops[m.pc], m.(pc := m.pc + 1))
  }
}
