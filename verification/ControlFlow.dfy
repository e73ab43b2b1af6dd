// What can be read off a program alone: that it halts on every database, and which cursors are
// positioned where. Jumps go forward but for the advance instructions of at most two nested
// loops, and each of those moves a cursor that its loop does not touch otherwise.
module ControlFlow {
  import opened Values
  import opened Machine
  import opened MachineRun
  import opened JumpTargets

  // ---- one turn ------------------------------------------------------------------------------------

  // The instructions that open, close or move the cursor p1.
  predicate MovesCursor(code: Opcode) {
    code in {Op_OpenRead, Op_OpenWrite, Op_Close, Op_Rewind, Op_Next, Op_Prev, Op_Seek, Op_SeekGt, Op_SeekGe, Op_SeekLt, Op_SeekLe}
  }

  ghost predicate Goes(ops: seq<Op>, m: Machine) {
    m.pc < |ops| && (Step(ops, m).Ok? || Step(ops, m).Row?)
  }

  predicate SameCursor(m: Machine, m': Machine, c: int) {
    (IsOpen(m', c) <==> IsOpen(m, c)) && (IsOpen(m, c) ==> m'.cursors[c] == m.cursors[c])
  }

  lemma LeavesCursor(ops: seq<Op>, m: Machine, c: int)
    requires Goes(ops, m) && !(MovesCursor(ops[m.pc].code) && ops[m.pc].p1 == c)
    ensures SameCursor(m, Step(ops, m).m, c)
  {
    hide FieldValue, InsertEntry, SetReg;
    var op, next := ops[m.pc], m.(pc := m.pc + 1);
    if MovesCursor(op.code) {
      MovesOne(op, next, |ops|, c);
    } else {
      MovesNone(op, next, |ops|);
    }
  }

  lemma MovesNone(op: Op, m: Machine, n: nat)
    requires !MovesCursor(op.code) && Apply(n, op, m) != Undefined
    ensures Apply(n, op, m).m.cursors == m.cursors
  {
    hide FieldValue, InsertRow, InsertIndex, SetReg, RecordFields;
    InsertsOnly(op, m);
  }

  lemma MovesOne(op: Op, m: Machine, n: nat, c: int)
    requires MovesCursor(op.code) && op.p1 != c && Apply(n, op, m) != Undefined
    ensures SameCursor(m, Apply(n, op, m).m, c)
  {
    if op.code in {Op_OpenRead, Op_OpenWrite} {
      assert Apply(n, op, m) == OpenCursor(op, m);
    }
  }

  lemma InsertsOnly(op: Op, m: Machine)
    ensures InsertRow(op, m) != Undefined ==> InsertRow(op, m).m == m.(db := InsertRow(op, m).m.db)
    ensures InsertIndex(op, m) != Undefined ==> InsertIndex(op, m).m == m.(db := InsertIndex(op, m).m.db)
  {
    hide Btrees.RootInsertable;
  }

  // Where a turn leads.
  lemma NextAddress(ops: seq<Op>, m: Machine)
    requires Goes(ops, m)
    ensures var pc := Step(ops, m).m.pc;
      || (ops[m.pc].code != Op_Halt && pc == m.pc + 1) || (ops[m.pc].code == Op_Halt && pc == |ops|)
      || (IsJump(ops[m.pc].code) && pc == Address(ops[m.pc].p2))
  {
    hide FieldValue, InsertEntry, SetReg, SetCursor, Address;
    var op, next := ops[m.pc], m.(pc := m.pc + 1);
    if op.code in {Op_Insert, Op_IdxInsert} {
      InsertsOnly(op, next);
    }
  }

  // ---- loops ------------------------------------------------------------------------------------------

  // A loop from head to the advance instruction at last, which moves cursor.
  datatype Loop = Loop(head: nat, last: nat, cursor: int)

  predicate Inside(l: Loop, pc: nat) {
    l.head <= pc <= l.last
  }

  // The body of a loop does not touch its cursor.
  ghost predicate LoopOf(ops: seq<Op>, l: Loop) {
    && l.head <= l.last < |ops| && ops[l.last].code in {Op_Next, Op_Prev} && ops[l.last].p1 == l.cursor && ops[l.last].p2 == l.head
    && forall i :: l.head <= i < l.last ==> !(MovesCursor(ops[i].code) && ops[i].p1 == l.cursor)
  }

  datatype Nest = NoLoop | OneLoop(loop: Loop) | TwoLoops(outer: Loop, inner: Loop)

  predicate EndsLoop(ls: Nest, i: nat) {
    match ls
    case NoLoop => false
    case OneLoop(l) => i == l.last
    case TwoLoops(o, l) => i == o.last || i == l.last
  }

  ghost predicate WellNested(ops: seq<Op>, ls: Nest) {
    && (forall i :: 0 <= i < |ops| && IsJump(ops[i].code) && !EndsLoop(ls, i) ==> i < ops[i].p2 <= |ops|)
    && match ls
       case NoLoop => true
       case OneLoop(l) => LoopOf(ops, l)
       case TwoLoops(o, l) => LoopOf(ops, o) && LoopOf(ops, l) && o.head <= l.head && l.last < o.last
  }

  // How often the cursor of a loop can still be moved on.
  function Left(ops: seq<Op>, m: Machine, l: Loop): nat {
    if l.last < |ops| && IsOpen(m, l.cursor) && Inside(l, m.pc) then
      var c := m.cursors[l.cursor];
      var n := if ops[l.last].code == Op_Prev then c.pos else |c.snapshot| - c.pos;
      if 0 <= n then n else 0
    else 0
  }

  function Ahead(m: Machine, l: Loop): nat {
    if m.pc < l.head then 1 else 0
  }

  // The measure: the outer loop is still ahead; its moves left; the same for the inner loop;
  // and the rest of the program.
  datatype Measure = Measure(ahead1: nat, left1: nat, ahead2: nat, left2: nat, rest: nat)

  predicate Less(a: Measure, b: Measure) {
    || a.ahead1 < b.ahead1
    || (a.ahead1 == b.ahead1 && (a.left1 < b.left1
        || (a.left1 == b.left1 && (a.ahead2 < b.ahead2
            || (a.ahead2 == b.ahead2 && (a.left2 < b.left2 || (a.left2 == b.left2 && a.rest < b.rest)))))))
  }

  function MeasureOf(ops: seq<Op>, m: Machine, ls: Nest): Measure {
    var rest: nat := if m.pc <= |ops| then |ops| - m.pc else 0;
    match ls
    case NoLoop => Measure(0, 0, 0, 0, rest)
    case OneLoop(l) => Measure(Ahead(m, l), Left(ops, m, l), 0, 0, rest)
    case TwoLoops(o, l) => Measure(Ahead(m, o), Left(ops, m, o), Ahead(m, l), Left(ops, m, l), rest)
  }

  // What one turn does to one loop: the loop comes nearer, is left, goes on, or starts over
  // with fewer moves left.
  lemma LoopTurn(ops: seq<Op>, m: Machine, l: Loop)
    requires Goes(ops, m) && LoopOf(ops, l)
    requires m.pc != l.last ==> m.pc < Step(ops, m).m.pc || !Inside(l, m.pc)
    ensures var m' := Step(ops, m).m;
      m.pc == l.last ==> m.pc < m'.pc || (m'.pc == l.head && Left(ops, m', l) < Left(ops, m, l))
    ensures var m' := Step(ops, m).m;
      m.pc < m'.pc ==> Ahead(m', l) < Ahead(m, l) || (Ahead(m', l) == Ahead(m, l) && Left(ops, m', l) <= Left(ops, m, l))
    ensures var m' := Step(ops, m).m;
      Inside(l, m.pc) && m.pc != l.last && Inside(l, m'.pc) ==> Left(ops, m', l) == Left(ops, m, l)
  {
    hide Step;
    if m.pc == l.last {
      AdvanceTurn(ops, m, l);
    } else if Inside(l, m.pc) {
      LeavesCursor(ops, m, l.cursor);
    }
  }

  lemma AdvanceTurn(ops: seq<Op>, m: Machine, l: Loop)
    requires Goes(ops, m) && LoopOf(ops, l) && m.pc == l.last
    ensures var m' := Step(ops, m).m;
      m'.pc == m.pc + 1 || (m'.pc == l.head && Left(ops, m', l) < Left(ops, m, l))
  {
    assert Step(ops, m) == MoveCursor(ops[m.pc], m.(pc := m.pc + 1));
  }

  // Every turn makes the measure smaller.
  lemma TurnDescends(ops: seq<Op>, m: Machine, ls: Nest)
    requires Goes(ops, m) && WellNested(ops, ls)
    ensures Step(ops, m).m.pc <= |ops| && Less(MeasureOf(ops, Step(ops, m).m, ls), MeasureOf(ops, m, ls))
  {
    hide Step, LoopOf, Left;
    NextAddress(ops, m);
    match ls
    case NoLoop =>
    case OneLoop(l) =>
      OneTurn(ops, m, l);
    case TwoLoops(o, l) =>
      TwoTurn(ops, m, o, l);
  }

  lemma OneTurn(ops: seq<Op>, m: Machine, l: Loop)
    requires Goes(ops, m) && WellNested(ops, OneLoop(l))
    ensures Step(ops, m).m.pc <= |ops| && Less(MeasureOf(ops, Step(ops, m).m, OneLoop(l)), MeasureOf(ops, m, OneLoop(l)))
  {
    hide Step, Left;
    NextAddress(ops, m);
    LoopTurn(ops, m, l);
  }

  lemma TwoTurn(ops: seq<Op>, m: Machine, o: Loop, l: Loop)
    requires Goes(ops, m) && WellNested(ops, TwoLoops(o, l))
    ensures Step(ops, m).m.pc <= |ops| && Less(MeasureOf(ops, Step(ops, m).m, TwoLoops(o, l)), MeasureOf(ops, m, TwoLoops(o, l)))
  {
    hide Step, Left;
    NextAddress(ops, m);
    if m.pc != l.last {
      LoopTurn(ops, m, o);
      LoopTurn(ops, m, l);
    } else {
      LoopTurn(ops, m, l);
      LeavesCursor(ops, m, o.cursor);
      SameLeft(ops, m, o);
    }
  }

  lemma SameLeft(ops: seq<Op>, m: Machine, o: Loop)
    requires Goes(ops, m) && SameCursor(m, Step(ops, m).m, o.cursor) && Inside(o, m.pc)
    ensures var m' := Step(ops, m).m;
      if Inside(o, m'.pc) then Left(ops, m', o) == Left(ops, m, o) else Left(ops, m', o) == 0
  {
    hide Step;
  }

  // ---- halting ----------------------------------------------------------------------------------------

  ghost predicate HaltsWithin(ops: seq<Op>, m: Machine, bound: nat) {
    forall k: nat, m' :: Visits(ops, m, k, m') ==> k <= bound && m'.pc <= |ops|
  }

  // A bounded number of turns leads to the end of the program or to an instruction that
  // ends the run, and the program counter never leaves the program.
  ghost predicate Halts(ops: seq<Op>, m: Machine) {
    exists bound: nat :: HaltsWithin(ops, m, bound)
  }

  lemma {:induction false} NestedHalts(ops: seq<Op>, m: Machine, ls: Nest)
    requires WellNested(ops, ls) && m.pc <= |ops|
    ensures Halts(ops, m)
    decreases MeasureOf(ops, m, ls).ahead1, MeasureOf(ops, m, ls).left1, MeasureOf(ops, m, ls).ahead2, MeasureOf(ops, m, ls).left2,
      MeasureOf(ops, m, ls).rest
  {
    hide Step, WellNested, MeasureOf;
    if Goes(ops, m) {
      TurnDescends(ops, m, ls);
      var m' := Step(ops, m).m;
      NestedHalts(ops, m', ls);
      var b: nat :| HaltsWithin(ops, m', b);
      forall k: nat, e | Visits(ops, m, k, e) ensures k <= b + 1 && e.pc <= |ops| {
        if k != 0 {
          assert Visits(ops, m', k - 1, e);
        }
      }
      assert HaltsWithin(ops, m, b + 1);
    } else {
      forall k: nat, e | Visits(ops, m, k, e) ensures k <= 0 && e.pc <= |ops| {
      }
      assert HaltsWithin(ops, m, 0);
    }
  }
}
