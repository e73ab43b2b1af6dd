// Which cursors are positioned at each instruction of a program, on every database: a seek or a
// rewind that succeeds positions its cursor, one that fails goes where nothing is said of it.
module CursorFlow {
  import opened Values
  import opened Machine
  import opened MachineRun
  import opened JumpTargets
  import opened ControlFlow

  ghost predicate Positioned(m: Machine, cs: set<int>) {
    forall c :: c in cs ==> IsPositioned(m, c)
  }

  predicate Positions(code: Opcode) {
    code in {Op_Rewind, Op_Seek, Op_SeekGt, Op_SeekGe, Op_SeekLt, Op_SeekLe}
  }

  // The instructions that need a positioned cursor.
  predicate Needs(code: Opcode) {
    code in {Op_Key, Op_Column, Op_IdxPKey, Op_Next, Op_Prev}
  }

  // The cursors that are positioned behind an instruction, and where it jumps to.
  function Behind(op: Op, cs: set<int>): set<int> {
    if Positions(op.code) then cs + {op.p1}
    else if op.code in {Op_OpenRead, Op_OpenWrite, Op_Close} then cs - {op.p1}
    else cs
  }

  function AtTarget(op: Op, cs: set<int>): set<int> {
    if op.code == Op_Rewind then cs - {op.p1} else cs
  }

  // Marks say which cursors are positioned at the targets of jumps.
  ghost predicate OpFlows(op: Op, a: set<int>, b: set<int>, marks: map<int, set<int>>) {
    && (Needs(op.code) ==> op.p1 in a)
    && (op.code != Op_Halt ==> b <= Behind(op, a))
    && (IsJump(op.code) ==> op.p2 in marks && marks[op.p2] <= AtTarget(op, a))
  }

  ghost predicate Flows(code: seq<Op>, at: int, lives: seq<set<int>>, marks: map<int, set<int>>) {
    && |lives| == |code| + 1
    && (forall i :: 0 <= i < |code| ==> OpFlows(code[i], lives[i], lives[i + 1], marks))
    && (forall t :: t in marks && at <= t < at + |code| ==> lives[t - at] <= marks[t])
  }

  // A piece of code at an address that needs the cursors a and leaves the cursors b.
  ghost predicate FlowsFrom(code: seq<Op>, at: int, a: set<int>, b: set<int>, marks: map<int, set<int>>) {
    exists lives :: Flows(code, at, lives, marks) && lives[0] <= a && b <= lives[|code|]
  }

  lemma FlowsThen(code1: seq<Op>, code2: seq<Op>, at: int, a: set<int>, b: set<int>, c: set<int>, marks: map<int, set<int>>)
    requires FlowsFrom(code1, at, a, b, marks) && FlowsFrom(code2, at + |code1|, b, c, marks)
    ensures FlowsFrom(code1 + code2, at, a, c, marks)
  {
    hide OpFlows;
    var l1 :| Flows(code1, at, l1, marks) && l1[0] <= a && b <= l1[|code1|];
    var l2 :| Flows(code2, at + |code1|, l2, marks) && l2[0] <= b && c <= l2[|code2|];
    var n, code := |code1|, code1 + code2;
    var lives := l1[..n] + l2;
    assert l2[0] <= l1[n];
    forall i | 0 <= i < |code| ensures OpFlows(code[i], lives[i], lives[i + 1], marks) {
      if i < n {
        assert lives[i + 1] == (if i + 1 < n then l1[i + 1] else l2[0]);
        OpFlowsLess(code1[i], l1[i], l1[i + 1], lives[i + 1], marks);
      } else {
        assert code[i] == code2[i - n] && lives[i] == l2[i - n] && lives[i + 1] == l2[i - n + 1];
      }
    }
    forall t | t in marks && at <= t < at + |code| ensures lives[t - at] <= marks[t] {
      if at + n <= t {
        assert lives[t - at] == l2[t - (at + n)];
      }
    }
    assert Flows(code, at, lives, marks);
    assert lives[|code|] == l2[|code2|] && (lives[0] == if 0 < n then l1[0] else l2[0]);
  }

  lemma OpFlowsLess(op: Op, a: set<int>, b: set<int>, b': set<int>, marks: map<int, set<int>>)
    requires OpFlows(op, a, b, marks) && b' <= b
    ensures OpFlows(op, a, b', marks)
  {
  }

  lemma FlowsNothing(at: int, a: set<int>, marks: map<int, set<int>>)
    ensures FlowsFrom([], at, a, a, marks)
  {
    assert Flows([], at, [a], marks);
  }

  // Code that keeps the same cursors throughout.
  lemma FlowsEvenly(code: seq<Op>, at: int, a: set<int>, marks: map<int, set<int>>)
    requires forall i :: 0 <= i < |code| ==> OpFlows(code[i], a, a, marks)
    requires forall t :: t in marks && at <= t < at + |code| ==> a <= marks[t]
    ensures FlowsFrom(code, at, a, a, marks)
  {
    hide OpFlows;
    var lives := seq(|code| + 1, i => a);
    assert Flows(code, at, lives, marks);
  }

  lemma FlowsOne(op: Op, at: int, a: set<int>, b: set<int>, marks: map<int, set<int>>)
    requires OpFlows(op, a, b, marks) && (at in marks ==> a <= marks[at])
    ensures FlowsFrom([op], at, a, b, marks)
  {
    hide OpFlows;
    assert Flows([op], at, [a, b], marks);
  }

  // ---- runs ------------------------------------------------------------------------------------------

  ghost predicate Marked(ops: seq<Op>, marks: map<int, set<int>>) {
    forall t :: t in marks ==> 0 <= t < |ops|
  }

  lemma TurnFlows(ops: seq<Op>, m: Machine, a: set<int>, b: set<int>, marks: map<int, set<int>>)
    requires Goes(ops, m) && Positioned(m, a) && OpFlows(ops[m.pc], a, b, marks) && Marked(ops, marks)
    ensures var m' := Step(ops, m).m;
      || (ops[m.pc].code != Op_Halt && m'.pc == m.pc + 1 && Positioned(m', b))
      || (ops[m.pc].code == Op_Halt && m'.pc == |ops|)
      || (m'.pc in marks && Positioned(m', marks[m'.pc]))
  {
    hide FieldValue, InsertRow, InsertIndex, SetReg, RecordFields, Apply;
    var op, next := ops[m.pc], m.(pc := m.pc + 1);
    assert Step(ops, m) == Apply(|ops|, op, next);
    assert Positioned(next, a);
    if MovesCursor(op.code) {
      MoveFlows(op, next, |ops|, a);
    } else {
      MovesNone(op, next, |ops|);
      assert Positioned(Apply(|ops|, op, next).m, a);
      NextAddress(ops, m);
    }
  }

  // What moving a cursor does, whether it falls through or jumps.
  lemma MoveFlows(op: Op, m: Machine, n: nat, a: set<int>)
    requires MovesCursor(op.code) && Apply(n, op, m) != Undefined && Positioned(m, a)
    requires Needs(op.code) ==> op.p1 in a
    requires IsJump(op.code) ==> 0 <= op.p2
    ensures Apply(n, op, m).Ok?
    ensures var m' := Apply(n, op, m).m;
      || (m'.pc == m.pc && Positioned(m', Behind(op, a)))
      || (IsJump(op.code) && m'.pc == op.p2 && Positioned(m', AtTarget(op, a)))
  {
    hide SetReg, SetCursor;
    var m' := Apply(n, op, m).m;
    forall c | c in a && c != op.p1 ensures IsPositioned(m', c) {
      MovesOne(op, m, n, c);
    }
  }

  // The cursors that a program is promised are positioned in every state it can reach.
  lemma {:induction false} VisitsFlow(ops: seq<Op>, m: Machine, lives: seq<set<int>>, marks: map<int, set<int>>, k: nat, m': Machine)
    requires Flows(ops, 0, lives, marks) && Marked(ops, marks) && m.pc <= |ops| && lives[|ops|] == {}
    requires Positioned(m, lives[m.pc]) && Visits(ops, m, k, m')
    ensures m'.pc < |ops| ==> CursorReady(ops[m'.pc], m')
    decreases k
  {
    hide Step, OpFlows, CursorReady;
    if m.pc < |ops| {
      assert OpFlows(ops[m.pc], lives[m.pc], lives[m.pc + 1], marks);
      if k == 0 {
        ReadyHere(ops[m.pc], m, lives[m.pc], lives[m.pc + 1], marks);
      } else {
        TurnFlows(ops, m, lives[m.pc], lives[m.pc + 1], marks);
        var m1 := Step(ops, m).m;
        assert m1.pc in marks ==> lives[m1.pc - 0] <= marks[m1.pc];
        VisitsFlow(ops, m1, lives, marks, k - 1, m');
      }
    }
  }

  lemma ReadyHere(op: Op, m: Machine, a: set<int>, b: set<int>, marks: map<int, set<int>>)
    requires OpFlows(op, a, b, marks) && Positioned(m, a)
    ensures CursorReady(op, m)
  {
  }

  // In every state the program can reach from the start, the cursor that the next instruction
  // reads or advances is open and stands on an entry.
  ghost predicate CursorsReady(ops: seq<Op>, m: Machine) {
    forall k: nat, m' :: Visits(ops, m, k, m') && m'.pc < |ops| ==> CursorReady(ops[m'.pc], m')
  }

  lemma FlowIsReady(ops: seq<Op>, m: Machine, marks: map<int, set<int>>)
    requires FlowsFrom(ops, 0, {}, {}, marks) && Marked(ops, marks) && m.pc == 0
    ensures CursorsReady(ops, m)
  {
    hide Visits, CursorReady, OpFlows;
    var l :| Flows(ops, 0, l, marks) && l[0] <= {} && {} <= l[|ops|];
    var lives := l[..|ops|] + [{}];
    forall i | 0 <= i < |ops| ensures OpFlows(ops[i], lives[i], lives[i + 1], marks) {
      OpFlowsLess(ops[i], l[i], l[i + 1], lives[i + 1], marks);
    }
    assert Flows(ops, 0, lives, marks);
    forall k: nat, m' | Visits(ops, m, k, m') && m'.pc < |ops| ensures CursorReady(ops[m'.pc], m') {
      VisitsFlow(ops, m, lives, marks, k, m');
    }
  }
}
