// The two loops of the compiled join program.
module JoinLoops {
  import opened Common
  import opened Sql
  import opened Values
  import opened Trees
  import opened Machine
  import opened MachineRun
  import opened Planner
  import opened Layout
  import opened JoinLayout
  import opened CodeRuns
  import opened JoinRows
  import opened JoinRun

  // ---- from an index entry to its table row ------------------------------------------------

  // All registers below lo except one keep their values.
  ghost predicate SameExcept(m: Machine, m': Machine, lo: nat, except: int) {
    && m'.db == m.db && |m.regs| <= |m'.regs|
    && forall r :: 0 <= r < lo && r != except && r < |m.regs| ==> m'.regs[r] == m.regs[r]
  }

  ghost predicate DriverAt(m: Machine, s: Source, side: nat, d: nat) {
    IsPositioned(m, DriverCursor(s.access, side)) && m.cursors[DriverCursor(s.access, side)].pos == d
  }

  // IdxPKey and the table seek.
  lemma FollowKey(ops: seq<Op>, m: Machine, db: Database, s: Source, side: nat, r: SideRegs, die: nat, d: nat)
    returns (m': Machine)
    requires !s.access.Scan? && ValidSource(db, s, side) && SideReady(m, db, s, side, r)
    requires DriverAt(m, s, side, d) && 0 <= r.pkey
    requires m.pc + 1 < |ops| && ops[m.pc] == MakeOp(Op_IdxPKey, side + 2, r.pkey, 0)
    requires ops[m.pc + 1] == MakeOp(Op_Seek, side, die, r.pkey)
    ensures Runs(ops, m, [], m')
    ensures m'.cursors == m.cursors[side := m.cursors[side].(pos := TablePos(s, Rows(db, s.root), Rows(db, IndexRoot(s)), d))]
    ensures m'.pc == m.pc + 2 && SameExcept(m, m', |m.regs|, r.pkey)
  {
    hide Runs, Rows, LiteralValue;
    var t, x := Rows(db, s.root), Rows(db, IndexRoot(s));
    IdxPKeyRuns(ops, m, side + 2, r.pkey);
    var m1 := AfterLoad(m, r.pkey, Int(Unwrap(x[d].pk)));
    SeekRuns(ops, m1, Op_Seek, side, die, r.pkey, x[d].pk);
    m' := AtPosition(m1.(pc := m1.pc + 1), side, TablePos(s, t, x, d));
    RunsOn(ops, m, m1, [], m');
  }

  // The upper bound of a two-sided range.
  lemma UpperCheck(ops: seq<Op>, m: Machine, columns: seq<Column>, cursor: nat, u: ResolvedCmp, lit: nat, tmp: nat, stop: nat)
    returns (m': Machine)
    requires m.pc + 1 < |ops| && ops[m.pc] == LoadColumn(columns, cursor, u.col.idx, tmp)
    requires ops[m.pc + 1] == MakeOp(u.op, lit, stop, tmp)
    requires u.col.idx < |columns| && LiteralMatches(u.lit, columns[u.col.idx].dataType) && SeekOpcode(u.op).Some?
    requires IsPositioned(m, cursor) && TypedEntry(columns, CurrentEntry(m, cursor))
    requires lit < tmp && RegIs(m, lit, LiteralValue(u.lit))
    ensures Runs(ops, m, [], m') && m'.cursors == m.cursors && SameBelow(m, m', tmp)
    ensures m'.pc == if Passes(columns, CurrentEntry(m, cursor), u) then m.pc + 2 else stop
  {
    hide FieldValue, Order, Runs, ColumnValue;
    var v := ColumnValue(columns, CurrentEntry(m, cursor), u.col.idx);
    ColumnRuns(ops, m, columns, cursor, u.col.idx, tmp);
    var m1 := AfterLoad(m, tmp, v);
    assert HasType(v, columns[u.col.idx].dataType);
    CompareRuns(ops, m1, u.op, lit, stop, tmp);
    m' := m1.(pc := if JumpsOn(u.op, Order(v, LiteralValue(u.lit))) then stop else m1.pc + 1);
    RunsOn(ops, m, m1, [], m');
  }

  lemma FollowRuns(ops: seq<Op>, m: Machine, db: Database, s: Source, side: nat, r: SideRegs, tmp: nat, die: nat, stop: nat,
                   d: nat) returns (m': Machine)
    requires s.access.RangeSeek? && ValidSource(db, s, side) && SideReady(m, db, s, side, r)
    requires CodeAt(ops, m.pc, FollowIndex(s, side, r, tmp, die, stop)) && DriverAt(m, s, side, d)
    requires 0 <= r.pkey < tmp && (HasUpper(s.access) ==> 0 <= r.upper < tmp && r.upper != r.pkey)
    ensures Runs(ops, m, [], m')
    ensures var t, x := Rows(db, s.root), Rows(db, IndexRoot(s));
      var j := TablePos(s, t, x, d);
      && m'.cursors == m.cursors[side := m.cursors[side].(pos := j)]
      && m'.pc == if StopsAt(s, side, t, x, j) then stop else m.pc + |FollowIndex(s, side, r, tmp, die, stop)|
    ensures SameExcept(m, m', tmp, r.pkey)
  {
    hide Runs, Rows, LiteralValue, Passes, TypedEntry, LoadColumn;
    var code := FollowIndex(s, side, r, tmp, die, stop);
    var j := TablePos(s, Rows(db, s.root), Rows(db, IndexRoot(s)), d);
    assert ops[m.pc + 0] == code[0] && ops[m.pc + 1] == code[1];
    m' := FollowKey(ops, m, db, s, side, r, die, d);
    if HasUpper(s.access) {
      var m1 := m';
      var u := s.access.upper.value;
      assert ops[m.pc + 2] == code[2] && ops[m.pc + 3] == code[3];
      assert CurrentEntry(m1, side) == Rows(db, s.root)[j];
      m' := UpperCheck(ops, m1, s.columns, side, u, r.upper, tmp, stop);
      RunsOn(ops, m, m1, [], m');
    }
  }

  // ---- the inner loop --------------------------------------------------------------------------

  // The cursors of the left table are left alone.
  ghost predicate LeftSame(m: Machine, m': Machine) {
    && |m'.cursors| == |m.cursors|
    && forall c :: 0 <= c < |m.cursors| && c != 1 && c != 3 ==> m'.cursors[c] == m.cursors[c]
  }

  lemma MovedSnapshots(m: Machine, m': Machine, c: nat, pos: int)
    requires IsOpen(m, c) && m'.cursors == m.cursors[c := m.cursors[c].(pos := pos)]
    ensures SameSnapshots(m, m')
  {
  }

  lemma MovedReady(p: Plan, db: Database, m: Machine, m': Machine, c: nat, pos: int)
    requires p.JoinPlan? && Ready(m, p, db) && KeepsLiterals(AllocateRegs(p), m, m')
    requires IsOpen(m, c) && m'.cursors == m.cursors[c := m.cursors[c].(pos := pos)]
    ensures Ready(m', p, db)
  {
    hide Ready, AllocateRegs, SameSnapshots, KeepsLiterals;
    MovedSnapshots(m, m', c, pos);
    ReadyKept(m, m', p, db);
  }

  lemma ExceptKeeps(r: JoinRegs, m: Machine, m': Machine, pkey: int)
    requires SameExcept(m, m', r.tmpA, pkey) && (pkey == r.r1.pkey || pkey == r.r2.pkey)
    ensures KeepsLiterals(r, m, m')
  {
  }

  // A left row under cursor 0.
  ghost predicate LeftOn(m: Machine, p: Plan, e1: Entry)
    requires p.JoinPlan?
  {
    IsPositioned(m, 0) && CurrentEntry(m, 0) == e1 && TypedEntry(p.s1.columns, e1)
  }

  // The driver on d leads to row j: reach the check of the pair, or stop at the bound.
  lemma InnerFollow(p: Plan, db: Database, m: Machine, e1: Entry, d: nat) returns (m': Machine)
    requires p.JoinPlan? && ValidQuery(p, db) && Loops(p.s2) && Ready(m, p, db) && LeftOn(m, p, e1)
    requires DriverAt(m, p.s2, 1, d) && m.pc == JoinAddresses(p).head2
    ensures Runs(JoinCode(p), m, [], m') && Ready(m', p, db) && LeftOn(m', p, e1)
    ensures DriverAt(m', p.s2, 1, d) && LeftSame(m, m')
    ensures var t, x := Rows(db, p.s2.root), Rows(db, IndexRoot(p.s2));
      var j := TablePos(p.s2, t, x, d);
      && CursorOn(m', 1, t) && m'.cursors[1].pos == j
      && m'.pc == if StopsAt(p.s2, 1, t, x, j) then JoinAddresses(p).done2 else JoinAddresses(p).pairs
  {
    hide JoinCode, Runs, AllocateRegs, ValidJoin, StartLoop, CheckAll, CheckPairs, LoadOutputs, FiltersLoaded, TypedEntry, Rows, LiteralValue;
    var ops, r, a := JoinCode(p), AllocateRegs(p), JoinAddresses(p);
    InnerLayout(p);
    LiteralRegs(p);
    if p.s2.access.Scan? {
      m' := m;
      RunsNothing(ops, m);
    } else {
      m' := FollowRuns(ops, m, db, p.s2, 1, r.r2, r.tmpA, a.tail, a.done2, d);
      ExceptKeeps(r, m, m', r.r2.pkey);
      MovedReady(p, db, m, m', 1, m'.cursors[1].pos);
      FollowLength(p.s2, 1, r.r2, r.tmpA, a.tail, a.done2);
    }
  }

  lemma RightOnRow(p: Plan, db: Database, m: Machine, e1: Entry, j: nat)
    requires p.JoinPlan? && ValidQuery(p, db) && LeftOn(m, p, e1)
    requires CursorOn(m, 1, Rows(db, p.s2.root)) && m.cursors[1].pos == j < |Rows(db, p.s2.root)|
    ensures BothOnRows(m, p, e1, Rows(db, p.s2.root)[j])
  {
    hide TypedEntry, ValidJoin;
  }

  // One turn of the inner loop, without the advance.
  lemma InnerTurn(p: Plan, db: Database, m: Machine, e1: Entry, d: nat) returns (m': Machine)
    requires p.JoinPlan? && ValidQuery(p, db) && Loops(p.s2) && Ready(m, p, db) && LeftOn(m, p, e1)
    requires DriverAt(m, p.s2, 1, d) && m.pc == JoinAddresses(p).head2
    ensures Ready(m', p, db) && LeftOn(m', p, e1) && DriverAt(m', p.s2, 1, d) && LeftSame(m, m')
    ensures var t, x := Rows(db, p.s2.root), Rows(db, IndexRoot(p.s2));
      var j := TablePos(p.s2, t, x, d);
      && Runs(JoinCode(p), m, if StopsAt(p.s2, 1, t, x, j) then [] else EmitOne(p, e1, t[j]), m')
      && m'.pc == if StopsAt(p.s2, 1, t, x, j) then JoinAddresses(p).done2 else JoinAddresses(p).advance2
  {
    hide JoinCode, Runs, JoinAddresses, ValidJoin, Ready, Rows, EmitOne, ValidSource, TypedEntry;
    var t, x := Rows(db, p.s2.root), Rows(db, IndexRoot(p.s2));
    var j := TurnPosition(p, db, m, d);
    var m1 := InnerFollow(p, db, m, e1, d);
    if StopsAt(p.s2, 1, t, x, j) {
      m' := m1;
    } else {
      RightOnRow(p, db, m1, e1, j);
      m' := InnerMatch(p, db, m1, e1, t[j]);
      RunsOn(JoinCode(p), m, m1, EmitOne(p, e1, t[j]), m');
    }
  }

  // The row the driver leads to.
  lemma TurnPosition(p: Plan, db: Database, m: Machine, d: nat) returns (j: nat)
    requires p.JoinPlan? && ValidQuery(p, db) && Loops(p.s2) && Ready(m, p, db) && DriverAt(m, p.s2, 1, d)
    ensures var t, x := Rows(db, p.s2.root), Rows(db, IndexRoot(p.s2));
      && d < |Driver(p.s2, t, x)| && (!p.s2.access.Scan? ==> Linked(t, x)) && ValidAccess(p.s2, 1, t, x)
      && j == TablePos(p.s2, t, x, d) && j < |t|
  {
    hide Rows, FiltersLoaded, AllocateRegs;
    j := TablePos(p.s2, Rows(db, p.s2.root), Rows(db, IndexRoot(p.s2)), d);
  }

  lemma LeftOnKept(m: Machine, m': Machine, p: Plan, e1: Entry)
    requires p.JoinPlan? && LeftOn(m, p, e1) && LeftSame(m, m')
    ensures LeftOn(m', p, e1)
  {
    hide TypedEntry;
  }

  // The advance of a side's loop: back to the head, or on to what follows the loop.
  lemma AdvanceSide(p: Plan, db: Database, m: Machine, s: Source, side: nat, head: nat, d: nat) returns (m': Machine)
    requires p.JoinPlan? && Ready(m, p, db) && Loops(s) && side <= 1
    requires CodeAt(JoinCode(p), m.pc, AdvanceLoop(s, side, head)) && DriverAt(m, s, side, d)
    ensures Runs(JoinCode(p), m, [], m') && Ready(m', p, db)
    ensures |m'.cursors| == |m.cursors|
    ensures forall c :: 0 <= c < |m.cursors| && c != DriverCursor(s.access, side) ==> m'.cursors[c] == m.cursors[c]
    ensures match NextPosition(AdvanceOf(s.access), |m.cursors[DriverCursor(s.access, side)].snapshot|, d)
            case None => m'.pc == m.pc + 1
            case Some(d') => m'.pc == head && DriverAt(m', s, side, d')
  {
    hide JoinCode, Ready, AllocateRegs;
    var ops, c := JoinCode(p), DriverCursor(s.access, side);
    assert ops[m.pc + 0] == AdvanceLoop(s, side, head)[0];
    AdvanceRuns(ops, m, AdvanceOf(s.access), c, head);
    match NextPosition(AdvanceOf(s.access), |m.cursors[c].snapshot|, d)
    case None =>
      m' := m.(pc := m.pc + 1);
      KeepReady(p, db, m, m', AllocateRegs(p).tmpA);
    case Some(d') =>
      m' := AtPosition(m.(pc := head), c, d');
      MovedReady(p, db, m, m', c, d');
  }

  // The advance of the inner loop.
  lemma InnerAdvance(p: Plan, db: Database, m: Machine, e1: Entry, d: nat) returns (m': Machine)
    requires p.JoinPlan? && ValidQuery(p, db) && Loops(p.s2) && Ready(m, p, db) && LeftOn(m, p, e1)
    requires DriverAt(m, p.s2, 1, d) && m.pc == JoinAddresses(p).advance2
    ensures d < |Driver(p.s2, Rows(db, p.s2.root), Rows(db, IndexRoot(p.s2)))|
    ensures Runs(JoinCode(p), m, [], m') && Ready(m', p, db) && LeftOn(m', p, e1) && LeftSame(m, m')
    ensures match NextPosition(AdvanceOf(p.s2.access), |Driver(p.s2, Rows(db, p.s2.root), Rows(db, IndexRoot(p.s2)))|, d)
            case None => m'.pc == JoinAddresses(p).done2
            case Some(d') => m'.pc == JoinAddresses(p).head2 && DriverAt(m', p.s2, 1, d')
  {
    hide JoinCode, Runs, ValidJoin, Rows, TypedEntry, AllocateRegs, FiltersLoaded, LiteralValue, Passes;
    TailLayout(p);
    m' := AdvanceSide(p, db, m, p.s2, 1, JoinAddresses(p).head2, d);
    LeftOnKept(m, m', p, e1);
  }

  // The rest of the inner loop from the driver on d.
  lemma {:induction false} InnerLoop(p: Plan, db: Database, m: Machine, e1: Entry, d: nat) returns (m': Machine)
    requires p.JoinPlan? && ValidQuery(p, db) && Loops(p.s2) && Ready(m, p, db) && LeftOn(m, p, e1)
    requires DriverAt(m, p.s2, 1, d) && m.pc == JoinAddresses(p).head2
    ensures var t, x := Rows(db, p.s2.root), Rows(db, IndexRoot(p.s2));
      && d < |Driver(p.s2, t, x)|
      && Runs(JoinCode(p), m, RowsFor(p, e1, t, Walk(p.s2, 1, t, x, d)), m')
    ensures m'.pc == JoinAddresses(p).done2 && Ready(m', p, db) && LeftOn(m', p, e1) && LeftSame(m, m')
    decreases WalkMeasure(p.s2, |Driver(p.s2, Rows(db, p.s2.root), Rows(db, IndexRoot(p.s2)))|, d)
  {
    hide JoinCode, Runs, ValidJoin, Rows, EmitOne, RowsFor, JoinAddresses, Linked, Ready, LeftOn, DriverAt, StopsAt, TablePos;
    var ops, t, x := JoinCode(p), Rows(db, p.s2.root), Rows(db, IndexRoot(p.s2));
    var j := TurnPosition(p, db, m, d);
    var m1 := InnerTurn(p, db, m, e1, d);
    if StopsAt(p.s2, 1, t, x, j) {
      m' := m1;
      OneRow(p, e1, t, j, []);
    } else {
      var m2 := InnerAdvance(p, db, m1, e1, d);
      match NextPosition(AdvanceOf(p.s2.access), |Driver(p.s2, t, x)|, d)
      case None =>
        m' := m2;
        OneRow(p, e1, t, j, []);
        assert [j] + [] == [j];
        RunsThen(ops, m, EmitOne(p, e1, t[j]), m1, [], m');
      case Some(d') =>
        m' := InnerLoop(p, db, m2, e1, d');
        var rest := Walk(p.s2, 1, t, x, d');
        OneRow(p, e1, t, j, rest);
        TurnThenRest(ops, m, EmitOne(p, e1, t[j]), m1, m2, RowsFor(p, e1, t, rest), m');
    }
  }

  lemma TurnThenRest(ops: seq<Op>, m: Machine, r1: seq<Row>, m1: Machine, m2: Machine, r2: seq<Row>, m': Machine)
    requires Runs(ops, m, r1, m1) && Runs(ops, m1, [], m2) && Runs(ops, m2, r2, m')
    ensures Runs(ops, m, r1 + r2, m')
  {
    hide Runs;
    RunsOn(ops, m1, m2, r2, m');
    RunsThen(ops, m, r1, m1, r2, m');
  }

  lemma OneRow(p: Plan, e1: Entry, t: seq<Entry>, j: nat, rest: seq<nat>)
    requires ValidJoin(p) && j < |t| && forall k :: 0 <= k < |rest| ==> rest[k] < |t|
    ensures RowsFor(p, e1, t, [j] + rest) == EmitOne(p, e1, t[j]) + RowsFor(p, e1, t, rest)
    ensures RowsFor(p, e1, t, []) == []
  {
    hide EmitOne, ValidJoin;
    assert ([j] + rest)[1..] == rest;
  }
}
