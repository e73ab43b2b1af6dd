// The whole run of a compiled join program, from the first instruction to Halt.
module JoinProgram {
  import opened Common
  import opened Sql
  import opened Values
  import opened Trees
  import opened Machine
  import opened MachineRun
  import opened Planner
  import opened Layout
  import opened JoinLayout
  import opened CodeRuns
  import opened JoinRows
  import opened JoinRun
  import opened JoinLoops

  // A side that is positioned once stands on the one row it visits.
  ghost predicate Placed(m: Machine, db: Database, s: Source, side: nat)
    requires ValidSource(db, s, side)
  {
    s.access.EqSeek? ==>
      && CursorOn(m, side, Rows(db, s.root))
      && |VisitOf(db, s, side)| == 1 && m.cursors[side].pos == VisitOf(db, s, side)[0]
  }

  // ---- the inner loop, from its first instruction --------------------------------------------

  // Rewind, or the range seek.
  lemma RewindSide(p: Plan, db: Database, m: Machine, s: Source, side: nat, r: SideRegs, exit: nat) returns (m': Machine)
    requires p.JoinPlan? && Ready(m, p, db) && s.access.Scan? && side <= 1
    requires ValidSource(db, s, side) && SideReady(m, db, s, side, r)
    requires CodeAt(JoinCode(p), m.pc, StartLoop(s, side, r, exit))
    ensures Runs(JoinCode(p), m, [], m') && Ready(m', p, db)
    ensures |m'.cursors| == |m.cursors|
    ensures forall c :: 0 <= c < |m.cursors| && c != DriverCursor(s.access, side) ==> m'.cursors[c] == m.cursors[c]
    ensures match StartPosition(s, Rows(db, s.root), Rows(db, IndexRoot(s)))
            case None => m'.pc == exit
            case Some(d) => m'.pc == m.pc + 1 && DriverAt(m', s, side, d)
  {
    hide JoinCode, Ready, AllocateRegs, Rows, TypedTable;
    var ops := JoinCode(p);
    assert ops[m.pc + 0] == StartLoop(s, side, r, exit)[0];
    RewindRuns(ops, m, side, exit);
    m' := if m.cursors[side].snapshot == [] then AtPosition(m.(pc := exit), side, -1)
          else AtPosition(m.(pc := m.pc + 1), side, 0);
    MovedReady(p, db, m, m', side, m'.cursors[side].pos);
  }

  lemma SeekSide(p: Plan, db: Database, m: Machine, s: Source, side: nat, r: SideRegs, exit: nat) returns (m': Machine)
    requires p.JoinPlan? && Ready(m, p, db) && s.access.RangeSeek? && side <= 1
    requires ValidSource(db, s, side) && SideReady(m, db, s, side, r)
    requires CodeAt(JoinCode(p), m.pc, StartLoop(s, side, r, exit))
    ensures Runs(JoinCode(p), m, [], m') && Ready(m', p, db)
    ensures |m'.cursors| == |m.cursors|
    ensures forall c :: 0 <= c < |m.cursors| && c != DriverCursor(s.access, side) ==> m'.cursors[c] == m.cursors[c]
    ensures match StartPosition(s, Rows(db, s.root), Rows(db, IndexRoot(s)))
            case None => m'.pc == exit
            case Some(d) => m'.pc == m.pc + 1 && DriverAt(m', s, side, d)
  {
    hide JoinCode, Ready, AllocateRegs, Rows, TypedTable, Linked;
    var ops, c := JoinCode(p), DriverCursor(s.access, side);
    assert ops[m.pc + 0] == StartLoop(s, side, r, exit)[0];
    var key := SeekKey(s.access.cmp.lit);
    SeekRuns(ops, m, SeekOf(s.access.cmp), c, exit, r.lit, key);
    match SeekPosition(SeekOf(s.access.cmp), m.cursors[c].snapshot, key)
    case None =>
      m' := m.(pc := exit);
      KeepReady(p, db, m, m', AllocateRegs(p).tmpA);
    case Some(d) =>
      m' := AtPosition(m.(pc := m.pc + 1), c, d);
      MovedReady(p, db, m, m', c, d);
  }

  lemma StartSide(p: Plan, db: Database, m: Machine, s: Source, side: nat, r: SideRegs, exit: nat) returns (m': Machine)
    requires p.JoinPlan? && Ready(m, p, db) && Loops(s) && side <= 1
    requires ValidSource(db, s, side) && SideReady(m, db, s, side, r)
    requires CodeAt(JoinCode(p), m.pc, StartLoop(s, side, r, exit))
    ensures Runs(JoinCode(p), m, [], m') && Ready(m', p, db)
    ensures |m'.cursors| == |m.cursors|
    ensures forall c :: 0 <= c < |m.cursors| && c != DriverCursor(s.access, side) ==> m'.cursors[c] == m.cursors[c]
    ensures match StartPosition(s, Rows(db, s.root), Rows(db, IndexRoot(s)))
            case None => m'.pc == exit
            case Some(d) => m'.pc == m.pc + 1 && DriverAt(m', s, side, d)
  {
    hide JoinCode, Ready, Rows, ValidSource, SideReady, StartLoop, CodeAt, StartPosition, DriverAt, Runs;
    if s.access.Scan? {
      m' := RewindSide(p, db, m, s, side, r, exit);
    } else {
      m' := SeekSide(p, db, m, s, side, r, exit);
    }
  }

  // All of the right side for one left row.
  lemma InnerPass(p: Plan, db: Database, m: Machine, e1: Entry) returns (m': Machine)
    requires p.JoinPlan? && ValidQuery(p, db) && Ready(m, p, db) && LeftOn(m, p, e1) && Placed(m, db, p.s2, 1)
    requires m.pc == JoinAddresses(p).start2
    ensures Runs(JoinCode(p), m, RowsFor(p, e1, Rows(db, p.s2.root), VisitOf(db, p.s2, 1)), m')
    ensures m'.pc == JoinAddresses(p).done2 && Ready(m', p, db) && LeftSame(m, m') && Placed(m', db, p.s2, 1)
  {
    hide JoinCode, Runs, ValidJoin, Rows, EmitOne, TypedEntry, AllocateRegs, FiltersLoaded, LiteralValue, Passes;
    InnerLayout(p);
    if Loops(p.s2) {
      m' := InnerScan(p, db, m, e1);
    } else {
      m' := InnerOnce(p, db, m, e1);
    }
  }

  // A looping right side.
  lemma InnerScan(p: Plan, db: Database, m: Machine, e1: Entry) returns (m': Machine)
    requires p.JoinPlan? && ValidQuery(p, db) && Ready(m, p, db) && LeftOn(m, p, e1) && Loops(p.s2)
    requires m.pc == JoinAddresses(p).start2
    ensures Runs(JoinCode(p), m, RowsFor(p, e1, Rows(db, p.s2.root), VisitOf(db, p.s2, 1)), m')
    ensures m'.pc == JoinAddresses(p).done2 && Ready(m', p, db) && LeftSame(m, m')
  {
    hide JoinCode, Runs, ValidJoin, Rows, EmitOne, TypedEntry, AllocateRegs, FiltersLoaded, LiteralValue, Passes, Walk;
    InnerLayout(p);
    var t, x := Rows(db, p.s2.root), Rows(db, IndexRoot(p.s2));
    var m1 := StartSide(p, db, m, p.s2, 1, AllocateRegs(p).r2, JoinAddresses(p).done2);
    LeftOnKept(m, m1, p, e1);
    match StartPosition(p.s2, t, x)
    case None => m' := m1;
    case Some(d) =>
      m' := InnerLoop(p, db, m1, e1, d);
      RunsOn(JoinCode(p), m, m1, RowsFor(p, e1, t, Walk(p.s2, 1, t, x, d)), m');
  }

  // A right side that was positioned once.
  lemma InnerOnce(p: Plan, db: Database, m: Machine, e1: Entry) returns (m': Machine)
    requires p.JoinPlan? && ValidQuery(p, db) && Ready(m, p, db) && LeftOn(m, p, e1) && !Loops(p.s2)
    requires Placed(m, db, p.s2, 1) && m.pc == JoinAddresses(p).start2
    ensures Runs(JoinCode(p), m, RowsFor(p, e1, Rows(db, p.s2.root), VisitOf(db, p.s2, 1)), m')
    ensures m'.pc == JoinAddresses(p).done2 && Ready(m', p, db) && LeftSame(m, m') && Placed(m', db, p.s2, 1)
  {
    hide JoinCode, Runs, ValidJoin, Rows, EmitOne, TypedEntry, AllocateRegs, FiltersLoaded, LiteralValue, Passes, Visit;
    var t, j := Rows(db, p.s2.root), VisitOf(db, p.s2, 1)[0];
    RightOnRow(p, db, m, e1, j);
    m' := InnerMatch(p, db, m, e1, t[j]);
    assert VisitOf(db, p.s2, 1) == [j] + [];
    OneRow(p, e1, t, j, []);
    assert EmitOne(p, e1, t[j]) + [] == EmitOne(p, e1, t[j]);
  }

  // ---- the outer loop ----------------------------------------------------------------------------

  ghost function RowsForLeft(p: Plan, db: Database, e1: Entry): seq<Row>
    requires ValidQuery(p, db)
  {
    if PassesAll(p.s1.columns, 0, e1, p.s1.filter)
    then RowsFor(p, e1, Rows(db, p.s2.root), VisitOf(db, p.s2, 1)) else []
  }

  // The row filter of a scanned left side.
  lemma OuterFilter(p: Plan, db: Database, m: Machine, e1: Entry) returns (m': Machine)
    requires p.JoinPlan? && ValidQuery(p, db) && Ready(m, p, db) && LeftOn(m, p, e1)
    requires m.pc == JoinAddresses(p).head1
    ensures Runs(JoinCode(p), m, [], m') && m'.cursors == m.cursors && Ready(m', p, db)
    ensures m'.pc == if PassesAll(p.s1.columns, 0, e1, p.s1.filter)
                     then JoinAddresses(p).head1 + 2 * |p.s1.filter| else JoinAddresses(p).advance1
  {
    hide JoinCode, Runs, ValidSource, Rows, TypedEntry, AllocateRegs, LiteralValue, Passes, AllPass, PassesAll, CheckAll, StartLoop, FollowIndex;
    var r, a := AllocateRegs(p), JoinAddresses(p);
    OuterLayout(p);
    LiteralRegs(p);
    Pass1(p, e1, e1);
    forall i | 0 <= i < |p.s1.filter|
      ensures OnRow(m, p.s1.columns, p.s2.columns, e1, e1, p.s1.filter[i].col.side)
    {
      assert SideCmp(p.s1.columns, 0, p.s1.filter[i]);
    }
    m' := CheckAllRuns(JoinCode(p), m, p.s1.columns, p.s2.columns, e1, e1, p.s1.filter, r.lits, r.tmpA, a.advance1);
    KeepReady(p, db, m, m', r.tmpA);
  }

  // The driver on d leads to row j of the left table: filter it, follow the index, or stop at the bound.
  lemma OuterFollow(p: Plan, db: Database, m: Machine, d: nat) returns (m': Machine)
    requires p.JoinPlan? && ValidQuery(p, db) && p.s1.access.RangeSeek? && Ready(m, p, db)
    requires DriverAt(m, p.s1, 0, d) && m.pc == JoinAddresses(p).head1
    ensures Runs(JoinCode(p), m, [], m') && Ready(m', p, db) && DriverAt(m', p.s1, 0, d)
    ensures |m'.cursors| == |m.cursors| && forall c :: 0 < c < |m.cursors| ==> m'.cursors[c] == m.cursors[c]
    ensures var t, x := Rows(db, p.s1.root), Rows(db, IndexRoot(p.s1));
      var j := TablePos(p.s1, t, x, d);
      && CursorOn(m', 0, t) && m'.cursors[0].pos == j
      && m'.pc == if StopsAt(p.s1, 0, t, x, j) then JoinAddresses(p).tail else JoinAddresses(p).start2
  {
    hide JoinCode, Runs, AllocateRegs, ValidJoin, StartLoop, CheckAll, CheckPairs, LoadOutputs, FiltersLoaded, TypedEntry, Rows, LiteralValue;
    var ops, r, a := JoinCode(p), AllocateRegs(p), JoinAddresses(p);
    OuterLayout(p);
    LiteralRegs(p);
    m' := FollowRuns(ops, m, db, p.s1, 0, r.r1, r.tmpA, a.tail, a.tail, d);
    ExceptKeeps(r, m, m', r.r1.pkey);
    MovedReady(p, db, m, m', 0, m'.cursors[0].pos);
    FollowLength(p.s1, 0, r.r1, r.tmpA, a.tail, a.tail);
  }

  lemma PlacedKept(m: Machine, m': Machine, db: Database, s: Source, side: nat)
    requires ValidSource(db, s, side) && Placed(m, db, s, side) && side < |m.cursors| <= |m'.cursors|
    requires m'.cursors[side] == m.cursors[side]
    ensures Placed(m', db, s, side)
  {
  }

  // The row the driver leads to.
  lemma LeftPosition(p: Plan, db: Database, m: Machine, d: nat) returns (j: nat)
    requires p.JoinPlan? && ValidQuery(p, db) && Loops(p.s1) && Ready(m, p, db) && DriverAt(m, p.s1, 0, d)
    ensures var t, x := Rows(db, p.s1.root), Rows(db, IndexRoot(p.s1));
      && d < |Driver(p.s1, t, x)| && (!p.s1.access.Scan? ==> Linked(t, x)) && ValidAccess(p.s1, 0, t, x)
      && j == TablePos(p.s1, t, x, d) && j < |t| && TypedEntry(p.s1.columns, t[j])
  {
    hide Rows, FiltersLoaded, AllocateRegs, ColumnValue;
    j := TablePos(p.s1, Rows(db, p.s1.root), Rows(db, IndexRoot(p.s1)), d);
  }

  // One left row: filter, inner loop, and on to the outer advance.
  lemma OuterRow(p: Plan, db: Database, m: Machine, e1: Entry) returns (m': Machine)
    requires p.JoinPlan? && ValidQuery(p, db) && Ready(m, p, db) && LeftOn(m, p, e1) && Placed(m, db, p.s2, 1)
    requires m.pc == JoinAddresses(p).start2
    ensures Runs(JoinCode(p), m, RowsFor(p, e1, Rows(db, p.s2.root), VisitOf(db, p.s2, 1)), m')
    ensures m'.pc == JoinAddresses(p).advance1 && Ready(m', p, db) && Placed(m', db, p.s2, 1)
    ensures |m'.cursors| == |m.cursors| && forall c :: 0 <= c < |m.cursors| && c != 1 && c != 3 ==> m'.cursors[c] == m.cursors[c]
  {
    hide JoinCode, Runs, ValidQuery, Rows, Ready, TypedEntry, AllocateRegs, Placed;
    m' := InnerPass(p, db, m, e1);
  }

  // One turn of the outer loop over a scanned left side.
  lemma OuterScanTurn(p: Plan, db: Database, m: Machine, d: nat) returns (m': Machine)
    requires p.JoinPlan? && ValidQuery(p, db) && p.s1.access.Scan? && Ready(m, p, db) && Placed(m, db, p.s2, 1)
    requires DriverAt(m, p.s1, 0, d) && m.pc == JoinAddresses(p).head1
    ensures d < |Rows(db, p.s1.root)| && Runs(JoinCode(p), m, RowsForLeft(p, db, Rows(db, p.s1.root)[d]), m')
    ensures m'.pc == JoinAddresses(p).advance1 && Ready(m', p, db) && Placed(m', db, p.s2, 1)
    ensures |m'.cursors| == |m.cursors| && DriverAt(m', p.s1, 0, d)
  {
    hide JoinCode, Runs, Rows, FiltersLoaded, TypedEntry, AllocateRegs, Placed, PassesAll, LiteralValue, VisitOf, RowsFor;
    var t := Rows(db, p.s1.root);
    var _ := LeftPosition(p, db, m, d);
    var m1 := OuterFilter(p, db, m, t[d]);
    if PassesAll(p.s1.columns, 0, t[d], p.s1.filter) {
      PlacedKept(m, m1, db, p.s2, 1);
      m' := OuterRow(p, db, m1, t[d]);
      RunsOn(JoinCode(p), m, m1, RowsForLeft(p, db, t[d]), m');
    } else {
      m' := m1;
      PlacedKept(m, m1, db, p.s2, 1);
    }
  }

  // One turn of the outer loop over an index-driven left side.
  lemma OuterRangeTurn(p: Plan, db: Database, m: Machine, d: nat) returns (m': Machine)
    requires p.JoinPlan? && ValidQuery(p, db) && p.s1.access.RangeSeek? && Ready(m, p, db) && Placed(m, db, p.s2, 1)
    requires DriverAt(m, p.s1, 0, d) && m.pc == JoinAddresses(p).head1
    ensures Ready(m', p, db) && Placed(m', db, p.s2, 1) && |m'.cursors| == |m.cursors| && DriverAt(m', p.s1, 0, d)
    ensures var t, x := Rows(db, p.s1.root), Rows(db, IndexRoot(p.s1));
      && d < |x|
      && var j := TablePos(p.s1, t, x, d);
        if StopsAt(p.s1, 0, t, x, j) then Runs(JoinCode(p), m, [], m') && m'.pc == JoinAddresses(p).tail
        else Runs(JoinCode(p), m, RowsForLeft(p, db, t[j]), m') && m'.pc == JoinAddresses(p).advance1
  {
    hide JoinCode, Runs, ValidJoin, Rows, FiltersLoaded, TypedEntry, AllocateRegs, Placed, LiteralValue, VisitOf, RowsFor, Passes;
    var t, x := Rows(db, p.s1.root), Rows(db, IndexRoot(p.s1));
    var j := LeftPosition(p, db, m, d);
    var m1 := OuterFollow(p, db, m, d);
    PlacedKept(m, m1, db, p.s2, 1);
    if StopsAt(p.s1, 0, t, x, j) {
      m' := m1;
    } else {
      m' := OuterRow(p, db, m1, t[j]);
      assert PassesAll(p.s1.columns, 0, t[j], p.s1.filter);
      RunsOn(JoinCode(p), m, m1, RowsForLeft(p, db, t[j]), m');
    }
  }

  // Either kind.
  lemma OuterTurn(p: Plan, db: Database, m: Machine, d: nat) returns (m': Machine)
    requires p.JoinPlan? && ValidQuery(p, db) && Loops(p.s1) && Ready(m, p, db) && Placed(m, db, p.s2, 1)
    requires DriverAt(m, p.s1, 0, d) && m.pc == JoinAddresses(p).head1
    ensures Ready(m', p, db) && Placed(m', db, p.s2, 1) && |m'.cursors| == |m.cursors| && DriverAt(m', p.s1, 0, d)
    ensures var t, x := Rows(db, p.s1.root), Rows(db, IndexRoot(p.s1));
      && d < |Driver(p.s1, t, x)|
      && var j := TablePos(p.s1, t, x, d);
        if StopsAt(p.s1, 0, t, x, j) then Runs(JoinCode(p), m, [], m') && m'.pc == JoinAddresses(p).tail
        else Runs(JoinCode(p), m, RowsForLeft(p, db, t[j]), m') && m'.pc == JoinAddresses(p).advance1
  {
    hide JoinCode, Runs, ValidJoin, Rows, Ready, TypedEntry, Placed, RowsForLeft, Passes;
    if p.s1.access.Scan? {
      m' := OuterScanTurn(p, db, m, d);
    } else {
      m' := OuterRangeTurn(p, db, m, d);
    }
  }

  ghost function LeftRows(p: Plan, db: Database, us: seq<nat>): seq<Row>
    requires ValidQuery(p, db) && forall k :: 0 <= k < |us| ==> us[k] < |Rows(db, p.s1.root)|
  {
    RowsOver(p, Rows(db, p.s1.root), us, Rows(db, p.s2.root), VisitOf(db, p.s2, 1))
  }

  lemma OneLeft(p: Plan, db: Database, j: nat, rest: seq<nat>)
    requires ValidQuery(p, db) && j < |Rows(db, p.s1.root)|
    requires forall k :: 0 <= k < |rest| ==> rest[k] < |Rows(db, p.s1.root)|
    ensures LeftRows(p, db, [j] + rest) == RowsForLeft(p, db, Rows(db, p.s1.root)[j]) + LeftRows(p, db, rest)
  {
    hide RowsFor, PassesAll, Rows, ValidJoin;
    assert ([j] + rest)[1..] == rest;
  }

  // The rest of the outer loop from the driver on d.
  lemma {:induction false} OuterLoop(p: Plan, db: Database, m: Machine, d: nat) returns (m': Machine)
    requires p.JoinPlan? && ValidQuery(p, db) && Loops(p.s1) && Ready(m, p, db) && Placed(m, db, p.s2, 1)
    requires DriverAt(m, p.s1, 0, d) && m.pc == JoinAddresses(p).head1
    ensures var t, x := Rows(db, p.s1.root), Rows(db, IndexRoot(p.s1));
      d < |Driver(p.s1, t, x)| && Runs(JoinCode(p), m, LeftRows(p, db, Walk(p.s1, 0, t, x, d)), m')
    ensures m'.pc == JoinAddresses(p).tail && Ready(m', p, db)
    decreases WalkMeasure(p.s1, |Driver(p.s1, Rows(db, p.s1.root), Rows(db, IndexRoot(p.s1)))|, d)
  {
    hide JoinCode, Runs, ValidJoin, Rows, RowsForLeft, LeftRows, TypedEntry, AllocateRegs, FiltersLoaded, LiteralValue, Passes, Placed;
    var ops, a := JoinCode(p), JoinAddresses(p);
    var t, x := Rows(db, p.s1.root), Rows(db, IndexRoot(p.s1));
    var j := LeftPosition(p, db, m, d);
    var m1 := OuterTurn(p, db, m, d);
    if StopsAt(p.s1, 0, t, x, j) {
      m' := m1;
      NoLeft(p, db);
    } else {
      m' := OuterContinue(p, db, m1, d);
      RunsThen(ops, m, RowsForLeft(p, db, t[j]), m1, LeftAfter(p, db, d), m');
      OneLeft(p, db, j, WalkAfter(p.s1, 0, t, x, d));
      assert Walk(p.s1, 0, t, x, d) == [j] + WalkAfter(p.s1, 0, t, x, d);
    }
  }

  lemma NoLeft(p: Plan, db: Database)
    requires ValidQuery(p, db)
    ensures LeftRows(p, db, []) == []
  {
  }

  // The walk after the driver's entry d.
  ghost function WalkAfter(s: Source, side: nat, t: seq<Entry>, x: seq<Entry>, d: nat): (v: seq<nat>)
    requires ValidAccess(s, side, t, x) && d < |Driver(s, t, x)|
    ensures forall k :: 0 <= k < |v| ==> v[k] < |t|
  {
    match NextPosition(AdvanceOf(s.access), |Driver(s, t, x)|, d)
    case None => []
    case Some(d') => Walk(s, side, t, x, d')
  }

  ghost function LeftAfter(p: Plan, db: Database, d: nat): seq<Row>
    requires ValidQuery(p, db) && d < |Driver(p.s1, Rows(db, p.s1.root), Rows(db, IndexRoot(p.s1)))|
  {
    LeftRows(p, db, WalkAfter(p.s1, 0, Rows(db, p.s1.root), Rows(db, IndexRoot(p.s1)), d))
  }

  // From the outer advance: the remaining turns, or the tail.
  lemma {:induction false} OuterContinue(p: Plan, db: Database, m: Machine, d: nat) returns (m': Machine)
    requires p.JoinPlan? && ValidQuery(p, db) && Loops(p.s1) && Ready(m, p, db) && Placed(m, db, p.s2, 1)
    requires DriverAt(m, p.s1, 0, d) && m.pc == JoinAddresses(p).advance1
    ensures d < |Driver(p.s1, Rows(db, p.s1.root), Rows(db, IndexRoot(p.s1)))|
    ensures Runs(JoinCode(p), m, LeftAfter(p, db, d), m')
    ensures m'.pc == JoinAddresses(p).tail && Ready(m', p, db)
    decreases WalkMeasure(p.s1, |Driver(p.s1, Rows(db, p.s1.root), Rows(db, IndexRoot(p.s1)))|, d), 0
  {
    hide JoinCode, Runs, ValidJoin, Rows, RowsForLeft, LeftRows, TypedEntry, AllocateRegs, FiltersLoaded, LiteralValue, Passes, Placed;
    var ops, a := JoinCode(p), JoinAddresses(p);
    var t, x := Rows(db, p.s1.root), Rows(db, IndexRoot(p.s1));
    TailLayout(p);
    var _ := LeftPosition(p, db, m, d);
    var m1 := AdvanceSide(p, db, m, p.s1, 0, a.head1, d);
    match NextPosition(AdvanceOf(p.s1.access), |Driver(p.s1, t, x)|, d)
    case None =>
      m' := m1;
      NoLeft(p, db);
    case Some(d') =>
      PlacedKept(m, m1, db, p.s2, 1);
      m' := OuterLoop(p, db, m1, d');
      RunsOn(ops, m, m1, LeftAfter(p, db, d), m');
  }

  // All of the left side.
  lemma OuterPass(p: Plan, db: Database, m: Machine) returns (m': Machine)
    requires p.JoinPlan? && ValidQuery(p, db) && Ready(m, p, db) && Placed(m, db, p.s1, 0) && Placed(m, db, p.s2, 1)
    requires m.pc == JoinAddresses(p).start1
    ensures Runs(JoinCode(p), m, JoinOutput(p, db), m')
    ensures m'.pc == JoinAddresses(p).tail && Ready(m', p, db)
  {
    hide JoinCode, Runs, ValidJoin, Rows, TypedEntry, Placed, RowsOver, Visit;
    if Loops(p.s1) {
      m' := OuterScan(p, db, m);
    } else {
      m' := OuterOnce(p, db, m);
    }
  }

  lemma OuterScan(p: Plan, db: Database, m: Machine) returns (m': Machine)
    requires p.JoinPlan? && ValidQuery(p, db) && Ready(m, p, db) && Loops(p.s1) && Placed(m, db, p.s2, 1)
    requires m.pc == JoinAddresses(p).start1
    ensures Runs(JoinCode(p), m, LeftRows(p, db, VisitOf(db, p.s1, 0)), m')
    ensures m'.pc == JoinAddresses(p).tail && Ready(m', p, db)
  {
    hide JoinCode, Runs, ValidJoin, Rows, TypedEntry, AllocateRegs, FiltersLoaded, LiteralValue, Passes, Walk, Placed, LeftRows;
    OuterLayout(p);
    var t, x := Rows(db, p.s1.root), Rows(db, IndexRoot(p.s1));
    var m1 := StartSide(p, db, m, p.s1, 0, AllocateRegs(p).r1, JoinAddresses(p).tail);
    match StartPosition(p.s1, t, x)
    case None =>
      m' := m1;
      NoLeft(p, db);
    case Some(d) =>
      PlacedKept(m, m1, db, p.s2, 1);
      m' := OuterLoop(p, db, m1, d);
      RunsOn(JoinCode(p), m, m1, LeftRows(p, db, VisitOf(db, p.s1, 0)), m');
  }

  lemma OuterOnce(p: Plan, db: Database, m: Machine) returns (m': Machine)
    requires p.JoinPlan? && ValidQuery(p, db) && Ready(m, p, db) && !Loops(p.s1)
    requires Placed(m, db, p.s1, 0) && Placed(m, db, p.s2, 1) && m.pc == JoinAddresses(p).start1
    ensures Runs(JoinCode(p), m, LeftRows(p, db, VisitOf(db, p.s1, 0)), m')
    ensures m'.pc == JoinAddresses(p).tail && Ready(m', p, db)
  {
    hide JoinCode, Runs, ValidJoin, Rows, AllocateRegs, FiltersLoaded, LiteralValue, Passes, Visit, LeftRows, ColumnValue, RowsFor;
    var t, j := Rows(db, p.s1.root), VisitOf(db, p.s1, 0)[0];
    assert LeftOn(m, p, t[j]);
    m' := OuterRow(p, db, m, t[j]);
    assert VisitOf(db, p.s1, 0) == [j] + [];
    OneLeft(p, db, j, []);
    NoLeft(p, db);
    assert PassesAll(p.s1.columns, 0, t[j], p.s1.filter);
    assert RowsForLeft(p, db, t[j]) + [] == RowsForLeft(p, db, t[j]);
  }

  // ---- closing and halting ------------------------------------------------------------------------

  lemma CloseRuns(ops: seq<Op>, m: Machine, s: Source, side: nat) returns (m': Machine)
    requires CodeAt(ops, m.pc, CloseSide(s, side)) && side <= 1
    requires IsOpen(m, side) && (!s.access.Scan? ==> IsOpen(m, side + 2))
    ensures Runs(ops, m, [], m') && m'.pc == m.pc + |CloseSide(s, side)|
    ensures |m'.cursors| == |m.cursors|
    ensures forall c :: 0 <= c < |m.cursors| && c != side && c != side + 2 ==> m'.cursors[c] == m.cursors[c]
  {
    assert ops[m.pc + 0] == CloseSide(s, side)[0];
    RunsStep(ops, m);
    m' := m.(pc := m.pc + 1, cursors := m.cursors[side := Closed]);
    if !s.access.Scan? {
      var m1 := m';
      assert ops[m.pc + 1] == CloseSide(s, side)[1];
      RunsStep(ops, m1);
      m' := m1.(pc := m1.pc + 1, cursors := m1.cursors[side + 2 := Closed]);
      RunsOn(ops, m, m1, [], m');
    }
  }

  ghost predicate SideOpen(m: Machine, s: Source, side: nat) {
    IsOpen(m, side) && (!s.access.Scan? ==> IsOpen(m, side + 2))
  }

  lemma TailRuns(p: Plan, m: Machine) returns (m': Machine)
    requires p.JoinPlan? && SideOpen(m, p.s1, 0) && SideOpen(m, p.s2, 1) && m.pc == JoinAddresses(p).tail
    ensures Runs(JoinCode(p), m, [], m') && m'.pc == |JoinCode(p)|
  {
    hide JoinCode, Runs, AllocateRegs, CloseSide;
    var ops := JoinCode(p);
    TailLayout(p);
    var m1 := CloseRuns(ops, m, p.s2, 1);
    var m2 := CloseRuns(ops, m1, p.s1, 0);
    RunsOn(ops, m, m1, [], m2);
    assert ops[JoinAddresses(p).end - 1 + 0] == [MakeOp(Op_Halt, 0, 0, 0)][0];
    RunsStep(ops, m2);
    m' := m2.(pc := |ops|);
    RunsOn(ops, m, m2, [], m');
  }
}
