// From the first instruction of a join program to its loops, and the program as a whole.
module JoinStart {
  import opened Common
  import opened Sql
  import opened Values
  import opened Trees
  import opened Machine
  import opened MachineRun
  import opened Planner
  import opened Layout
  import opened JoinLayout
  import opened CodeRuns
  import opened JoinRows
  import opened JoinRun
  import opened JoinLoops
  import opened JoinProgram

  // A machine as chidb_stmt_init leaves it, and the code generator, which announces the number
  // of columns of a row before the first one is there.
  function Initial(db: Database, columns: nat): Machine {
    Machine(0, Filled(10), seq(10, i => Closed), db, 0, columns)
  }

  // ---- opening cursors -----------------------------------------------------------------------

  // Loading a root page number and opening a cursor on it.
  lemma OpenOne(ops: seq<Op>, m: Machine, root: nat, reg: nat, cursor: nat, columns: int) returns (m': Machine)
    requires m.pc + 1 < |ops| && ops[m.pc] == MakeOp(Op_Integer, root, reg, 0)
    requires ops[m.pc + 1] == MakeOp(Op_OpenRead, cursor, reg, columns)
    requires root in m.db.store && root < 0x8000_0000
    ensures Runs(ops, m, [], m') && m'.pc == m.pc + 2 && m'.db == m.db && |m.cursors| <= |m'.cursors|
    ensures CursorOn(m', cursor, Rows(m.db, root))
    ensures forall c :: 0 <= c < |m.cursors| && c != cursor ==> m'.cursors[c] == m.cursors[c]
  {
    hide Runs;
    RunsStep(ops, m);
    var m1 := AfterLoad(m, reg, Int(root));
    assert Wrap(m1.regs[reg].i) == root;
    RunsStep(ops, m1);
    m' := Step(ops, m1).m;
    RunsOn(ops, m, m1, [], m');
  }

  lemma OpenRuns(ops: seq<Op>, m: Machine, s: Source, side: nat, r: SideRegs) returns (m': Machine)
    requires CodeAt(ops, m.pc, OpenSide(s, side, r)) && ValidSource(m.db, s, side)
    requires 0 <= r.root && (!s.access.Scan? ==> 0 <= r.idxRoot)
    ensures Runs(ops, m, [], m') && m'.pc == m.pc + |OpenSide(s, side, r)| && m'.db == m.db && |m.cursors| <= |m'.cursors|
    ensures CursorOn(m', side, Rows(m.db, s.root))
    ensures !s.access.Scan? ==> CursorOn(m', side + 2, Rows(m.db, IndexRoot(s)))
    ensures forall c :: 0 <= c < |m.cursors| && c != side && c != side + 2 ==> m'.cursors[c] == m.cursors[c]
  {
    hide Runs, Rows;
    var code := OpenSide(s, side, r);
    assert ops[m.pc + 0] == code[0] && ops[m.pc + 1] == code[1];
    if s.access.Scan? {
      m' := OpenOne(ops, m, s.root, r.root, side, |s.columns|);
    } else {
      var m1 := OpenOne(ops, m, s.access.indexRoot, r.idxRoot, side + 2, 0);
      assert ops[m.pc + 2] == code[2] && ops[m.pc + 3] == code[3];
      m' := OpenOne(ops, m1, s.root, r.root, side, |s.columns|);
      RunsOn(ops, m, m1, [], m');
    }
  }

  // ---- loading literals ------------------------------------------------------------------------

  ghost predicate SideLoaded(m: Machine, s: Source, r: SideRegs) {
    && (!s.access.Scan? ==> RegIs(m, r.lit, LiteralValue(s.access.cmp.lit)))
    && (HasUpper(s.access) ==> RegIs(m, r.upper, LiteralValue(s.access.upper.value.lit)))
  }

  lemma SideLiteralsRun(ops: seq<Op>, m: Machine, s: Source, side: nat, r: SideRegs, t: seq<Entry>, x: seq<Entry>)
    returns (m': Machine)
    requires CodeAt(ops, m.pc, SideLiterals(s, r)) && ValidAccess(s, side, t, x)
    requires !s.access.Scan? ==> 0 <= r.lit
    requires HasUpper(s.access) ==> 0 <= r.upper && r.upper != r.lit
    ensures Runs(ops, m, [], m') && m'.pc == m.pc + |SideLiterals(s, r)| && m'.db == m.db && m'.cursors == m.cursors
    ensures SideLoaded(m', s, r) && |m.regs| <= |m'.regs|
    ensures forall i :: 0 <= i < |m.regs| && i != r.lit && i != r.upper ==> m'.regs[i] == m.regs[i]
  {
    hide Runs, LiteralValue;
    var code := SideLiterals(s, r);
    m' := m;
    RunsNothing(ops, m);
    if !s.access.Scan? {
      assert ops[m.pc + 0] == code[0];
      LiteralRuns(ops, m, s.access.cmp.lit, r.lit);
      var m1 := AfterLoad(m, r.lit, LiteralValue(s.access.cmp.lit));
      m' := m1;
      if HasUpper(s.access) {
        assert ops[m.pc + 1] == code[1];
        LiteralRuns(ops, m1, s.access.upper.value.lit, r.upper);
        m' := AfterLoad(m1, r.upper, LiteralValue(s.access.upper.value.lit));
        RunsOn(ops, m, m1, [], m');
      }
    }
  }

  lemma {:induction false} LiteralsRun(ops: seq<Op>, m: Machine, cmps: seq<ResolvedCmp>, base: nat, n: nat) returns (m': Machine)
    requires CodeAt(ops, m.pc, LoadLiterals(cmps, base)) && n <= |cmps|
    requires forall i :: 0 <= i < |cmps| ==> !cmps[i].lit.DoubleLit?
    ensures Runs(ops, m, [], m') && m'.pc == m.pc + n && m'.cursors == m.cursors && SameBelow(m, m', base)
    ensures Loaded(m', cmps[..n], base)
  {
    hide Runs, LiteralValue, LoadLiteral;
    if n == 0 {
      m' := m;
      RunsNothing(ops, m);
    } else {
      var m1 := LiteralsRun(ops, m, cmps, base, n - 1);
      assert ops[m.pc + (n - 1)] == LoadLiterals(cmps, base)[n - 1];
      LiteralRuns(ops, m1, cmps[n - 1].lit, base + (n - 1));
      m' := AfterLoad(m1, base + (n - 1), LiteralValue(cmps[n - 1].lit));
      RunsOn(ops, m, m1, [], m');
      forall i | 0 <= i < n ensures RegIs(m', base + i, LiteralValue(cmps[i].lit)) {
        if i < n - 1 {
          assert RegIs(m1, base + i, LiteralValue(cmps[..n - 1][i].lit));
        }
      }
    }
  }

  lemma CmpsNotDouble(columns: seq<Column>, side: nat, cmps: seq<ResolvedCmp>)
    requires SideCmps(columns, side, cmps)
    ensures forall i :: 0 <= i < |cmps| ==> !cmps[i].lit.DoubleLit?
  {
    forall i | 0 <= i < |cmps| ensures !cmps[i].lit.DoubleLit? {
      assert SideCmp(columns, side, cmps[i]);
    }
  }

  lemma TopNotDouble(c1: seq<Column>, c2: seq<Column>, cmps: seq<ResolvedCmp>)
    requires ValidCmps(c1, c2, cmps)
    ensures forall i :: 0 <= i < |cmps| ==> !cmps[i].lit.DoubleLit?
  {
    forall i | 0 <= i < |cmps| ensures !cmps[i].lit.DoubleLit? {
      assert ValidCmp(c1, c2, cmps[i]);
    }
  }

  // The three lists of row checks.
  lemma FiltersRun(p: Plan, db: Database, m: Machine) returns (m': Machine)
    requires p.JoinPlan? && ValidJoin(p) && m.pc == JoinAddresses(p).filters
    ensures Runs(JoinCode(p), m, [], m') && m'.pc == JoinAddresses(p).start1 && m'.cursors == m.cursors
    ensures SameBelow(m, m', AllocateRegs(p).lits) && FiltersLoaded(m', p)
  {
    hide JoinCode, Runs, AllocateRegs, OpenSide, SideLiterals, PositionOnce, LoadLiterals, Loaded, FollowIndex, CloseSide;
    var ops, r := JoinCode(p), AllocateRegs(p);
    var f1, f2 := p.s1.filter, p.s2.filter;
    PrologueLayout(p);
    LiteralRegs(p);
    CmpsNotDouble(p.s1.columns, 0, f1);
    CmpsNotDouble(p.s2.columns, 1, f2);
    TopNotDouble(p.s1.columns, p.s2.columns, p.top);
    assert f1[..|f1|] == f1 && f2[..|f2|] == f2 && p.top[..|p.top|] == p.top;
    var m1 := LiteralsRun(ops, m, f1, r.lits, |f1|);
    var m2 := LiteralsRun(ops, m1, f2, r.lits + |f1|, |f2|);
    RunsOn(ops, m, m1, [], m2);
    BelowLoaded(m1, m2, f1, r.lits, r.lits + |f1|);
    m' := LiteralsRun(ops, m2, p.top, r.lits + |f1| + |f2|, |p.top|);
    RunsOn(ops, m, m2, [], m');
    BelowLoaded(m2, m', f1, r.lits, r.lits + |f1| + |f2|);
    BelowLoaded(m2, m', f2, r.lits + |f1|, r.lits + |f1| + |f2|);
  }

  // ---- positioning an equality side --------------------------------------------------------------

  // Either the one row is found, or the side visits nothing and the program jumps to its tail.
  lemma OnceRuns(ops: seq<Op>, m: Machine, db: Database, s: Source, side: nat, r: SideRegs, die: nat) returns (m': Machine)
    requires CodeAt(ops, m.pc, PositionOnce(s, side, r, die)) && ValidSource(db, s, side) && m.db == db
    requires SideReady(m, db, s, side, r) && (s.access.EqSeek? ==> 0 <= r.pkey)
    ensures Runs(ops, m, [], m') && SameSnapshots(m, m') && SameExcept(m, m', |m.regs|, r.pkey)
    ensures forall c :: 0 <= c < |m.cursors| && c != side && c != side + 2 ==> m'.cursors[c] == m.cursors[c]
    ensures if s.access.EqSeek? && VisitOf(db, s, side) == [] then m'.pc == die
            else m'.pc == m.pc + |PositionOnce(s, side, r, die)| && Placed(m', db, s, side)
  {
    hide Runs, Rows, LiteralValue, TypedTable, Linked;
    if !s.access.EqSeek? {
      m' := m;
      RunsNothing(ops, m);
    } else {
      var x, cmp, code := Rows(db, IndexRoot(s)), s.access.cmp, PositionOnce(s, side, r, die);
      assert ops[m.pc + 0] == code[0] && ops[m.pc + 1] == code[1] && ops[m.pc + 2] == code[2];
      IntLiteral(cmp.lit);
      SeekRuns(ops, m, Op_Seek, side + 2, die, r.lit, SeekKey(cmp.lit));
      match SeekPosition(Op_Seek, x, SeekKey(cmp.lit))
      case None => m' := m.(pc := die);
      case Some(d) =>
        var m1 := AtPosition(m.(pc := m.pc + 1), side + 2, d);
        m' := FollowKey(ops, m1, db, s, side, r, die, d);
        RunsOn(ops, m, m1, [], m');
    }
  }

  lemma IntLiteral(lit: Literal)
    requires lit.IntLit? && LiteralInRange(lit)
    ensures IsInt32(LiteralValue(lit)) && Wrap(LiteralValue(lit).i) == SeekKey(lit)
  {
  }

  // ---- the prologue ----------------------------------------------------------------------------------

  lemma PrologueRegs(p: Plan)
    requires p.JoinPlan?
    ensures var r := AllocateRegs(p);
      && 0 <= r.r1.root && 0 <= r.r2.root
      && (!p.s1.access.Scan? ==> 0 <= r.r1.idxRoot && 0 <= r.r1.lit && 0 <= r.r1.pkey)
      && (!p.s2.access.Scan? ==> 0 <= r.r2.idxRoot && 0 <= r.r2.lit && 0 <= r.r2.pkey)
      && (HasUpper(p.s1.access) ==> 0 <= r.r1.upper && r.r1.upper != r.r1.lit)
      && (HasUpper(p.s2.access) ==> 0 <= r.r2.upper && r.r2.upper != r.r2.lit)
      // the four literals of the two sides, and the two primary keys, are in distinct registers
      && (!p.s1.access.Scan? ==> r.r1.lit !in {r.r2.lit, r.r2.upper, r.r2.pkey, r.r1.pkey} && r.r1.lit < r.lits)
      && (HasUpper(p.s1.access) ==> r.r1.upper !in {r.r2.lit, r.r2.upper, r.r2.pkey, r.r1.pkey} && r.r1.upper < r.lits)
      && (!p.s2.access.Scan? ==> r.r2.lit !in {r.r1.pkey, r.r2.pkey} && r.r2.lit < r.lits)
      && (HasUpper(p.s2.access) ==> r.r2.upper !in {r.r1.pkey, r.r2.pkey} && r.r2.upper < r.lits)
  {
  }

  lemma OpenBoth(p: Plan, db: Database) returns (m: Machine)
    requires p.JoinPlan? && ValidSource(db, p.s1, 0) && ValidSource(db, p.s2, 1)
    ensures Runs(JoinCode(p), Initial(db, |p.out|), [], m) && m.pc == JoinAddresses(p).lits && m.db == db
    ensures CursorOn(m, 0, Rows(db, p.s1.root)) && CursorOn(m, 1, Rows(db, p.s2.root))
    ensures !p.s1.access.Scan? ==> CursorOn(m, 2, Rows(db, IndexRoot(p.s1)))
    ensures !p.s2.access.Scan? ==> CursorOn(m, 3, Rows(db, IndexRoot(p.s2)))
  {
    hide JoinCode, Runs, AllocateRegs, OpenSide, SideLiterals, PositionOnce, LoadLiterals, FollowIndex, CloseSide, Rows, ValidSource;
    var ops, r := JoinCode(p), AllocateRegs(p);
    PrologueLayout(p);
    PrologueRegs(p);
    var m1 := OpenRuns(ops, Initial(db, |p.out|), p.s1, 0, r.r1);
    m := OpenRuns(ops, m1, p.s2, 1, r.r2);
    RunsOn(ops, Initial(db, |p.out|), m1, [], m);
  }

  lemma LoadBoth(p: Plan, db: Database) returns (m: Machine)
    requires p.JoinPlan? && ValidSource(db, p.s1, 0) && ValidSource(db, p.s2, 1)
    ensures Runs(JoinCode(p), Initial(db, |p.out|), [], m) && m.pc == JoinAddresses(p).once1 && m.db == db
    ensures SideReady(m, db, p.s1, 0, AllocateRegs(p).r1) && SideReady(m, db, p.s2, 1, AllocateRegs(p).r2)
  {
    hide JoinCode, Runs, AllocateRegs, OpenSide, SideLiterals, PositionOnce, LoadLiterals, FollowIndex, CloseSide, Rows, ValidAccess, LiteralValue;
    var ops, r := JoinCode(p), AllocateRegs(p);
    PrologueLayout(p);
    PrologueRegs(p);
    var m1 := OpenBoth(p, db);
    var m2 := SideLiteralsRun(ops, m1, p.s1, 0, r.r1, Rows(db, p.s1.root), Rows(db, IndexRoot(p.s1)));
    RunsOn(ops, Initial(db, |p.out|), m1, [], m2);
    m := SideLiteralsRun(ops, m2, p.s2, 1, r.r2, Rows(db, p.s2.root), Rows(db, IndexRoot(p.s2)));
    RunsOn(ops, Initial(db, |p.out|), m2, [], m);
  }

  lemma SideReadyKept(m: Machine, m': Machine, db: Database, s: Source, side: nat, r: SideRegs, except: int)
    requires SideReady(m, db, s, side, r) && SameSnapshots(m, m') && SameExcept(m, m', |m.regs|, except)
    requires (!s.access.Scan? ==> r.lit != except) && (HasUpper(s.access) ==> r.upper != except)
    ensures SideReady(m', db, s, side, r)
  {
    hide Rows, LiteralValue;
  }

  ghost predicate VisitsNothing(p: Plan, db: Database)
    requires p.JoinPlan? && ValidSource(db, p.s1, 0) && ValidSource(db, p.s2, 1)
  {
    || (p.s1.access.EqSeek? && VisitOf(db, p.s1, 0) == [])
    || (p.s2.access.EqSeek? && VisitOf(db, p.s2, 1) == [])
  }

  lemma PlaceBoth(p: Plan, db: Database) returns (m: Machine)
    requires p.JoinPlan? && ValidSource(db, p.s1, 0) && ValidSource(db, p.s2, 1)
    ensures Runs(JoinCode(p), Initial(db, |p.out|), [], m) && m.db == db
    ensures SideReady(m, db, p.s1, 0, AllocateRegs(p).r1) && SideReady(m, db, p.s2, 1, AllocateRegs(p).r2)
    ensures if VisitsNothing(p, db) then m.pc == JoinAddresses(p).tail
            else m.pc == JoinAddresses(p).filters && Placed(m, db, p.s1, 0) && Placed(m, db, p.s2, 1)
  {
    hide JoinCode, Runs, AllocateRegs, OpenSide, SideLiterals, PositionOnce, LoadLiterals, FollowIndex, CloseSide, Rows, ValidSource, VisitOf, SideReady;
    var ops, r, a := JoinCode(p), AllocateRegs(p), JoinAddresses(p);
    PrologueLayout(p);
    PrologueRegs(p);
    OnceLength(p.s1, 0, r.r1, a.tail);
    OnceLength(p.s2, 1, r.r2, a.tail);
    var m1 := LoadBoth(p, db);
    m := OnceRuns(ops, m1, db, p.s1, 0, r.r1, a.tail);
    RunsOn(ops, Initial(db, |p.out|), m1, [], m);
    SideReadyKept(m1, m, db, p.s1, 0, r.r1, r.r1.pkey);
    SideReadyKept(m1, m, db, p.s2, 1, r.r2, r.r1.pkey);
    if !(p.s1.access.EqSeek? && VisitOf(db, p.s1, 0) == []) {
      var m2 := m;
      m := OnceRuns(ops, m2, db, p.s2, 1, r.r2, a.tail);
      RunsOn(ops, Initial(db, |p.out|), m2, [], m);
      SideReadyKept(m2, m, db, p.s1, 0, r.r1, r.r2.pkey);
      SideReadyKept(m2, m, db, p.s2, 1, r.r2, r.r2.pkey);
      LeftPlaced(m2, m, db, p.s1, r.r1);
    }
  }

  lemma LeftPlaced(m: Machine, m': Machine, db: Database, s: Source, r: SideRegs)
    requires ValidSource(db, s, 0) && Placed(m, db, s, 0) && SideReady(m, db, s, 0, r) && |m'.cursors| == |m.cursors|
    requires forall c :: 0 <= c < |m.cursors| && c != 1 && c != 3 ==> m'.cursors[c] == m.cursors[c]
    ensures Placed(m', db, s, 0)
  {
    hide Rows, VisitOf, ValidSource;
  }

  lemma SideReadyBelow(m: Machine, m': Machine, db: Database, s: Source, side: nat, r: SideRegs, lo: nat)
    requires SideReady(m, db, s, side, r) && m'.cursors == m.cursors && SameBelow(m, m', lo)
    requires (!s.access.Scan? ==> r.lit < lo) && (HasUpper(s.access) ==> r.upper < lo)
    ensures SideReady(m', db, s, side, r)
  {
    hide Rows, LiteralValue;
  }

  lemma {:induction false} NothingRight(p: Plan, t1: seq<Entry>, us: seq<nat>, t2: seq<Entry>)
    requires ValidJoin(p) && forall k :: 0 <= k < |us| ==> us[k] < |t1|
    ensures RowsOver(p, t1, us, t2, []) == []
  {
    if us != [] {
      NothingRight(p, t1, us[1..], t2);
    }
  }

  // ---- the program -------------------------------------------------------------------------------------

  // The compiled join runs from the first instruction to Halt, yields exactly the rows of
  // the nested walk, and keeps every cursor it uses positioned.
  lemma JoinRuns(p: Plan, db: Database) returns (end: Machine)
    requires p.JoinPlan? && ValidQuery(p, db)
    ensures Runs(JoinCode(p), Initial(db, |p.out|), JoinOutput(p, db), end) && end.pc == |JoinCode(p)|
  {
    hide JoinCode, Runs, AllocateRegs, ValidJoin, ValidSource, VisitOf, SideReady, RowsOver, RowsFor, Initial, Placed, FiltersLoaded;
    var ops, r := JoinCode(p), AllocateRegs(p);
    PrologueRegs(p);
    var m := PlaceBoth(p, db);
    var out := JoinOutput(p, db);
    if VisitsNothing(p, db) {
      NoOutput(p, db);
      SidesOpen(p, db, m);
      end := TailRuns(p, m);
      RunsOn(ops, Initial(db, |p.out|), m, out, end);
    } else {
      var m1 := FiltersRun(p, db, m);
      SideReadyBelow(m, m1, db, p.s1, 0, r.r1, r.lits);
      SideReadyBelow(m, m1, db, p.s2, 1, r.r2, r.lits);
      assert Ready(m1, p, db);
      PlacedMoves(m, m1, p, db);
      RunsOn(ops, Initial(db, |p.out|), m, [], m1);
      var m2 := OuterPass(p, db, m1);
      RunsOn(ops, Initial(db, |p.out|), m1, out, m2);
      SidesOpen(p, db, m2);
      end := TailRuns(p, m2);
      RunsThen(ops, Initial(db, |p.out|), out, m2, [], end);
      assert out + [] == out;
    }
  }

  lemma NoOutput(p: Plan, db: Database)
    requires p.JoinPlan? && ValidQuery(p, db) && VisitsNothing(p, db)
    ensures JoinOutput(p, db) == []
  {
    hide Visit, ValidJoin, RowsFor;
    if VisitOf(db, p.s2, 1) == [] {
      NothingRight(p, Rows(db, p.s1.root), VisitOf(db, p.s1, 0), Rows(db, p.s2.root));
    }
  }

  lemma SidesOpen(p: Plan, db: Database, m: Machine)
    requires p.JoinPlan?
    requires SideReady(m, db, p.s1, 0, AllocateRegs(p).r1) && SideReady(m, db, p.s2, 1, AllocateRegs(p).r2)
    ensures SideOpen(m, p.s1, 0) && SideOpen(m, p.s2, 1)
  {
  }

  lemma PlacedMoves(m: Machine, m': Machine, p: Plan, db: Database)
    requires p.JoinPlan? && ValidSource(db, p.s1, 0) && ValidSource(db, p.s2, 1) && m'.cursors == m.cursors
    requires Placed(m, db, p.s1, 0) && Placed(m, db, p.s2, 1)
    ensures Placed(m', db, p.s1, 0) && Placed(m', db, p.s2, 1)
  {
    hide Rows, VisitOf, ValidSource;
  }
}
