// Running the compiled join program.
module JoinRun {
  import opened Common
  import opened Sql
  import opened Values
  import opened Trees
  import opened Machine
  import opened MachineRun
  import opened Planner
  import opened Layout
  import opened JoinLayout
  import opened CodeRuns
  import opened JoinRows

  // ---- what holds throughout the loops -----------------------------------------------------

  ghost predicate CursorOn(m: Machine, c: nat, rows: seq<Entry>) {
    IsOpen(m, c) && m.cursors[c].snapshot == rows
  }

  ghost predicate SideReady(m: Machine, db: Database, s: Source, side: nat, r: SideRegs) {
    && CursorOn(m, side, Rows(db, s.root))
    && (!s.access.Scan? ==>
          CursorOn(m, side + 2, Rows(db, IndexRoot(s))) && RegIs(m, r.lit, LiteralValue(s.access.cmp.lit)))
    && (HasUpper(s.access) ==> RegIs(m, r.upper, LiteralValue(s.access.upper.value.lit)))
  }

  ghost predicate FiltersLoaded(m: Machine, p: Plan)
    requires p.JoinPlan?
  {
    var r := AllocateRegs(p);
    && Loaded(m, p.s1.filter, r.lits) && Loaded(m, p.s2.filter, r.lits + |p.s1.filter|)
    && Loaded(m, p.top, r.lits + |p.s1.filter| + |p.s2.filter|)
  }

  ghost predicate Ready(m: Machine, p: Plan, db: Database)
    requires p.JoinPlan?
  {
    && m.db == db
    && SideReady(m, db, p.s1, 0, AllocateRegs(p).r1) && SideReady(m, db, p.s2, 1, AllocateRegs(p).r2)
    && FiltersLoaded(m, p)
  }

  // Cursors may move but stay open on the same snapshots.
  ghost predicate SameSnapshots(m: Machine, m': Machine) {
    && |m.cursors| == |m'.cursors|
    && forall c :: 0 <= c < |m.cursors| && m.cursors[c].Open? ==>
         m'.cursors[c].Open? && m'.cursors[c].snapshot == m.cursors[c].snapshot
  }

  // The registers that hold literals while the loops run.
  predicate Protected(r: JoinRegs, reg: int) {
    0 <= reg < r.tmpA && reg != r.r1.pkey && reg != r.r2.pkey
  }

  ghost predicate KeepsLiterals(r: JoinRegs, m: Machine, m': Machine) {
    && m'.db == m.db && |m.regs| <= |m'.regs|
    && forall reg :: Protected(r, reg) && reg < |m.regs| ==> m'.regs[reg] == m.regs[reg]
  }

  lemma LiteralRegs(p: Plan)
    requires p.JoinPlan?
    ensures var r := AllocateRegs(p);
      && (!p.s1.access.Scan? ==> Protected(r, r.r1.lit) && 0 <= r.r1.pkey < r.tmpA)
      && (!p.s2.access.Scan? ==> Protected(r, r.r2.lit) && 0 <= r.r2.pkey < r.tmpA)
      && (HasUpper(p.s1.access) ==> Protected(r, r.r1.upper))
      && (HasUpper(p.s2.access) ==> Protected(r, r.r2.upper))
      && r.r1.pkey < r.lits && r.r2.pkey < r.lits
      && r.lits + |p.s1.filter| + |p.s2.filter| + |p.top| == r.tmpA < r.tmpB < r.out
  {
  }

  lemma ReadyKept(m: Machine, m': Machine, p: Plan, db: Database)
    requires p.JoinPlan? && Ready(m, p, db) && KeepsLiterals(AllocateRegs(p), m, m') && SameSnapshots(m, m')
    ensures Ready(m', p, db)
  {
    hide AllocateRegs, Rows, LiteralValue;
    var r := AllocateRegs(p);
    LiteralRegs(p);
    LoadedKept(m, m', r, p.s1.filter, r.lits);
    LoadedKept(m, m', r, p.s2.filter, r.lits + |p.s1.filter|);
    LoadedKept(m, m', r, p.top, r.lits + |p.s1.filter| + |p.s2.filter|);
  }

  lemma LoadedKept(m: Machine, m': Machine, r: JoinRegs, cmps: seq<ResolvedCmp>, base: nat)
    requires Loaded(m, cmps, base) && KeepsLiterals(r, m, m')
    requires r.r1.pkey < r.lits && r.r2.pkey < r.lits && r.lits <= base && base + |cmps| <= r.tmpA
    ensures Loaded(m', cmps, base)
  {
    hide LiteralValue;
    forall i | 0 <= i < |cmps| ensures RegIs(m', base + i, LiteralValue(cmps[i].lit)) {
      assert RegIs(m, base + i, LiteralValue(cmps[i].lit));
      assert Protected(r, base + i);
    }
  }

  lemma BelowKeeps(r: JoinRegs, m: Machine, m': Machine, lo: nat)
    requires SameBelow(m, m', lo) && r.tmpA <= lo
    ensures KeepsLiterals(r, m, m')
  {
  }

  // ---- from a row pair to the advance instruction --------------------------------------------

  lemma SideCmpsValid(p: Plan)
    requires ValidJoin(p)
    ensures ValidCmps(p.s1.columns, p.s2.columns, p.s1.filter) && ValidCmps(p.s1.columns, p.s2.columns, p.s2.filter)
  {
    forall i | 0 <= i < |p.s1.filter| ensures ValidCmp(p.s1.columns, p.s2.columns, p.s1.filter[i]) {
      assert SideCmp(p.s1.columns, 0, p.s1.filter[i]);
    }
    forall i | 0 <= i < |p.s2.filter| ensures ValidCmp(p.s1.columns, p.s2.columns, p.s2.filter[i]) {
      assert SideCmp(p.s2.columns, 1, p.s2.filter[i]);
    }
  }

  lemma Pass1(p: Plan, e1: Entry, e2: Entry)
    requires ValidJoin(p)
    ensures ValidCmps(p.s1.columns, p.s2.columns, p.s1.filter)
    ensures AllPass(p.s1.columns, p.s2.columns, e1, e2, p.s1.filter) <==> PassesAll(p.s1.columns, 0, e1, p.s1.filter)
  {
    SideCmpsValid(p);
    var f := p.s1.filter;
    forall i | 0 <= i < |f| ensures CmpPasses(p.s1.columns, p.s2.columns, e1, e2, f[i]) <==> Passes(p.s1.columns, e1, f[i]) {
      assert SideCmp(p.s1.columns, 0, f[i]);
    }
  }

  lemma Pass2(p: Plan, e1: Entry, e2: Entry)
    requires ValidJoin(p)
    ensures ValidCmps(p.s1.columns, p.s2.columns, p.s2.filter)
    ensures AllPass(p.s1.columns, p.s2.columns, e1, e2, p.s2.filter) <==> PassesAll(p.s2.columns, 1, e2, p.s2.filter)
  {
    SideCmpsValid(p);
    var f := p.s2.filter;
    forall i | 0 <= i < |f| ensures CmpPasses(p.s1.columns, p.s2.columns, e1, e2, f[i]) <==> Passes(p.s2.columns, e2, f[i]) {
      assert SideCmp(p.s2.columns, 1, f[i]);
    }
  }

  ghost predicate BothOnRows(m: Machine, p: Plan, e1: Entry, e2: Entry)
    requires p.JoinPlan?
  {
    OnRow(m, p.s1.columns, p.s2.columns, e1, e2, 0) && OnRow(m, p.s1.columns, p.s2.columns, e1, e2, 1)
  }

  lemma BothOnSides(m: Machine, p: Plan, e1: Entry, e2: Entry, cmps: seq<ResolvedCmp>)
    requires p.JoinPlan? && BothOnRows(m, p, e1, e2) && ValidCmps(p.s1.columns, p.s2.columns, cmps)
    ensures forall i :: 0 <= i < |cmps| ==> OnRow(m, p.s1.columns, p.s2.columns, e1, e2, cmps[i].col.side)
  {
    hide OnRow, LiteralMatches;
    forall i | 0 <= i < |cmps| ensures OnRow(m, p.s1.columns, p.s2.columns, e1, e2, cmps[i].col.side) {
      assert ValidCmp(p.s1.columns, p.s2.columns, cmps[i]);
    }
  }

  // The checks between the pairs and the output.
  lemma InnerChecks(p: Plan, db: Database, m: Machine, e1: Entry, e2: Entry) returns (m': Machine)
    requires ValidJoin(p) && Ready(m, p, db) && BothOnRows(m, p, e1, e2)
    requires m.pc == JoinAddresses(p).checks2
    ensures Runs(JoinCode(p), m, [], m') && m'.cursors == m.cursors && SameBelow(m, m', AllocateRegs(p).tmpA)
    ensures m'.pc == if PassesAll(p.s2.columns, 1, e2, p.s2.filter) && AllPass(p.s1.columns, p.s2.columns, e1, e2, p.top)
                     then JoinAddresses(p).outs else JoinAddresses(p).advance2
  {
    hide JoinCode, AllocateRegs, AllPass, PassesAll, CheckAll, Runs, OnRow, SideReady, CheckPairs, StartLoop, FollowIndex, LoadOutputs, Loaded;
    var ops, r, a := JoinCode(p), AllocateRegs(p), JoinAddresses(p);
    InnerLayout(p);
    LiteralRegs(p);
    Pass2(p, e1, e2);
    BothOnSides(m, p, e1, e2, p.s2.filter);
    BothOnSides(m, p, e1, e2, p.top);
    m' := CheckAllRuns(ops, m, p.s1.columns, p.s2.columns, e1, e2, p.s2.filter, r.lits + |p.s1.filter|, r.tmpA, a.advance2);
    if AllPass(p.s1.columns, p.s2.columns, e1, e2, p.s2.filter) {
      var m1 := m';
      BelowLoaded(m, m1, p.top, r.lits + |p.s1.filter| + |p.s2.filter|, r.tmpA);
      OnRowKept(m, m1, p, e1, e2);
      BothOnSides(m1, p, e1, e2, p.top);
      m' := CheckAllRuns(ops, m1, p.s1.columns, p.s2.columns, e1, e2, p.top, r.lits + |p.s1.filter| + |p.s2.filter|,
                         r.tmpA, a.advance2);
      RunsOn(ops, m, m1, [], m');
    }
  }

  lemma BelowLoaded(m: Machine, m': Machine, cmps: seq<ResolvedCmp>, base: nat, lo: nat)
    requires Loaded(m, cmps, base) && SameBelow(m, m', lo) && base + |cmps| <= lo
    ensures Loaded(m', cmps, base)
  {
    hide LiteralValue;
    forall i | 0 <= i < |cmps| ensures RegIs(m', base + i, LiteralValue(cmps[i].lit)) {
      assert RegIs(m, base + i, LiteralValue(cmps[i].lit));
    }
  }

  lemma OnRowKept(m: Machine, m': Machine, p: Plan, e1: Entry, e2: Entry)
    requires p.JoinPlan? && BothOnRows(m, p, e1, e2) && m'.cursors == m.cursors
    ensures BothOnRows(m', p, e1, e2)
  {
    hide TypedEntry;
  }

  // From a row pair: emit it if it matches, and reach the inner advance.
  lemma InnerMatch(p: Plan, db: Database, m: Machine, e1: Entry, e2: Entry) returns (m': Machine)
    requires ValidJoin(p) && Ready(m, p, db) && BothOnRows(m, p, e1, e2)
    requires m.pc == JoinAddresses(p).pairs
    ensures Runs(JoinCode(p), m, EmitOne(p, e1, e2), m') && m'.cursors == m.cursors
    ensures m'.pc == JoinAddresses(p).advance2 && Ready(m', p, db)
  {
    hide JoinCode, AllocateRegs, AllPass, PassesAll, PairsAgree, CheckAll, Runs, OnRow, CheckPairs, StartLoop, FollowIndex, LoadOutputs, Loaded, SideReady;
    var ops, r, a := JoinCode(p), AllocateRegs(p), JoinAddresses(p);
    InnerLayout(p);
    LiteralRegs(p);
    var m1 := PairsRun(ops, m, p.s1.columns, p.s2.columns, e1, e2, p.pairs, r.tmpA, r.tmpB, a.advance2);
    KeepReady(p, db, m, m1, r.tmpA);
    if PairsAgree(p.s1.columns, p.s2.columns, e1, e2, p.pairs) {
      OnRowKept(m, m1, p, e1, e2);
      var m2 := InnerChecks(p, db, m1, e1, e2);
      KeepReady(p, db, m1, m2, r.tmpA);
      RunsOn(ops, m, m1, [], m2);
      if m2.pc == a.outs {
        OnRowKept(m1, m2, p, e1, e2);
        OutsOnRows(m2, p, e1, e2);
        assert ops[a.row] == [MakeOp(Op_ResultRow, r.out, |p.out|, 0)][0];
        m' := EmitRuns(ops, m2, p.s1.columns, p.s2.columns, e1, e2, p.out, r.out);
        KeepReady(p, db, m2, m', r.out);
        RunsOn(ops, m, m2, EmitOne(p, e1, e2), m');
      } else {
        m' := m2;
      }
    } else {
      m' := m1;
    }
  }

  lemma OutsOnRows(m: Machine, p: Plan, e1: Entry, e2: Entry)
    requires ValidJoin(p) && BothOnRows(m, p, e1, e2)
    ensures forall k :: 0 <= k < |p.out| ==> OnRow(m, p.s1.columns, p.s2.columns, e1, e2, p.out[k].side)
  {
    hide OnRow;
    forall k | 0 <= k < |p.out| ensures OnRow(m, p.s1.columns, p.s2.columns, e1, e2, p.out[k].side) {
      assert ValidRCol(p.s1.columns, p.s2.columns, p.out[k]);
    }
  }

  lemma KeepReady(p: Plan, db: Database, m: Machine, m': Machine, lo: nat)
    requires p.JoinPlan? && Ready(m, p, db) && SameBelow(m, m', lo) && AllocateRegs(p).tmpA <= lo
    requires m'.cursors == m.cursors
    ensures Ready(m', p, db)
  {
    hide Ready, AllocateRegs;
    BelowKeeps(AllocateRegs(p), m, m', lo);
    ReadyKept(m, m', p, db);
  }
}
