// How the small pieces of compiled code run.
module CodeRuns {
  import opened Common
  import opened Sql
  import opened Values
  import opened Trees
  import opened Machine
  import opened MachineRun
  import opened Planner
  import opened Layout
  import opened JoinLayout

  // ---- one instruction -----------------------------------------------------------------

  function AfterLoad(m: Machine, reg: nat, v: Value): Machine {
    m.(pc := m.pc + 1, regs := SetReg(m.regs, reg, v))
  }

  lemma LiteralRuns(ops: seq<Op>, m: Machine, lit: Literal, reg: nat)
    requires m.pc < |ops| && ops[m.pc] == LoadLiteral(lit, reg) && !lit.DoubleLit?
    ensures Runs(ops, m, [], AfterLoad(m, reg, LiteralValue(lit)))
  {
    RunsStep(ops, m);
  }

  lemma ColumnRuns(ops: seq<Op>, m: Machine, columns: seq<Column>, cursor: nat, idx: nat, reg: nat)
    requires m.pc < |ops| && ops[m.pc] == LoadColumn(columns, cursor, idx, reg) && idx < |columns|
    requires IsPositioned(m, cursor) && TypedEntry(columns, CurrentEntry(m, cursor))
    ensures Runs(ops, m, [], AfterLoad(m, reg, ColumnValue(columns, CurrentEntry(m, cursor), idx)))
  {
    hide FieldValue;
    var e := CurrentEntry(m, cursor);
    assert HasType(ColumnValue(columns, e, idx), columns[idx].dataType);
    RunsStep(ops, m);
  }

  lemma CompareRuns(ops: seq<Op>, m: Machine, code: Opcode, p1: nat, target: nat, p3: nat)
    requires m.pc < |ops| && ops[m.pc] == MakeOp(code, p1, target, p3)
    requires code in {Op_Eq, Op_Ne, Op_Lt, Op_Le, Op_Gt, Op_Ge}
    requires HasReg(m, p1) && HasReg(m, p3) && Comparable(m.regs[p3], m.regs[p1])
    ensures Runs(ops, m, [], m.(pc := if JumpsOn(code, Order(m.regs[p3], m.regs[p1])) then target else m.pc + 1))
  {
    hide Order;
    RunsStep(ops, m);
  }

  function AtPosition(m: Machine, cursor: nat, pos: int): Machine
    requires IsOpen(m, cursor)
  {
    m.(cursors := m.cursors[cursor := m.cursors[cursor].(pos := pos)])
  }

  lemma SeekRuns(ops: seq<Op>, m: Machine, code: Opcode, cursor: nat, target: nat, reg: nat, key: nat)
    requires m.pc < |ops| && ops[m.pc] == MakeOp(code, cursor, target, reg)
    requires code in {Op_Seek, Op_SeekGt, Op_SeekGe, Op_SeekLt, Op_SeekLe}
    requires IsOpen(m, cursor) && HasInt(m, reg) && Wrap(m.regs[reg].i) == key
    ensures Runs(ops, m, [],
                 match SeekPosition(code, m.cursors[cursor].snapshot, key)
                 case None => m.(pc := target)
                 case Some(i) => AtPosition(m.(pc := m.pc + 1), cursor, i))
  {
    RunsStep(ops, m);
  }

  lemma RewindRuns(ops: seq<Op>, m: Machine, cursor: nat, target: nat)
    requires m.pc < |ops| && ops[m.pc] == MakeOp(Op_Rewind, cursor, target, 0) && IsOpen(m, cursor)
    ensures Runs(ops, m, [],
                 if m.cursors[cursor].snapshot == [] then AtPosition(m.(pc := target), cursor, -1)
                 else AtPosition(m.(pc := m.pc + 1), cursor, 0))
  {
    RunsStep(ops, m);
  }

  // Position after an advance, if there is a further entry.
  function NextPosition(code: Opcode, n: nat, pos: nat): (r: Option<nat>)
    requires pos < n
    ensures r.Some? ==> r.value < n
  {
    if code == Op_Prev then (if pos == 0 then None else Some(pos - 1))
    else if pos + 1 < n then Some(pos + 1) else None
  }

  lemma AdvanceRuns(ops: seq<Op>, m: Machine, code: Opcode, cursor: nat, head: nat)
    requires m.pc < |ops| && ops[m.pc] == MakeOp(code, cursor, head, 0) && code in {Op_Next, Op_Prev}
    requires IsPositioned(m, cursor)
    ensures Runs(ops, m, [],
                 match NextPosition(code, |m.cursors[cursor].snapshot|, m.cursors[cursor].pos)
                 case None => m.(pc := m.pc + 1)
                 case Some(i) => AtPosition(m.(pc := head), cursor, i))
  {
    RunsStep(ops, m);
  }

  lemma IdxPKeyRuns(ops: seq<Op>, m: Machine, cursor: nat, reg: nat)
    requires m.pc < |ops| && ops[m.pc] == MakeOp(Op_IdxPKey, cursor, reg, 0) && IsPositioned(m, cursor)
    ensures Runs(ops, m, [], AfterLoad(m, reg, Int(Unwrap(CurrentEntry(m, cursor).pk))))
  {
    RunsStep(ops, m);
  }

  lemma ResultRowRuns(ops: seq<Op>, m: Machine, base: nat, n: nat)
    requires m.pc < |ops| && ops[m.pc] == MakeOp(Op_ResultRow, base, n, 0) && base + n <= |m.regs|
    ensures Runs(ops, m, [m.regs[base..base + n]], m.(pc := m.pc + 1, startRR := base, nRR := n))
  {
    RunsRow(ops, m);
  }

  // ---- what a piece leaves alone ---------------------------------------------------------

  // The file, and the registers below lo; nothing is said about cursors.
  ghost predicate SameBelow(m: Machine, m': Machine, lo: nat) {
    && m'.db == m.db && |m.regs| <= |m'.regs|
    && forall r :: 0 <= r < lo && r < |m.regs| ==> m'.regs[r] == m.regs[r]
  }

  // ---- checks --------------------------------------------------------------------------------

  function SideColumns(c1: seq<Column>, c2: seq<Column>, side: nat): seq<Column> {
    if side == 0 then c1 else c2
  }

  function SideEntry(e1: Entry, e2: Entry, side: nat): Entry {
    if side == 0 then e1 else e2
  }

  predicate ValidRCol(c1: seq<Column>, c2: seq<Column>, rc: RCol) {
    rc.side <= 1 && rc.idx < |SideColumns(c1, c2, rc.side)|
  }

  // The value of a column in the pair of rows under the two table cursors.
  function RColValue(c1: seq<Column>, c2: seq<Column>, e1: Entry, e2: Entry, rc: RCol): Value
    requires ValidRCol(c1, c2, rc)
  {
    ColumnValue(SideColumns(c1, c2, rc.side), SideEntry(e1, e2, rc.side), rc.idx)
  }

  // A resolved conjunct talks about an existing column of the literal's type.
  predicate ValidCmp(c1: seq<Column>, c2: seq<Column>, cmp: ResolvedCmp) {
    && ValidRCol(c1, c2, cmp.col)
    && LiteralMatches(cmp.lit, SideColumns(c1, c2, cmp.col.side)[cmp.col.idx].dataType)
    && SeekOpcode(cmp.op).Some?
  }

  predicate CmpPasses(c1: seq<Column>, c2: seq<Column>, e1: Entry, e2: Entry, cmp: ResolvedCmp)
    requires ValidRCol(c1, c2, cmp.col)
  {
    var v, lit := RColValue(c1, c2, e1, e2, cmp.col), LiteralValue(cmp.lit);
    Comparable(v, lit) && !JumpsOn(cmp.op, Order(v, lit))
  }

  predicate ValidCmps(c1: seq<Column>, c2: seq<Column>, cmps: seq<ResolvedCmp>) {
    forall i :: 0 <= i < |cmps| ==> ValidCmp(c1, c2, cmps[i])
  }

  predicate AllPass(c1: seq<Column>, c2: seq<Column>, e1: Entry, e2: Entry, cmps: seq<ResolvedCmp>)
    requires ValidCmps(c1, c2, cmps)
  {
    forall i :: 0 <= i < |cmps| ==> CmpPasses(c1, c2, e1, e2, cmps[i])
  }

  // The cursor of a side stands on a typed row.
  ghost predicate OnRow(m: Machine, c1: seq<Column>, c2: seq<Column>, e1: Entry, e2: Entry, side: nat) {
    && IsPositioned(m, side) && CurrentEntry(m, side) == SideEntry(e1, e2, side)
    && TypedEntry(SideColumns(c1, c2, side), SideEntry(e1, e2, side))
  }

  ghost predicate RegIs(m: Machine, r: int, v: Value) {
    HasReg(m, r) && m.regs[r] == v
  }

  ghost predicate Loaded(m: Machine, cmps: seq<ResolvedCmp>, base: nat) {
    forall i :: 0 <= i < |cmps| ==> RegIs(m, base + i, LiteralValue(cmps[i].lit))
  }

  lemma TypedComparable(c1: seq<Column>, c2: seq<Column>, e1: Entry, e2: Entry, cmp: ResolvedCmp)
    requires ValidCmp(c1, c2, cmp)
    requires TypedEntry(SideColumns(c1, c2, cmp.col.side), SideEntry(e1, e2, cmp.col.side))
    ensures Comparable(RColValue(c1, c2, e1, e2, cmp.col), LiteralValue(cmp.lit))
  {
    hide FieldValue;
    var columns := SideColumns(c1, c2, cmp.col.side);
    assert HasType(ColumnValue(columns, SideEntry(e1, e2, cmp.col.side), cmp.col.idx), columns[cmp.col.idx].dataType);
  }

  // One check: load the column, compare it with its literal.
  lemma CheckRuns(ops: seq<Op>, m: Machine, c1: seq<Column>, c2: seq<Column>, e1: Entry, e2: Entry,
                  cmp: ResolvedCmp, lit: nat, tmp: nat, target: nat) returns (m': Machine)
    requires m.pc + 1 < |ops| && ops[m.pc] == LoadRCol(c1, c2, cmp.col, tmp)
    requires ops[m.pc + 1] == MakeOp(cmp.op, lit, target, tmp)
    requires ValidCmp(c1, c2, cmp) && OnRow(m, c1, c2, e1, e2, cmp.col.side)
    requires lit < tmp && RegIs(m, lit, LiteralValue(cmp.lit))
    ensures Runs(ops, m, [], m') && m'.cursors == m.cursors && SameBelow(m, m', tmp)
    ensures m'.pc == if CmpPasses(c1, c2, e1, e2, cmp) then m.pc + 2 else target
  {
    hide FieldValue, Order, Runs, TypedEntry, ColumnValue;
    ColumnRuns(ops, m, SideColumns(c1, c2, cmp.col.side), cmp.col.side, cmp.col.idx, tmp);
    var v := RColValue(c1, c2, e1, e2, cmp.col);
    var m1 := AfterLoad(m, tmp, v);
    TypedComparable(c1, c2, e1, e2, cmp);
    CompareRuns(ops, m1, cmp.op, lit, target, tmp);
    m' := m1.(pc := if JumpsOn(cmp.op, Order(v, LiteralValue(cmp.lit))) then target else m1.pc + 1);
    RunsOn(ops, m, m1, [], m');
  }

  lemma {:induction false} CheckAllRuns(ops: seq<Op>, m: Machine, c1: seq<Column>, c2: seq<Column>, e1: Entry, e2: Entry,
                                        cmps: seq<ResolvedCmp>, base: nat, tmp: nat, target: nat) returns (m': Machine)
    requires CodeAt(ops, m.pc, CheckAll(c1, c2, cmps, base, tmp, target))
    requires ValidCmps(c1, c2, cmps) && Loaded(m, cmps, base) && base + |cmps| <= tmp
    requires forall i :: 0 <= i < |cmps| ==> OnRow(m, c1, c2, e1, e2, cmps[i].col.side)
    ensures Runs(ops, m, [], m') && m'.cursors == m.cursors && SameBelow(m, m', tmp)
    ensures m'.pc == if AllPass(c1, c2, e1, e2, cmps) then m.pc + 2 * |cmps| else target
  {
    hide CmpPasses, TypedEntry, Runs, LoadRCol, CodeAt, AllPass, ValidCmp;
    if cmps == [] {
      m' := m;
      RunsNothing(ops, m);
      assert AllPass(c1, c2, e1, e2, cmps) by { NothingFails(c1, c2, e1, e2); }
    } else {
      var front, cmp := cmps[..|cmps| - 1], cmps[|cmps| - 1];
      var last := [LoadRCol(c1, c2, cmp.col, tmp), MakeOp(cmp.op, base + |front|, target, tmp)];
      CodeSplits(ops, m.pc, CheckAll(c1, c2, front, base, tmp, target), last);
      var m1 := CheckAllRuns(ops, m, c1, c2, e1, e2, front, base, tmp, target);
      AllPassLast(c1, c2, e1, e2, cmps);
      if AllPass(c1, c2, e1, e2, front) {
        TwoAt(ops, m.pc + 2 * |front|, last);
        assert OnRow(m1, c1, c2, e1, e2, cmp.col.side);
        m' := CheckRuns(ops, m1, c1, c2, e1, e2, cmp, base + |front|, tmp, target);
        RunsOn(ops, m, m1, [], m');
      } else {
        m' := m1;
      }
    }
  }

  lemma NothingFails(c1: seq<Column>, c2: seq<Column>, e1: Entry, e2: Entry)
    ensures AllPass(c1, c2, e1, e2, [])
  {
  }

  lemma TwoAt(ops: seq<Op>, at: nat, code: seq<Op>)
    requires CodeAt(ops, at, code) && |code| == 2
    ensures at + 1 < |ops| && ops[at] == code[0] && ops[at + 1] == code[1]
  {
    assert ops[at + 0] == code[0];
  }

  lemma AllPassLast(c1: seq<Column>, c2: seq<Column>, e1: Entry, e2: Entry, cmps: seq<ResolvedCmp>)
    requires ValidCmps(c1, c2, cmps) && cmps != []
    ensures AllPass(c1, c2, e1, e2, cmps) <==>
      AllPass(c1, c2, e1, e2, cmps[..|cmps| - 1]) && CmpPasses(c1, c2, e1, e2, cmps[|cmps| - 1])
  {
    var front := cmps[..|cmps| - 1];
    assert forall i :: 0 <= i < |front| ==> front[i] == cmps[i];
    if AllPass(c1, c2, e1, e2, front) && CmpPasses(c1, c2, e1, e2, cmps[|cmps| - 1]) {
      forall i | 0 <= i < |cmps| ensures CmpPasses(c1, c2, e1, e2, cmps[i]) {
        assert i < |front| ==> CmpPasses(c1, c2, e1, e2, front[i]);
      }
    }
  }

  // ---- shared columns -----------------------------------------------------------------------

  // Shared columns exist on both sides and have one type.
  predicate ValidPair(c1: seq<Column>, c2: seq<Column>, pair: (nat, nat)) {
    && pair.0 < |c1| && pair.1 < |c2| && c1[pair.0].dataType == c2[pair.1].dataType
  }

  predicate ValidPairList(c1: seq<Column>, c2: seq<Column>, pairs: seq<(nat, nat)>) {
    forall k :: 0 <= k < |pairs| ==> ValidPair(c1, c2, pairs[k])
  }

  predicate PairAgrees(c1: seq<Column>, c2: seq<Column>, e1: Entry, e2: Entry, pair: (nat, nat))
    requires ValidPair(c1, c2, pair)
  {
    var v, w := ColumnValue(c1, e1, pair.0), ColumnValue(c2, e2, pair.1);
    Comparable(w, v) && Order(w, v) == 0
  }

  predicate PairsAgree(c1: seq<Column>, c2: seq<Column>, e1: Entry, e2: Entry, pairs: seq<(nat, nat)>)
    requires ValidPairList(c1, c2, pairs)
  {
    forall k :: 0 <= k < |pairs| ==> PairAgrees(c1, c2, e1, e2, pairs[k])
  }

  lemma PairComparable(c1: seq<Column>, c2: seq<Column>, e1: Entry, e2: Entry, pair: (nat, nat))
    requires ValidPair(c1, c2, pair) && TypedEntry(c1, e1) && TypedEntry(c2, e2)
    ensures Comparable(ColumnValue(c2, e2, pair.1), ColumnValue(c1, e1, pair.0))
  {
    hide FieldValue;
    assert HasType(ColumnValue(c1, e1, pair.0), c1[pair.0].dataType);
    assert HasType(ColumnValue(c2, e2, pair.1), c2[pair.1].dataType);
  }

  lemma PairRuns(ops: seq<Op>, m: Machine, c1: seq<Column>, c2: seq<Column>, e1: Entry, e2: Entry,
                 pair: (nat, nat), ra: nat, rb: nat, target: nat) returns (m': Machine)
    requires m.pc + 2 < |ops| && ops[m.pc] == LoadRCol(c1, c2, RCol(0, pair.0), ra)
    requires ops[m.pc + 1] == LoadRCol(c1, c2, RCol(1, pair.1), rb) && ops[m.pc + 2] == MakeOp(Op_Ne, ra, target, rb)
    requires ValidPair(c1, c2, pair) && OnRow(m, c1, c2, e1, e2, 0) && OnRow(m, c1, c2, e1, e2, 1) && ra < rb
    ensures Runs(ops, m, [], m') && m'.cursors == m.cursors && SameBelow(m, m', ra)
    ensures m'.pc == if PairAgrees(c1, c2, e1, e2, pair) then m.pc + 3 else target
  {
    hide FieldValue, Order, Runs, TypedEntry, ColumnValue;
    ColumnRuns(ops, m, c1, 0, pair.0, ra);
    var v, w := ColumnValue(c1, e1, pair.0), ColumnValue(c2, e2, pair.1);
    var m1 := AfterLoad(m, ra, v);
    ColumnRuns(ops, m1, c2, 1, pair.1, rb);
    var m2 := AfterLoad(m1, rb, w);
    RunsOn(ops, m, m1, [], m2);
    PairComparable(c1, c2, e1, e2, pair);
    CompareRuns(ops, m2, Op_Ne, ra, target, rb);
    m' := m2.(pc := if JumpsOn(Op_Ne, Order(w, v)) then target else m2.pc + 1);
    RunsOn(ops, m, m2, [], m');
  }

  lemma {:induction false} PairsRun(ops: seq<Op>, m: Machine, c1: seq<Column>, c2: seq<Column>, e1: Entry, e2: Entry,
                                    pairs: seq<(nat, nat)>, ra: nat, rb: nat, target: nat) returns (m': Machine)
    requires CodeAt(ops, m.pc, CheckPairs(c1, c2, pairs, ra, rb, target)) && ValidPairList(c1, c2, pairs)
    requires OnRow(m, c1, c2, e1, e2, 0) && OnRow(m, c1, c2, e1, e2, 1) && ra < rb
    ensures Runs(ops, m, [], m') && m'.cursors == m.cursors && SameBelow(m, m', ra)
    ensures m'.pc == if PairsAgree(c1, c2, e1, e2, pairs) then m.pc + 3 * |pairs| else target
  {
    hide PairAgrees, TypedEntry, Runs, LoadRCol;
    if pairs == [] {
      m' := m;
      RunsNothing(ops, m);
    } else {
      var front, pair := pairs[..|pairs| - 1], pairs[|pairs| - 1];
      var code := CheckPairs(c1, c2, pairs, ra, rb, target);
      assert CodeAt(ops, m.pc, CheckPairs(c1, c2, front, ra, rb, target)) by {
        assert forall i :: 0 <= i < 3 * |front| ==> code[i] == CheckPairs(c1, c2, front, ra, rb, target)[i];
      }
      var m1 := PairsRun(ops, m, c1, c2, e1, e2, front, ra, rb, target);
      PairsAgreeLast(c1, c2, e1, e2, pairs);
      if PairsAgree(c1, c2, e1, e2, front) {
        assert ops[m.pc + 3 * |front|] == code[3 * |front|];
        assert ops[m.pc + (3 * |front| + 1)] == code[3 * |front| + 1];
        assert ops[m.pc + (3 * |front| + 2)] == code[3 * |front| + 2];
        m' := PairRuns(ops, m1, c1, c2, e1, e2, pair, ra, rb, target);
        RunsOn(ops, m, m1, [], m');
      } else {
        m' := m1;
      }
    }
  }

  lemma PairsAgreeLast(c1: seq<Column>, c2: seq<Column>, e1: Entry, e2: Entry, pairs: seq<(nat, nat)>)
    requires ValidPairList(c1, c2, pairs) && pairs != []
    ensures PairsAgree(c1, c2, e1, e2, pairs) <==>
      PairsAgree(c1, c2, e1, e2, pairs[..|pairs| - 1]) && PairAgrees(c1, c2, e1, e2, pairs[|pairs| - 1])
  {
    hide PairAgrees;
    var front := pairs[..|pairs| - 1];
    assert forall i :: 0 <= i < |front| ==> front[i] == pairs[i];
    if PairsAgree(c1, c2, e1, e2, front) && PairAgrees(c1, c2, e1, e2, pairs[|pairs| - 1]) {
      forall i | 0 <= i < |pairs| ensures PairAgrees(c1, c2, e1, e2, pairs[i]) {
        assert i < |front| ==> PairAgrees(c1, c2, e1, e2, front[i]);
      }
    }
  }

  // ---- output rows --------------------------------------------------------------------------

  predicate ValidOut(c1: seq<Column>, c2: seq<Column>, out: seq<RCol>) {
    forall k :: 0 <= k < |out| ==> ValidRCol(c1, c2, out[k])
  }

  function OutRow(c1: seq<Column>, c2: seq<Column>, e1: Entry, e2: Entry, out: seq<RCol>): (r: Row)
    requires ValidOut(c1, c2, out)
    ensures |r| == |out| && forall k :: 0 <= k < |out| ==> r[k] == RColValue(c1, c2, e1, e2, out[k])
  {
    seq(|out|, k requires 0 <= k < |out| => RColValue(c1, c2, e1, e2, out[k]))
  }

  lemma {:induction false} OutputsLoad(ops: seq<Op>, m: Machine, c1: seq<Column>, c2: seq<Column>, e1: Entry, e2: Entry,
                                       out: seq<RCol>, base: nat, n: nat) returns (m': Machine)
    requires CodeAt(ops, m.pc, LoadOutputs(c1, c2, out, base)) && ValidOut(c1, c2, out) && n <= |out|
    requires forall k :: 0 <= k < |out| ==> OnRow(m, c1, c2, e1, e2, out[k].side)
    ensures Runs(ops, m, [], m') && m'.cursors == m.cursors && SameBelow(m, m', base)
    ensures m'.pc == m.pc + n && (n == 0 || base + n <= |m'.regs|)
    ensures forall k :: 0 <= k < n ==> m'.regs[base + k] == RColValue(c1, c2, e1, e2, out[k])
  {
    hide RColValue, TypedEntry, Runs;
    if n == 0 {
      m' := m;
      RunsNothing(ops, m);
    } else {
      var m1 := OutputsLoad(ops, m, c1, c2, e1, e2, out, base, n - 1);
      var rc := out[n - 1];
      assert ops[m.pc + (n - 1)] == LoadOutputs(c1, c2, out, base)[n - 1];
      assert OnRow(m1, c1, c2, e1, e2, rc.side);
      m' := AfterLoad(m1, base + (n - 1), RColValue(c1, c2, e1, e2, rc));
      RColRuns(ops, m1, c1, c2, e1, e2, rc, base + (n - 1));
      RunsOn(ops, m, m1, [], m');
    }
  }

  lemma RColRuns(ops: seq<Op>, m: Machine, c1: seq<Column>, c2: seq<Column>, e1: Entry, e2: Entry, rc: RCol, reg: nat)
    requires m.pc < |ops| && ops[m.pc] == LoadRCol(c1, c2, rc, reg)
    requires ValidRCol(c1, c2, rc) && OnRow(m, c1, c2, e1, e2, rc.side)
    ensures Runs(ops, m, [], AfterLoad(m, reg, RColValue(c1, c2, e1, e2, rc)))
  {
    hide FieldValue, Runs;
    ColumnRuns(ops, m, SideColumns(c1, c2, rc.side), rc.side, rc.idx, reg);
  }

  // Loading the outputs and yielding them.
  lemma EmitRuns(ops: seq<Op>, m: Machine, c1: seq<Column>, c2: seq<Column>, e1: Entry, e2: Entry,
                 out: seq<RCol>, base: nat) returns (m': Machine)
    requires CodeAt(ops, m.pc, LoadOutputs(c1, c2, out, base)) && ValidOut(c1, c2, out) && out != []
    requires forall k :: 0 <= k < |out| ==> OnRow(m, c1, c2, e1, e2, out[k].side)
    requires m.pc + |out| < |ops| && ops[m.pc + |out|] == MakeOp(Op_ResultRow, base, |out|, 0)
    ensures Runs(ops, m, [OutRow(c1, c2, e1, e2, out)], m') && m'.cursors == m.cursors && SameBelow(m, m', base)
    ensures m'.pc == m.pc + |out| + 1
  {
    hide RColValue, TypedEntry, Runs;
    var m1 := OutputsLoad(ops, m, c1, c2, e1, e2, out, base, |out|);
    ResultRowRuns(ops, m1, base, |out|);
    m' := m1.(pc := m1.pc + 1, startRR := base, nRR := |out|);
    assert m1.regs[base..base + |out|] == OutRow(c1, c2, e1, e2, out);
    RunsOn(ops, m, m1, [OutRow(c1, c2, e1, e2, out)], m');
  }
}
