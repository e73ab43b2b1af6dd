// The code generator as the program runs it (codegen.c): instructions appended one at a time,
// jumps emitted before their target is known and patched once it is.
module Codegens {
  import opened Common
  import opened Sql
  import opened Values
  import opened Machine
  import opened Planner
  import opened Layout
  import opened JoinLayout
  import opened Dbms

  // ---- one instruction ------------------------------------------------------------------------

  method Emit(stmt: Stmt, pc: nat, code: Opcode, p1: int, p2: int, p3: int, p4: text) returns (addr: nat, next: nat)
    requires pc == |stmt.ops|
    modifies stmt`ops
    ensures stmt.ops == old(stmt.ops) + [Op(code, p1, p2, p3, p4)]
    ensures addr == pc && next == pc + 1
  {
    stmt.SetOp(Op(code, p1, p2, p3, p4), pc);
    assert stmt.ops == old(stmt.ops) + [Op(code, p1, p2, p3, p4)];
    addr, next := pc, pc + 1;
  }

  // No column has a type that a floating-point literal matches.
  predicate Compiled(lit: Literal) {
    !lit.DoubleLit?
  }

  ghost predicate AllCompiled(cmps: seq<ResolvedCmp>) {
    forall i :: 0 <= i < |cmps| ==> Compiled(cmps[i].lit)
  }

  method EmitLiteral(stmt: Stmt, pc: nat, lit: Literal, reg: int) returns (next: nat)
    requires pc == |stmt.ops| && Compiled(lit)
    modifies stmt`ops
    ensures stmt.ops == old(stmt.ops) + [LoadLiteral(lit, reg)] && next == pc + 1
  {
    var addr;
    if lit.IntLit? {
      addr, next := Emit(stmt, pc, Op_Integer, lit.i, reg, 0, []);
    } else {
      var s := if lit.CharLit? then CharText(lit.c) else lit.s;
      addr, next := Emit(stmt, pc, Op_String, |s|, reg, 0, s);
    }
  }

  method EmitFilterLiterals(stmt: Stmt, pc: nat, cmps: seq<ResolvedCmp>, base: int) returns (next: nat)
    requires pc == |stmt.ops| && AllCompiled(cmps)
    modifies stmt`ops
    ensures stmt.ops == old(stmt.ops) + LoadLiterals(cmps, base) && next == |stmt.ops|
  {
    next := pc;
    for i := 0 to |cmps|
      invariant next == |stmt.ops| && stmt.ops == old(stmt.ops) + LoadLiterals(cmps, base)[..i]
    {
      next := EmitLiteral(stmt, next, cmps[i].lit, base + i);
    }
  }

  // Reads a column through cursor 0 or 1.
  method EmitRCol(stmt: Stmt, pc: nat, rc: RCol, c1: seq<Column>, c2: seq<Column>, reg: int) returns (next: nat)
    requires pc == |stmt.ops|
    modifies stmt`ops
    ensures stmt.ops == old(stmt.ops) + [LoadRCol(c1, c2, rc, reg)] && next == pc + 1
  {
    var cols, cursor := if rc.side == 0 then c1 else c2, if rc.side == 0 then 0 else 1;
    var addr;
    if rc.idx < |cols| && cols[rc.idx].primaryKey {
      addr, next := Emit(stmt, pc, Op_Key, cursor, reg, 0, []);
    } else {
      addr, next := Emit(stmt, pc, Op_Column, cursor, rc.idx, reg, []);
    }
  }

  // ---- jumps without a target --------------------------------------------------------------------

  // Where the jumps of n checks of w instructions each are: the last instruction of each.
  function Jumps(at: nat, w: nat, n: nat): (r: seq<nat>)
    requires 0 < w
    ensures |r| == n && forall k :: 0 <= k < n ==> r[k] == at + w * k + w - 1
  {
    seq(n, k requires 0 <= k < n => at + w * k + w - 1)
  }

  function Elems(s: seq<nat>): set<nat> {
    set a | a in s
  }

  lemma JumpsNone(at: nat, w: nat)
    requires 0 < w
    ensures Elems(Jumps(at, w, 0)) == {}
  {
  }

  lemma JumpsNext(at: nat, w: nat, n: nat)
    requires 0 < w
    ensures Jumps(at, w, n + 1) == Jumps(at, w, n) + [at + w * n + w - 1]
    ensures Elems(Jumps(at, w, n + 1)) == Elems(Jumps(at, w, n)) + {at + w * n + w - 1}
  {
    assert Jumps(at, w, n + 1) == Jumps(at, w, n) + [at + w * n + w - 1];
  }

  method EmitFilterChecks(stmt: Stmt, pc: nat, cmps: seq<ResolvedCmp>, c1: seq<Column>, c2: seq<Column>, base: int, tmp: int,
                          patch: array<nat>, npatch: nat) returns (next: nat, npatch': nat)
    requires pc == |stmt.ops| && npatch + |cmps| <= patch.Length
    modifies stmt`ops, patch
    ensures stmt.ops == old(stmt.ops) + CheckAll(c1, c2, cmps, base, tmp, -1) && next == |stmt.ops|
    ensures npatch' == npatch + |cmps| && patch[..npatch'] == old(patch[..npatch]) + Jumps(pc, 2, |cmps|)
  {
    next, npatch' := pc, npatch;
    for i := 0 to |cmps|
      invariant next == |stmt.ops| == pc + 2 * i && stmt.ops == old(stmt.ops) + CheckAll(c1, c2, cmps[..i], base, tmp, -1)
      invariant npatch' == npatch + i && patch[..npatch'] == old(patch[..npatch]) + Jumps(pc, 2, i)
    {
      assert cmps[..i + 1][..i] == cmps[..i];
      next := EmitRCol(stmt, next, cmps[i].col, c1, c2, tmp);
      var addr;
      addr, next := Emit(stmt, next, cmps[i].op, base + i, -1, tmp, []);
      patch[npatch'] := addr;
      npatch' := npatch' + 1;
    }
    assert cmps[..|cmps|] == cmps;
  }

  method EmitPairChecks(stmt: Stmt, pc: nat, pairs: seq<(nat, nat)>, c1: seq<Column>, c2: seq<Column>, ra: int, rb: int,
                        patch: array<nat>, npatch: nat) returns (next: nat, npatch': nat)
    requires pc == |stmt.ops| && npatch + |pairs| <= patch.Length
    modifies stmt`ops, patch
    ensures stmt.ops == old(stmt.ops) + CheckPairs(c1, c2, pairs, ra, rb, -1) && next == |stmt.ops|
    ensures npatch' == npatch + |pairs| && patch[..npatch'] == old(patch[..npatch]) + Jumps(pc, 3, |pairs|)
  {
    next, npatch' := pc, npatch;
    for i := 0 to |pairs|
      invariant next == |stmt.ops| == pc + 3 * i && stmt.ops == old(stmt.ops) + CheckPairs(c1, c2, pairs[..i], ra, rb, -1)
      invariant npatch' == npatch + i && patch[..npatch'] == old(patch[..npatch]) + Jumps(pc, 3, i)
    {
      assert pairs[..i + 1][..i] == pairs[..i];
      next := EmitRCol(stmt, next, RCol(0, pairs[i].0), c1, c2, ra);
      next := EmitRCol(stmt, next, RCol(1, pairs[i].1), c1, c2, rb);
      var addr;
      addr, next := Emit(stmt, next, Op_Ne, ra, -1, rb, []);
      patch[npatch'] := addr;
      npatch' := npatch' + 1;
    }
    assert pairs[..|pairs|] == pairs;
  }

  method EmitOutputs(stmt: Stmt, pc: nat, out: seq<RCol>, c1: seq<Column>, c2: seq<Column>, base: int) returns (next: nat)
    requires pc == |stmt.ops|
    modifies stmt`ops
    ensures next == |stmt.ops|
    ensures stmt.ops == old(stmt.ops) + LoadOutputs(c1, c2, out, base) + [MakeOp(Op_ResultRow, base, |out|, 0)]
  {
    next := pc;
    for k := 0 to |out|
      invariant next == |stmt.ops| && stmt.ops == old(stmt.ops) + LoadOutputs(c1, c2, out, base)[..k]
    {
      next := EmitRCol(stmt, next, out[k], c1, c2, base + k);
    }
    var addr;
    addr, next := Emit(stmt, next, Op_ResultRow, base, |out|, 0, []);
  }

  // ---- code with holes -----------------------------------------------------------------------------

  // What is emitted so far is the beginning of code, but for the targets of the jumps in holes.
  ghost predicate Agrees(ops: seq<Op>, code: seq<Op>, holes: set<nat>) {
    && |ops| <= |code|
    && (forall i :: 0 <= i < |ops| ==> ops[i].(p2 := code[i].p2) == code[i])
    && (forall i :: 0 <= i < |ops| && i !in holes ==> ops[i] == code[i])
    && (forall i :: i in holes ==> i < |ops|)
  }

  // The instructions in addrs lead to t.
  ghost predicate Lead(code: seq<Op>, addrs: set<nat>, t: int) {
    forall i :: i in addrs ==> i < |code| && code[i].p2 == t
  }

  // A piece emitted at address at is the piece full, but for the targets of the jumps in holes,
  // which lead to t in full.
  ghost predicate Blank(piece: seq<Op>, full: seq<Op>, at: nat, holes: set<nat>, t: int) {
    && |piece| == |full|
    && (forall i :: 0 <= i < |piece| ==> piece[i].(p2 := full[i].p2) == full[i])
    && (forall i :: 0 <= i < |piece| && at + i !in holes ==> piece[i] == full[i])
    && (forall i :: i in holes ==> at <= i < at + |full| && full[i - at].p2 == t)
  }

  lemma Extends(ops: seq<Op>, code: seq<Op>, holes: set<nat>, piece: seq<Op>, full: seq<Op>, own: set<nat>, t: int)
    requires Agrees(ops, code, holes) && CodeAt(code, |ops|, full) && Blank(piece, full, |ops|, own, t)
    ensures Agrees(ops + piece, code, holes + own) && Lead(code, own, t)
  {
    forall i | |ops| <= i < |ops + piece|
      ensures (ops + piece)[i] == piece[i - |ops|] && code[i] == full[i - |ops|] {
      assert code[|ops| + (i - |ops|)] == full[i - |ops|];
    }
    forall i | i in own ensures i < |code| && code[i].p2 == t {
      assert code[|ops| + (i - |ops|)] == full[i - |ops|];
    }
  }

  // A piece without open jumps.
  lemma Continues(ops: seq<Op>, code: seq<Op>, holes: set<nat>, piece: seq<Op>)
    requires Agrees(ops, code, holes) && CodeAt(code, |ops|, piece)
    ensures Agrees(ops + piece, code, holes)
  {
    Extends(ops, code, holes, piece, piece, {}, 0);
    assert holes + {} == holes;
  }

  lemma BlankThen(a: seq<Op>, fullA: seq<Op>, b: seq<Op>, fullB: seq<Op>, at: nat, inA: set<nat>, inB: set<nat>, t: int)
    requires Blank(a, fullA, at, inA, t) && Blank(b, fullB, at + |a|, inB, t)
    ensures Blank(a + b, fullA + fullB, at, inA + inB, t)
  {
    forall i | 0 <= i < |a + b|
      ensures i < |a| ==> (a + b)[i] == a[i] && (fullA + fullB)[i] == fullA[i]
      ensures |a| <= i ==> (a + b)[i] == b[i - |a|] && (fullA + fullB)[i] == fullB[i - |a|] {
    }
    forall i | 0 <= i < |a + b| && at + i !in inA + inB ensures (a + b)[i] == (fullA + fullB)[i] {
      if |a| <= i {
        assert at + |a| + (i - |a|) !in inB;
      }
    }
  }

  lemma BlankNothing(at: nat, t: int)
    ensures Blank([], [], at, {}, t)
  {
  }

  lemma LastBlank(front: seq<Op>, open: Op, full: Op, at: nat, t: int)
    requires open == full.(p2 := -1) && full.p2 == t
    ensures Blank(front + [open], front + [full], at, {at + |front|}, t)
  {
  }

  lemma {:induction false} ChecksBlank(c1: seq<Column>, c2: seq<Column>, cmps: seq<ResolvedCmp>, base: int, tmp: int, t: int, at: nat)
    ensures Blank(CheckAll(c1, c2, cmps, base, tmp, -1), CheckAll(c1, c2, cmps, base, tmp, t), at, Elems(Jumps(at, 2, |cmps|)), t)
  {
    hide Blank, LoadRCol, Elems, Jumps;
    if cmps == [] {
      assert Blank([], [], at, {}, t) by { BlankNothing(at, t); }
      assert Elems(Jumps(at, 2, 0)) == {} by { JumpsNone(at, 2); }
    } else {
      var n := |cmps| - 1;
      ChecksBlank(c1, c2, cmps[..n], base, tmp, t, at);
      var load, jump := LoadRCol(c1, c2, cmps[n].col, tmp), cmps[n].op;
      LastBlank([load], MakeOp(jump, base + n, -1, tmp), MakeOp(jump, base + n, t, tmp), at + 2 * n, t);
      BlankThen(CheckAll(c1, c2, cmps[..n], base, tmp, -1), CheckAll(c1, c2, cmps[..n], base, tmp, t),
        [load] + [MakeOp(jump, base + n, -1, tmp)], [load] + [MakeOp(jump, base + n, t, tmp)], at,
        Elems(Jumps(at, 2, n)), {at + 2 * n + 1}, t);
      JumpsNext(at, 2, n);
      assert [load] + [MakeOp(jump, base + n, -1, tmp)] == [load, MakeOp(jump, base + n, -1, tmp)];
      assert [load] + [MakeOp(jump, base + n, t, tmp)] == [load, MakeOp(jump, base + n, t, tmp)];
    }
  }

  lemma {:induction false} PairsBlank(c1: seq<Column>, c2: seq<Column>, pairs: seq<(nat, nat)>, ra: int, rb: int, t: int, at: nat)
    ensures Blank(CheckPairs(c1, c2, pairs, ra, rb, -1), CheckPairs(c1, c2, pairs, ra, rb, t), at, Elems(Jumps(at, 3, |pairs|)), t)
  {
    hide Blank, LoadRCol, Elems, Jumps;
    if pairs == [] {
      assert Blank([], [], at, {}, t) by { BlankNothing(at, t); }
      assert Elems(Jumps(at, 3, 0)) == {} by { JumpsNone(at, 3); }
    } else {
      var n := |pairs| - 1;
      PairsBlank(c1, c2, pairs[..n], ra, rb, t, at);
      var load1, load2 := LoadRCol(c1, c2, RCol(0, pairs[n].0), ra), LoadRCol(c1, c2, RCol(1, pairs[n].1), rb);
      LastBlank([load1, load2], MakeOp(Op_Ne, ra, -1, rb), MakeOp(Op_Ne, ra, t, rb), at + 3 * n, t);
      BlankThen(CheckPairs(c1, c2, pairs[..n], ra, rb, -1), CheckPairs(c1, c2, pairs[..n], ra, rb, t),
        [load1, load2] + [MakeOp(Op_Ne, ra, -1, rb)], [load1, load2] + [MakeOp(Op_Ne, ra, t, rb)], at,
        Elems(Jumps(at, 3, n)), {at + 3 * n + 2}, t);
      JumpsNext(at, 3, n);
      assert [load1, load2] + [MakeOp(Op_Ne, ra, -1, rb)] == [load1, load2, MakeOp(Op_Ne, ra, -1, rb)];
      assert [load1, load2] + [MakeOp(Op_Ne, ra, t, rb)] == [load1, load2, MakeOp(Op_Ne, ra, t, rb)];
    }
  }

  ghost predicate Within(addrs: set<nat>, n: nat) {
    forall i :: i in addrs ==> i < n
  }

  lemma HolesWithin(ops: seq<Op>, code: seq<Op>, holes: set<nat>, some: set<nat>)
    requires Agrees(ops, code, holes) && some <= holes
    ensures Within(some, |ops|)
  {
  }

  // Without holes nothing is left to patch.
  lemma Whole(ops: seq<Op>, code: seq<Op>)
    requires Agrees(ops, code, {}) && |ops| == |code|
    ensures ops == code
  {
  }

  // stmt->ops[a].p2 = t for every a of a patch list.
  method PatchAll(stmt: Stmt, patch: array<nat>, n: nat, t: int, ghost code: seq<Op>, ghost holes: set<nat>)
    requires n <= patch.Length && Agrees(stmt.ops, code, holes)
    requires Within(Elems(patch[..n]), |stmt.ops|) && Lead(code, Elems(patch[..n]), t)
    modifies stmt`ops
    ensures Agrees(stmt.ops, code, holes - Elems(patch[..n])) && |stmt.ops| == |old(stmt.ops)|
  {
    for k := 0 to n
      invariant Agrees(stmt.ops, code, holes - Elems(patch[..k])) && |stmt.ops| == |old(stmt.ops)|
    {
      assert patch[k] in patch[..n] && patch[k] in Elems(patch[..n]) && patch[..k + 1] == patch[..k] + [patch[k]];
      PatchOne(stmt, patch[k], t, code, holes - Elems(patch[..k]));
      assert holes - Elems(patch[..k]) - {patch[k]} == holes - Elems(patch[..k + 1]);
    }
  }

  method PatchOne(stmt: Stmt, addr: nat, t: int, ghost code: seq<Op>, ghost holes: set<nat>)
    requires Agrees(stmt.ops, code, holes) && addr < |stmt.ops| && code[addr].p2 == t
    modifies stmt`ops
    ensures Agrees(stmt.ops, code, holes - {addr}) && |stmt.ops| == |old(stmt.ops)|
  {
    stmt.ops := stmt.ops[addr := stmt.ops[addr].(p2 := t)];
  }
}
