// codegen_select_join: the join program, emitted front to back with its jumps patched on the
// way, is the program the plan stands for.
module CodegenJoins {
  import opened Common
  import opened Sql
  import opened Values
  import opened Machine
  import opened Planner
  import opened Layout
  import opened JoinLayout
  import opened Dbms
  import opened Codegens

  // ---- registers -------------------------------------------------------------------------------

  // The numbering of registers, one next_reg++ at a time.
  method AllocateJoinRegs(p: Plan) returns (r: JoinRegs)
    requires p.JoinPlan?
    ensures r == AllocateRegs(p)
  {
    var useIndex1, useIndex2 := !p.s1.access.Scan?, !p.s2.access.Scan?;
    var next := 0;
    var idxRoot1, idxRoot2, lit1, pkey1, upper1, lit2, pkey2, upper2 := -1, -1, -1, -1, -1, -1, -1, -1;
    if useIndex1 { idxRoot1 := next; next := next + 1; }
    var root1 := next;
    next := next + 1;
    if useIndex2 { idxRoot2 := next; next := next + 1; }
    var root2 := next;
    next := next + 1;
    if useIndex1 { lit1 := next; next := next + 1; }
    if useIndex1 { pkey1 := next; next := next + 1; }
    if HasUpper(p.s1.access) { upper1 := next; next := next + 1; }
    if useIndex2 { lit2 := next; next := next + 1; }
    if useIndex2 { pkey2 := next; next := next + 1; }
    if HasUpper(p.s2.access) { upper2 := next; next := next + 1; }
    var lits := next;
    next := next + |p.s1.filter| + |p.s2.filter| + |p.top|;
    r := JoinRegs(SideRegs(idxRoot1, root1, lit1, pkey1, upper1), SideRegs(idxRoot2, root2, lit2, pkey2, upper2),
                  lits, next, next + 1, next + 2);
  }

  // ---- one side ----------------------------------------------------------------------------------

  predicate AccessCompiled(access: Access) {
    (!access.Scan? ==> Compiled(access.cmp.lit)) && (HasUpper(access) ==> Compiled(access.upper.value.lit))
  }

  ghost predicate SourceCompiled(s: Source) {
    AccessCompiled(s.access) && AllCompiled(s.filter) && (!s.access.Scan? ==> s.filter == [])
  }

  method EmitOpenSide(stmt: Stmt, pc: nat, s: Source, side: nat, r: SideRegs) returns (next: nat)
    requires pc == |stmt.ops|
    modifies stmt`ops
    ensures stmt.ops == old(stmt.ops) + OpenSide(s, side, r) && next == |stmt.ops|
  {
    next := pc;
    var addr;
    if !s.access.Scan? {
      addr, next := Emit(stmt, next, Op_Integer, s.access.indexRoot, r.idxRoot, 0, []);
      addr, next := Emit(stmt, next, Op_OpenRead, side + 2, r.idxRoot, 0, []);
    }
    addr, next := Emit(stmt, next, Op_Integer, s.root, r.root, 0, []);
    addr, next := Emit(stmt, next, Op_OpenRead, side, r.root, |s.columns|, []);
  }

  method EmitSideLiterals(stmt: Stmt, pc: nat, s: Source, r: SideRegs) returns (next: nat)
    requires pc == |stmt.ops| && AccessCompiled(s.access)
    modifies stmt`ops
    ensures stmt.ops == old(stmt.ops) + SideLiterals(s, r) && next == |stmt.ops|
  {
    next := pc;
    if !s.access.Scan? {
      next := EmitLiteral(stmt, next, s.access.cmp.lit, r.lit);
    }
    if HasUpper(s.access) {
      next := EmitLiteral(stmt, next, s.access.upper.value.lit, r.upper);
    }
  }

  // The jumps of PositionOnce.
  function OnceJumps(s: Source, at: nat): seq<nat> {
    if s.access.EqSeek? then [at, at + 2] else []
  }

  method EmitPositionOnce(stmt: Stmt, pc: nat, s: Source, side: nat, r: SideRegs, die: array<nat>, ndie: nat)
    returns (next: nat, ndie': nat)
    requires pc == |stmt.ops| && ndie + |OnceJumps(s, pc)| <= die.Length
    modifies stmt`ops, die
    ensures stmt.ops == old(stmt.ops) + PositionOnce(s, side, r, -1) && next == |stmt.ops|
    ensures ndie' == ndie + |OnceJumps(s, pc)| && die[..ndie'] == old(die[..ndie]) + OnceJumps(s, pc)
  {
    next, ndie' := pc, ndie;
    if s.access.EqSeek? {
      var addr;
      addr, next := Emit(stmt, next, Op_Seek, side + 2, -1, r.lit, []);
      die[ndie'] := addr;
      ndie' := ndie' + 1;
      addr, next := Emit(stmt, next, Op_IdxPKey, side + 2, r.pkey, 0, []);
      addr, next := Emit(stmt, next, Op_Seek, side, -1, r.pkey, []);
      die[ndie'] := addr;
      ndie' := ndie' + 1;
    }
  }

  lemma OnceBlank(s: Source, side: nat, r: SideRegs, t: int, at: nat)
    ensures Blank(PositionOnce(s, side, r, -1), PositionOnce(s, side, r, t), at, Elems(OnceJumps(s, at)), t)
  {
  }

  method EmitStartLoop(stmt: Stmt, pc: nat, s: Source, side: nat, r: SideRegs) returns (addr: nat, next: nat)
    requires pc == |stmt.ops| && Loops(s)
    modifies stmt`ops
    ensures stmt.ops == old(stmt.ops) + StartLoop(s, side, r, -1) && addr == pc && next == |stmt.ops|
  {
    if s.access.Scan? {
      addr, next := Emit(stmt, pc, Op_Rewind, side, -1, 0, []);
    } else {
      addr, next := Emit(stmt, pc, SeekOf(s.access.cmp), side + 2, -1, r.lit, []);
    }
  }

  lemma StartBlank(s: Source, side: nat, r: SideRegs, t: int, at: nat)
    requires Loops(s)
    ensures Blank(StartLoop(s, side, r, -1), StartLoop(s, side, r, t), at, {at}, t)
  {
  }

  // From an index entry to its table row.
  function FollowRow(s: Source, side: nat, r: SideRegs, die: int): seq<Op> {
    if s.access.RangeSeek? then [MakeOp(Op_IdxPKey, side + 2, r.pkey, 0), MakeOp(Op_Seek, side, die, r.pkey)] else []
  }

  // The check of a row against the upper bound.
  function CheckUpper(s: Source, side: nat, r: SideRegs, tmp: int, stop: int): seq<Op> {
    if HasUpper(s.access)
    then [LoadColumn(s.columns, side, s.access.upper.value.col.idx, tmp), MakeOp(s.access.upper.value.op, r.upper, stop, tmp)]
    else []
  }

  lemma FollowParts(s: Source, side: nat, r: SideRegs, tmp: int, die: int, stop: int)
    ensures FollowIndex(s, side, r, tmp, die, stop) == FollowRow(s, side, r, die) + CheckUpper(s, side, r, tmp, stop)
  {
  }

  function RowJumps(s: Source, at: nat): seq<nat> {
    if s.access.RangeSeek? then [at + 1] else []
  }

  function UpperJumps(s: Source, at: nat): seq<nat> {
    if HasUpper(s.access) then [at + 1] else []
  }

  method EmitFollowRow(stmt: Stmt, pc: nat, s: Source, side: nat, r: SideRegs, die: array<nat>, ndie: nat)
    returns (next: nat, ndie': nat)
    requires pc == |stmt.ops| && ndie + |RowJumps(s, pc)| <= die.Length
    modifies stmt`ops, die
    ensures stmt.ops == old(stmt.ops) + FollowRow(s, side, r, -1) && next == |stmt.ops|
    ensures ndie' == ndie + |RowJumps(s, pc)| && die[..ndie'] == old(die[..ndie]) + RowJumps(s, pc)
  {
    next, ndie' := pc, ndie;
    if s.access.RangeSeek? {
      var addr;
      addr, next := Emit(stmt, next, Op_IdxPKey, side + 2, r.pkey, 0, []);
      addr, next := Emit(stmt, next, Op_Seek, side, -1, r.pkey, []);
      die[ndie'] := addr;
      ndie' := ndie' + 1;
    }
  }

  method EmitCheckUpper(stmt: Stmt, pc: nat, s: Source, side: nat, r: SideRegs, tmp: int, patch: array<nat>, npatch: nat)
    returns (next: nat, npatch': nat)
    requires pc == |stmt.ops| && npatch + |UpperJumps(s, pc)| <= patch.Length
    modifies stmt`ops, patch
    ensures stmt.ops == old(stmt.ops) + CheckUpper(s, side, r, tmp, -1) && next == |stmt.ops|
    ensures npatch' == npatch + |UpperJumps(s, pc)| && patch[..npatch'] == old(patch[..npatch]) + UpperJumps(s, pc)
  {
    next, npatch' := pc, npatch;
    if HasUpper(s.access) {
      var upper, addr := s.access.upper.value, 0;
      if upper.col.idx < |s.columns| && s.columns[upper.col.idx].primaryKey {
        addr, next := Emit(stmt, next, Op_Key, side, tmp, 0, []);
      } else {
        addr, next := Emit(stmt, next, Op_Column, side, upper.col.idx, tmp, []);
      }
      addr, next := Emit(stmt, next, upper.op, r.upper, -1, tmp, []);
      patch[npatch'] := addr;
      npatch' := npatch' + 1;
    }
  }

  lemma RowBlank(s: Source, side: nat, r: SideRegs, t: int, at: nat)
    ensures Blank(FollowRow(s, side, r, -1), FollowRow(s, side, r, t), at, Elems(RowJumps(s, at)), t)
  {
  }

  lemma UpperBlank(s: Source, side: nat, r: SideRegs, tmp: int, t: int, at: nat)
    ensures Blank(CheckUpper(s, side, r, tmp, -1), CheckUpper(s, side, r, tmp, t), at, Elems(UpperJumps(s, at)), t)
  {
  }

  method EmitAdvance(stmt: Stmt, pc: nat, s: Source, side: nat, head: int) returns (next: nat)
    requires pc == |stmt.ops|
    modifies stmt`ops
    ensures stmt.ops == old(stmt.ops) + AdvanceLoop(s, side, head) && next == |stmt.ops|
  {
    next := pc;
    if Loops(s) {
      var addr;
      addr, next := Emit(stmt, pc, AdvanceOf(s.access), DriverCursor(s.access, side), head, 0, []);
    }
  }

  method EmitCloseSide(stmt: Stmt, pc: nat, s: Source, side: nat) returns (next: nat)
    requires pc == |stmt.ops|
    modifies stmt`ops
    ensures stmt.ops == old(stmt.ops) + CloseSide(s, side) && next == |stmt.ops|
  {
    var addr;
    addr, next := Emit(stmt, pc, Op_Close, side, 0, 0, []);
    if !s.access.Scan? {
      addr, next := Emit(stmt, next, Op_Close, side + 2, 0, 0, []);
    }
  }

  // ---- patch lists ---------------------------------------------------------------------------------

  lemma ElemsAppend(a: seq<nat>, b: seq<nat>)
    ensures Elems(a + b) == Elems(a) + Elems(b)
  {
  }

  lemma LeadBoth(code: seq<Op>, a: set<nat>, b: set<nat>, t: int)
    requires Lead(code, a, t) && Lead(code, b, t)
    ensures Lead(code, a + b, t)
  {
  }

  // A piece whose jumps were pushed onto a patch list.
  lemma Pushes(ops: seq<Op>, code: seq<Op>, holes: set<nat>, piece: seq<Op>, full: seq<Op>, list: seq<nat>, jumps: seq<nat>, t: int)
    requires Agrees(ops, code, holes) && CodeAt(code, |ops|, full) && Blank(piece, full, |ops|, Elems(jumps), t)
    requires Lead(code, Elems(list), t)
    ensures Agrees(ops + piece, code, holes + Elems(jumps)) && Lead(code, Elems(list + jumps), t)
    ensures Elems(list + jumps) == Elems(list) + Elems(jumps) && |piece| == |full|
  {
    hide Agrees, CodeAt, Lead;
    Extends(ops, code, holes, piece, full, Elems(jumps), t);
    ElemsAppend(list, jumps);
    LeadBoth(code, Elems(list), Elems(jumps), t);
  }

  // ---- before the loops ------------------------------------------------------------------------------

  ghost predicate JoinCompiled(p: Plan)
    requires p.JoinPlan?
  {
    SourceCompiled(p.s1) && SourceCompiled(p.s2) && AllCompiled(p.top)
  }

  // Two of the four slots of the list belong to each side.
  function OnceSlots(s: Source): nat {
    if s.access.EqSeek? then 2 else 0
  }

  method EmitPrologue(stmt: Stmt, pc: nat, p: Plan, r: JoinRegs, die: array<nat>) returns (next: nat, ndie: nat)
    requires p.JoinPlan? && JoinCompiled(p) && r == AllocateRegs(p)
    requires pc == 0 && stmt.ops == [] && die.Length == 4
    modifies stmt`ops, die
    ensures next == |stmt.ops| == JoinAddresses(p).start1 && ndie == OnceSlots(p.s1) + OnceSlots(p.s2)
    ensures Agrees(stmt.ops, JoinCode(p), Elems(die[..ndie])) && Lead(JoinCode(p), Elems(die[..ndie]), JoinAddresses(p).tail)
  {
    hide Agrees, Lead, JoinCode, CodeAt, Elems, Blank, AllocateRegs, OpenSide, SideLiterals, PositionOnce, LoadLiterals,
      FollowIndex, CloseSide, SourceCompiled;
    ghost var code, a := JoinCode(p), JoinAddresses(p);
    PrologueLayout(p);
    AgreesNothing(code);
    next := EmitOpens(stmt, pc, p, r);
    next, ndie := EmitPositions(stmt, next, p, r, die);
    ghost var holes := Elems(die[..ndie]);
    assert SourceCompiled(p.s1) && SourceCompiled(p.s2);
    FiltersCompiled(p);
    ghost var was := stmt.ops;
    next := EmitFilterLiterals(stmt, next, p.s1.filter, r.lits);
    Continues(was, code, holes, LoadLiterals(p.s1.filter, r.lits));
    was := stmt.ops;
    next := EmitFilterLiterals(stmt, next, p.s2.filter, r.lits + |p.s1.filter|);
    Continues(was, code, holes, LoadLiterals(p.s2.filter, r.lits + |p.s1.filter|));
    was := stmt.ops;
    next := EmitFilterLiterals(stmt, next, p.top, r.lits + |p.s1.filter| + |p.s2.filter|);
    Continues(was, code, holes, LoadLiterals(p.top, r.lits + |p.s1.filter| + |p.s2.filter|));
  }

  lemma AgreesNothing(code: seq<Op>)
    ensures Agrees([], code, {}) && Lead(code, {}, 0)
  {
  }

  lemma LeadNone(code: seq<Op>, t: int)
    ensures Elems([]) == {} && Lead(code, {}, t)
  {
  }

  lemma FiltersCompiled(p: Plan)
    requires p.JoinPlan? && JoinCompiled(p)
    ensures AllCompiled(p.s1.filter) && AllCompiled(p.s2.filter) && AllCompiled(p.top)
    ensures AccessCompiled(p.s1.access) && AccessCompiled(p.s2.access)
    ensures (!p.s1.access.Scan? ==> p.s1.filter == []) && (!p.s2.access.Scan? ==> p.s2.filter == [])
  {
  }

  method EmitOpens(stmt: Stmt, pc: nat, p: Plan, r: JoinRegs) returns (next: nat)
    requires p.JoinPlan? && JoinCompiled(p) && r == AllocateRegs(p) && pc == 0 && stmt.ops == []
    modifies stmt`ops
    ensures next == |stmt.ops| == JoinAddresses(p).once1 && Agrees(stmt.ops, JoinCode(p), {})
  {
    hide Agrees, JoinCode, CodeAt, AllocateRegs, OpenSide, SideLiterals, PositionOnce, FollowIndex, CloseSide, LoadLiterals;
    ghost var code := JoinCode(p);
    PrologueLayout(p);
    AgreesNothing(code);
    FiltersCompiled(p);
    next := EmitOpenSide(stmt, pc, p.s1, 0, r.r1);
    assert [] + OpenSide(p.s1, 0, r.r1) == OpenSide(p.s1, 0, r.r1);
    Continues([], code, {}, OpenSide(p.s1, 0, r.r1));
    ghost var was := stmt.ops;
    next := EmitOpenSide(stmt, next, p.s2, 1, r.r2);
    Continues(was, code, {}, OpenSide(p.s2, 1, r.r2));
    was := stmt.ops;
    next := EmitSideLiterals(stmt, next, p.s1, r.r1);
    Continues(was, code, {}, SideLiterals(p.s1, r.r1));
    was := stmt.ops;
    next := EmitSideLiterals(stmt, next, p.s2, r.r2);
    Continues(was, code, {}, SideLiterals(p.s2, r.r2));
  }

  method EmitPositions(stmt: Stmt, pc: nat, p: Plan, r: JoinRegs, die: array<nat>) returns (next: nat, ndie: nat)
    requires p.JoinPlan? && r == AllocateRegs(p) && die.Length == 4
    requires pc == |stmt.ops| == JoinAddresses(p).once1 && Agrees(stmt.ops, JoinCode(p), {})
    modifies stmt`ops, die
    ensures next == |stmt.ops| == JoinAddresses(p).filters && ndie == OnceSlots(p.s1) + OnceSlots(p.s2)
    ensures Agrees(stmt.ops, JoinCode(p), Elems(die[..ndie])) && Lead(JoinCode(p), Elems(die[..ndie]), JoinAddresses(p).tail)
  {
    hide Agrees, Lead, JoinCode, CodeAt, Elems, Blank, AllocateRegs, OpenSide, SideLiterals, PositionOnce, FollowIndex, CloseSide,
      LoadLiterals;
    ghost var code, a := JoinCode(p), JoinAddresses(p);
    PrologueLayout(p);
    LeadNone(code, a.tail);
    OnceLength(p.s1, 0, r.r1, -1);
    OnceLength(p.s2, 1, r.r2, -1);
    ghost var was, list := stmt.ops, die[..0];
    assert list == [];
    next, ndie := EmitPositionOnce(stmt, pc, p.s1, 0, r.r1, die, 0);
    OnceBlank(p.s1, 0, r.r1, a.tail, pc);
    Pushes(was, code, {}, PositionOnce(p.s1, 0, r.r1, -1), PositionOnce(p.s1, 0, r.r1, a.tail), list, OnceJumps(p.s1, pc), a.tail);
    ghost var at := next;
    was, list := stmt.ops, die[..ndie];
    next, ndie := EmitPositionOnce(stmt, next, p.s2, 1, r.r2, die, ndie);
    OnceBlank(p.s2, 1, r.r2, a.tail, at);
    Pushes(was, code, Elems(list), PositionOnce(p.s2, 1, r.r2, -1), PositionOnce(p.s2, 1, r.r2, a.tail), list,
      OnceJumps(p.s2, at), a.tail);
  }

  // ---- the loop over the left table ------------------------------------------------------------------

  // The address of the jump that starts a loop; -1 when there is no loop.
  function PosHole(pos: int): set<nat> {
    if pos < 0 then {} else {pos}
  }

  method EmitOuter(stmt: Stmt, pc: nat, p: Plan, r: JoinRegs, die: array<nat>, ndie: nat, outer: array<nat>)
    returns (next: nat, ndie': nat, nouter: nat, pos0: int, loop1: nat)
    requires p.JoinPlan? && JoinCompiled(p) && r == AllocateRegs(p) && die != outer
    requires pc == |stmt.ops| == JoinAddresses(p).start1 && ndie + 2 <= die.Length + OnceSlots(p.s1) && |p.s1.filter| <= outer.Length
    requires ndie <= die.Length
    requires Agrees(stmt.ops, JoinCode(p), Elems(die[..ndie])) && Lead(JoinCode(p), Elems(die[..ndie]), JoinAddresses(p).tail)
    modifies stmt`ops, die, outer
    ensures next == |stmt.ops| == JoinAddresses(p).start2 && loop1 == JoinAddresses(p).head1 && (0 <= pos0 <==> Loops(p.s1))
    ensures ndie <= ndie' <= die.Length && ndie' + OnceSlots(p.s1) <= ndie + 2 && nouter <= outer.Length
    ensures !Loops(p.s1) ==> Elems(outer[..nouter]) == {}
    ensures Agrees(stmt.ops, JoinCode(p), Elems(die[..ndie']) + Elems(outer[..nouter]) + PosHole(pos0))
    ensures Lead(JoinCode(p), Elems(die[..ndie']), JoinAddresses(p).tail)
    ensures Lead(JoinCode(p), Elems(outer[..nouter]), JoinAddresses(p).advance1)
    ensures Lead(JoinCode(p), PosHole(pos0), JoinAddresses(p).tail)
  {
    hide Agrees, Lead, JoinCode, CodeAt, Elems, Blank, AllocateRegs, OpenSide, SideLiterals, PositionOnce, LoadLiterals,
      CloseSide, SourceCompiled, StartLoop, CheckAll;
    ghost var code, a := JoinCode(p), JoinAddresses(p);
    OuterLayout(p);
    FiltersCompiled(p);
    next, ndie', nouter, pos0, loop1 := pc, ndie, 0, -1, pc;
    ghost var holes := Elems(die[..ndie]);
    assert outer[..0] == [];
    LeadNone(code, a.advance1);
    LeadNone(code, a.tail);
    if Loops(p.s1) {
      ghost var was := stmt.ops;
      pos0, next := EmitStartLoop(stmt, pc, p.s1, 0, r.r1);
      loop1 := next;
      StartBlank(p.s1, 0, r.r1, a.tail, pc);
      StartLength(p.s1, 0, r.r1, a.tail);
      Extends(was, code, holes, StartLoop(p.s1, 0, r.r1, -1), StartLoop(p.s1, 0, r.r1, a.tail), {pc}, a.tail);
      holes := holes + {pc};
      if p.s1.access.Scan? {
        was := stmt.ops;
        ghost var list, jumps := outer[..0], Jumps(next, 2, |p.s1.filter|);
        ChecksBlank(p.s1.columns, p.s2.columns, p.s1.filter, r.lits, r.tmpA, a.advance1, next);
        next, nouter := EmitFilterChecks(stmt, next, p.s1.filter, p.s1.columns, p.s2.columns, r.lits, r.tmpA, outer, 0);
        Pushes(was, code, holes, CheckAll(p.s1.columns, p.s2.columns, p.s1.filter, r.lits, r.tmpA, -1),
          CheckAll(p.s1.columns, p.s2.columns, p.s1.filter, r.lits, r.tmpA, a.advance1), list, jumps, a.advance1);
        assert holes + Elems(jumps) == Elems(die[..ndie']) + Elems(outer[..nouter]) + PosHole(pos0);
      } else {
        FollowParts(p.s1, 0, r.r1, r.tmpA, a.tail, a.tail);
        next, ndie' := EmitFollow(stmt, next, p.s1, 0, r.r1, r.tmpA, a.tail, code, holes, die, ndie);
        assert holes + Elems(die[..ndie']) == Elems(die[..ndie']) + Elems(outer[..nouter]) + PosHole(pos0);
      }
    } else {
      assert Elems(die[..ndie']) + Elems(outer[..nouter]) + PosHole(pos0) == holes;
    }
  }

  lemma StartLength(s: Source, side: nat, r: SideRegs, t: int)
    requires Loops(s)
    ensures |StartLoop(s, side, r, t)| == 1
  {
  }

  // Both jumps of a walk over the left index give up the whole query.
  method EmitFollow(stmt: Stmt, pc: nat, s: Source, side: nat, r: SideRegs, tmp: int, ghost t: int, ghost code: seq<Op>,
                    ghost holes: set<nat>, die: array<nat>, ndie: nat) returns (next: nat, ndie': nat)
    requires pc == |stmt.ops| && ndie + 2 <= die.Length && Elems(die[..ndie]) <= holes
    requires Agrees(stmt.ops, code, holes) && Lead(code, Elems(die[..ndie]), t)
    requires CodeAt(code, pc, FollowRow(s, side, r, t) + CheckUpper(s, side, r, tmp, t))
    modifies stmt`ops, die
    ensures next == |stmt.ops| == pc + |FollowRow(s, side, r, t) + CheckUpper(s, side, r, tmp, t)|
    ensures ndie <= ndie' <= ndie + 2 && Elems(old(die[..ndie])) <= Elems(die[..ndie'])
    ensures Agrees(stmt.ops, code, holes + Elems(die[..ndie'])) && Lead(code, Elems(die[..ndie']), t)
  {
    hide Agrees, Lead, CodeAt, Elems, Blank;
    CodeSplits(code, pc, FollowRow(s, side, r, t), CheckUpper(s, side, r, tmp, t));
    ghost var was, list, jumps := stmt.ops, die[..ndie], RowJumps(s, pc);
    RowBlank(s, side, r, t, pc);
    next, ndie' := EmitFollowRow(stmt, pc, s, side, r, die, ndie);
    Pushes(was, code, holes, FollowRow(s, side, r, -1), FollowRow(s, side, r, t), list, jumps, t);
    ghost var at, holes' := next, holes + Elems(jumps);
    was, list, jumps := stmt.ops, die[..ndie'], UpperJumps(s, at);
    UpperBlank(s, side, r, tmp, t, at);
    next, ndie' := EmitCheckUpper(stmt, next, s, side, r, tmp, die, ndie');
    Pushes(was, code, holes', CheckUpper(s, side, r, tmp, -1), CheckUpper(s, side, r, tmp, t), list, jumps, t);
    assert holes' + Elems(jumps) == holes + Elems(die[..ndie']);
  }

  // ---- the loop over the right table -----------------------------------------------------------------

  method EmitInner(stmt: Stmt, pc: nat, p: Plan, r: JoinRegs, die: array<nat>, ndie: nat, stop: array<nat>, ghost holes: set<nat>)
    returns (next: nat, ndie': nat, nstop: nat, pos1: int, loop2: nat)
    requires p.JoinPlan? && JoinCompiled(p) && r == AllocateRegs(p) && die != stop && stop.Length == 1
    requires pc == |stmt.ops| == JoinAddresses(p).start2 && ndie + |RowJumps(p.s2, pc)| <= die.Length
    requires Agrees(stmt.ops, JoinCode(p), holes) && Elems(die[..ndie]) <= holes
    requires Lead(JoinCode(p), Elems(die[..ndie]), JoinAddresses(p).tail)
    modifies stmt`ops, die, stop
    ensures next == |stmt.ops| == JoinAddresses(p).pairs && loop2 == JoinAddresses(p).head2 && (0 <= pos1 <==> Loops(p.s2))
    ensures ndie' == ndie + |RowJumps(p.s2, pc)| && nstop <= 1 && Elems(old(die[..ndie])) <= Elems(die[..ndie'])
    ensures Agrees(stmt.ops, JoinCode(p), holes + Elems(die[..ndie']) + Elems(stop[..nstop]) + PosHole(pos1))
    ensures Lead(JoinCode(p), Elems(die[..ndie']), JoinAddresses(p).tail)
    ensures Lead(JoinCode(p), Elems(stop[..nstop]), JoinAddresses(p).done2)
    ensures Lead(JoinCode(p), PosHole(pos1), JoinAddresses(p).done2)
  {
    hide Agrees, Lead, JoinCode, CodeAt, Elems, Blank, AllocateRegs, OpenSide, SideLiterals, PositionOnce, LoadLiterals,
      CloseSide, SourceCompiled, StartLoop, CheckAll, FollowIndex;
    ghost var code, a := JoinCode(p), JoinAddresses(p);
    InnerLayout(p);
    FollowParts(p.s2, 1, r.r2, r.tmpA, a.tail, a.done2);
    FollowLength(p.s2, 1, r.r2, r.tmpA, a.tail, a.done2);
    next, ndie', nstop, pos1, loop2 := pc, ndie, 0, -1, pc;
    assert stop[..0] == [];
    LeadNone(code, a.done2);
    if Loops(p.s2) {
      ghost var was := stmt.ops;
      pos1, next := EmitStartLoop(stmt, pc, p.s2, 1, r.r2);
      loop2 := next;
      StartBlank(p.s2, 1, r.r2, a.done2, pc);
      StartLength(p.s2, 1, r.r2, a.done2);
      Extends(was, code, holes, StartLoop(p.s2, 1, r.r2, -1), StartLoop(p.s2, 1, r.r2, a.done2), {pc}, a.done2);
      ghost var holes1 := holes + {pc};
      if p.s2.access.RangeSeek? {
        next, ndie', nstop := EmitFollowInner(stmt, next, p.s2, r.r2, r.tmpA, a.tail, a.done2, code, holes1, die, ndie, stop);
      }
      assert holes1 + Elems(die[..ndie']) + Elems(stop[..nstop]) == holes + Elems(die[..ndie']) + Elems(stop[..nstop]) + PosHole(pos1);
      assert !p.s2.access.RangeSeek? ==> holes1 + Elems(die[..ndie']) + Elems(stop[..nstop]) == holes1;
      ScanFollows(p.s2, 1, r.r2);
    } else {
      assert holes + Elems(die[..ndie']) + Elems(stop[..nstop]) + PosHole(pos1) == holes;
      ScanFollows(p.s2, 1, r.r2);
    }
  }

  lemma ScanFollows(s: Source, side: nat, r: SideRegs)
    ensures !s.access.RangeSeek? ==> |FollowIndex(s, side, r, 0, 0, 0)| == 0
  {
  }

  // A row beyond the upper bound of the right table ends the inner loop only.
  method EmitFollowInner(stmt: Stmt, pc: nat, s: Source, r: SideRegs, tmp: int, ghost t: int, ghost done: int, ghost code: seq<Op>,
                         ghost holes: set<nat>, die: array<nat>, ndie: nat, stop: array<nat>)
    returns (next: nat, ndie': nat, nstop: nat)
    requires pc == |stmt.ops| && ndie + |RowJumps(s, pc)| <= die.Length && Elems(die[..ndie]) <= holes
    requires die != stop && stop.Length == 1
    requires Agrees(stmt.ops, code, holes) && Lead(code, Elems(die[..ndie]), t)
    requires CodeAt(code, pc, FollowRow(s, 1, r, t) + CheckUpper(s, 1, r, tmp, done))
    modifies stmt`ops, die, stop
    ensures next == |stmt.ops| == pc + |FollowRow(s, 1, r, t) + CheckUpper(s, 1, r, tmp, done)|
    ensures ndie' == ndie + |RowJumps(s, pc)| && nstop <= 1 && Elems(old(die[..ndie])) <= Elems(die[..ndie'])
    ensures Agrees(stmt.ops, code, holes + Elems(die[..ndie']) + Elems(stop[..nstop])) && Lead(code, Elems(die[..ndie']), t)
    ensures Lead(code, Elems(stop[..nstop]), done)
  {
    hide Agrees, Lead, CodeAt, Elems, Blank;
    CodeSplits(code, pc, FollowRow(s, 1, r, t), CheckUpper(s, 1, r, tmp, done));
    ghost var was, list, jumps := stmt.ops, die[..ndie], RowJumps(s, pc);
    RowBlank(s, 1, r, t, pc);
    next, ndie' := EmitFollowRow(stmt, pc, s, 1, r, die, ndie);
    Pushes(was, code, holes, FollowRow(s, 1, r, -1), FollowRow(s, 1, r, t), list, jumps, t);
    ghost var at, holes' := next, holes + Elems(jumps);
    was, list, jumps := stmt.ops, stop[..0], UpperJumps(s, at);
    assert list == [];
    LeadNone(code, done);
    UpperBlank(s, 1, r, tmp, done, at);
    next, nstop := EmitCheckUpper(stmt, next, s, 1, r, tmp, stop, 0);
    Pushes(was, code, holes', CheckUpper(s, 1, r, tmp, -1), CheckUpper(s, 1, r, tmp, done), list, jumps, done);
    assert holes' + Elems(jumps) == holes + Elems(die[..ndie']) + Elems(stop[..nstop]);
  }

  method EmitRowChecks(stmt: Stmt, pc: nat, p: Plan, r: JoinRegs, inner: array<nat>, ghost holes: set<nat>)
    returns (next: nat, ninner: nat)
    requires p.JoinPlan? && r == AllocateRegs(p) && |p.pairs| + |p.s2.filter| + |p.top| <= inner.Length
    requires pc == |stmt.ops| == JoinAddresses(p).pairs && Agrees(stmt.ops, JoinCode(p), holes)
    modifies stmt`ops, inner
    ensures next == |stmt.ops| == JoinAddresses(p).outs && ninner == |p.pairs| + |p.s2.filter| + |p.top|
    ensures Agrees(stmt.ops, JoinCode(p), holes + Elems(inner[..ninner]))
    ensures Lead(JoinCode(p), Elems(inner[..ninner]), JoinAddresses(p).advance2)
  {
    hide Agrees, Lead, JoinCode, CodeAt, Elems, Blank, AllocateRegs, OpenSide, SideLiterals, PositionOnce, LoadLiterals,
      CloseSide, StartLoop, CheckAll, CheckPairs, FollowIndex;
    ghost var code, a := JoinCode(p), JoinAddresses(p);
    var c1, c2, lits2, litsTop := p.s1.columns, p.s2.columns, r.lits + |p.s1.filter|, r.lits + |p.s1.filter| + |p.s2.filter|;
    InnerLayout(p);
    LeadNone(code, a.advance2);
    ghost var was, list, jumps, at, holes1 := stmt.ops, inner[..0], Jumps(pc, 3, |p.pairs|), pc, holes;
    assert list == [] && holes + Elems([]) == holes;
    PairsBlank(c1, c2, p.pairs, r.tmpA, r.tmpB, a.advance2, at);
    next, ninner := EmitPairChecks(stmt, pc, p.pairs, c1, c2, r.tmpA, r.tmpB, inner, 0);
    Pushes(was, code, holes1, CheckPairs(c1, c2, p.pairs, r.tmpA, r.tmpB, -1),
      CheckPairs(c1, c2, p.pairs, r.tmpA, r.tmpB, a.advance2), list, jumps, a.advance2);
    assert holes + Elems(list) + Elems(jumps) == holes + Elems(inner[..ninner]);
    was, list, jumps, at, holes1 := stmt.ops, inner[..ninner], Jumps(next, 2, |p.s2.filter|), next, holes + Elems(inner[..ninner]);
    ChecksBlank(c1, c2, p.s2.filter, lits2, r.tmpA, a.advance2, at);
    next, ninner := EmitFilterChecks(stmt, next, p.s2.filter, c1, c2, lits2, r.tmpA, inner, ninner);
    Pushes(was, code, holes1, CheckAll(c1, c2, p.s2.filter, lits2, r.tmpA, -1),
      CheckAll(c1, c2, p.s2.filter, lits2, r.tmpA, a.advance2), list, jumps, a.advance2);
    assert holes1 + Elems(jumps) == holes + Elems(inner[..ninner]);
    was, list, jumps, at, holes1 := stmt.ops, inner[..ninner], Jumps(next, 2, |p.top|), next, holes + Elems(inner[..ninner]);
    ChecksBlank(c1, c2, p.top, litsTop, r.tmpA, a.advance2, at);
    next, ninner := EmitFilterChecks(stmt, next, p.top, c1, c2, litsTop, r.tmpA, inner, ninner);
    Pushes(was, code, holes1, CheckAll(c1, c2, p.top, litsTop, r.tmpA, -1),
      CheckAll(c1, c2, p.top, litsTop, r.tmpA, a.advance2), list, jumps, a.advance2);
    assert holes1 + Elems(jumps) == holes + Elems(inner[..ninner]);
  }

  method EmitRow(stmt: Stmt, pc: nat, p: Plan, r: JoinRegs, ghost holes: set<nat>) returns (next: nat)
    requires p.JoinPlan? && r == AllocateRegs(p)
    requires pc == |stmt.ops| == JoinAddresses(p).outs && Agrees(stmt.ops, JoinCode(p), holes)
    modifies stmt`ops
    ensures next == |stmt.ops| == JoinAddresses(p).advance2 && Agrees(stmt.ops, JoinCode(p), holes)
  {
    hide Agrees, JoinCode, CodeAt, AllocateRegs, OpenSide, SideLiterals, PositionOnce, LoadLiterals, CloseSide, StartLoop, CheckAll,
      CheckPairs, FollowIndex, LoadOutputs;
    ghost var code, was := JoinCode(p), stmt.ops;
    ghost var loads, row := LoadOutputs(p.s1.columns, p.s2.columns, p.out, r.out), [MakeOp(Op_ResultRow, r.out, |p.out|, 0)];
    InnerLayout(p);
    next := EmitOutputs(stmt, pc, p.out, p.s1.columns, p.s2.columns, r.out);
    Continues(was, code, holes, loads);
    Continues(was + loads, code, holes, row);
  }

  // ---- advancing and patching ---------------------------------------------------------------------------

  method PatchPos(stmt: Stmt, pos: int, t: int, ghost code: seq<Op>, ghost holes: set<nat>)
    requires Agrees(stmt.ops, code, holes) && Within(PosHole(pos), |stmt.ops|) && Lead(code, PosHole(pos), t)
    modifies stmt`ops
    ensures Agrees(stmt.ops, code, holes - PosHole(pos)) && |stmt.ops| == |old(stmt.ops)|
  {
    if 0 <= pos {
      assert pos in PosHole(pos);
      PatchOne(stmt, pos, t, code, holes);
    } else {
      assert holes - PosHole(pos) == holes;
    }
  }

  lemma AdvanceLength(s: Source, side: nat, head: int)
    ensures |AdvanceLoop(s, side, head)| == B2N(Loops(s))
  {
  }

  method EmitInnerEnd(stmt: Stmt, pc: nat, p: Plan, loop2: nat, inner: array<nat>, ninner: nat, stop: array<nat>, nstop: nat,
                      pos1: int, ghost holes: set<nat>) returns (next: nat)
    requires p.JoinPlan? && pc == |stmt.ops| == JoinAddresses(p).advance2 && Agrees(stmt.ops, JoinCode(p), holes)
    requires ninner <= inner.Length && nstop <= stop.Length && loop2 == JoinAddresses(p).head2
    requires Elems(inner[..ninner]) <= holes && Elems(stop[..nstop]) <= holes && PosHole(pos1) <= holes
    requires Lead(JoinCode(p), Elems(inner[..ninner]), JoinAddresses(p).advance2)
    requires Lead(JoinCode(p), Elems(stop[..nstop]), JoinAddresses(p).done2)
    requires Lead(JoinCode(p), PosHole(pos1), JoinAddresses(p).done2)
    modifies stmt`ops
    ensures next == |stmt.ops| == JoinAddresses(p).advance1
    ensures Agrees(stmt.ops, JoinCode(p), holes - Elems(inner[..ninner]) - PosHole(pos1) - Elems(stop[..nstop]))
  {
    hide Agrees, Lead, Within, JoinCode, CodeAt, Elems, PosHole, AllocateRegs, OpenSide, SideLiterals, PositionOnce, LoadLiterals,
      CloseSide, FollowIndex, AdvanceLoop;
    ghost var code, a := JoinCode(p), JoinAddresses(p);
    TailLayout(p);
    AdvanceLength(p.s2, 1, a.head2);
    ghost var was := stmt.ops;
    var retry := pc;
    next := EmitAdvance(stmt, pc, p.s2, 1, loop2);
    Continues(was, code, holes, AdvanceLoop(p.s2, 1, a.head2));
    HolesWithin(stmt.ops, code, holes, Elems(inner[..ninner]));
    HolesWithin(stmt.ops, code, holes, Elems(stop[..nstop]));
    HolesWithin(stmt.ops, code, holes, PosHole(pos1));
    PatchAll(stmt, inner, ninner, retry, code, holes);
    PatchPos(stmt, pos1, next, code, holes - Elems(inner[..ninner]));
    PatchAll(stmt, stop, nstop, next, code, holes - Elems(inner[..ninner]) - PosHole(pos1));
  }

  method EmitOuterEnd(stmt: Stmt, pc: nat, p: Plan, loop1: nat, outer: array<nat>, nouter: nat, die: array<nat>, ndie: nat,
                      pos0: int, ghost holes: set<nat>) returns (next: nat)
    requires p.JoinPlan? && pc == |stmt.ops| == JoinAddresses(p).advance1 && Agrees(stmt.ops, JoinCode(p), holes)
    requires nouter <= outer.Length && ndie <= die.Length && loop1 == JoinAddresses(p).head1
    requires Loops(p.s1) <==> 0 <= pos0
    requires !Loops(p.s1) ==> Elems(outer[..nouter]) == {}
    requires Within(Elems(outer[..nouter]), pc) && Within(Elems(die[..ndie]), pc) && Within(PosHole(pos0), pc)
    requires Lead(JoinCode(p), Elems(outer[..nouter]), JoinAddresses(p).advance1)
    requires Lead(JoinCode(p), Elems(die[..ndie]), JoinAddresses(p).tail)
    requires Lead(JoinCode(p), PosHole(pos0), JoinAddresses(p).tail)
    modifies stmt`ops
    ensures next == |stmt.ops| == JoinAddresses(p).tail
    ensures Agrees(stmt.ops, JoinCode(p), holes - Elems(outer[..nouter]) - PosHole(pos0) - Elems(die[..ndie]))
  {
    hide Agrees, Lead, Within, JoinCode, CodeAt, Elems, AllocateRegs, OpenSide, SideLiterals, PositionOnce, LoadLiterals,
      CloseSide, FollowIndex, AdvanceLoop;
    ghost var code, a := JoinCode(p), JoinAddresses(p);
    TailLayout(p);
    AdvanceLength(p.s1, 0, a.head1);
    next := pc;
    ghost var outers, dies := Elems(outer[..nouter]), Elems(die[..ndie]);
    if Loops(p.s1) {
      ghost var was := stmt.ops;
      next := EmitAdvance(stmt, pc, p.s1, 0, loop1);
      Continues(was, code, holes, AdvanceLoop(p.s1, 0, a.head1));
      WithinMore(outers, dies, PosHole(pos0), pc, next);
      PatchAll(stmt, outer, nouter, pc, code, holes);
      PatchPos(stmt, pos0, next, code, holes - outers);
    } else {
      assert holes - outers - PosHole(pos0) == holes;
    }
    PatchAll(stmt, die, ndie, next, code, holes - outers - PosHole(pos0));
  }

  lemma WithinMore(a: set<nat>, b: set<nat>, c: set<nat>, n: nat, n': nat)
    requires Within(a, n) && Within(b, n) && Within(c, n) && n <= n'
    ensures Within(a, n') && Within(b, n') && Within(c, n')
  {
  }

  method EmitTail(stmt: Stmt, pc: nat, p: Plan)
    requires p.JoinPlan? && pc == |stmt.ops| == JoinAddresses(p).tail && Agrees(stmt.ops, JoinCode(p), {})
    modifies stmt`ops
    ensures stmt.ops == JoinCode(p)
  {
    hide Agrees, JoinCode, CodeAt, AllocateRegs, OpenSide, SideLiterals, PositionOnce, LoadLiterals, CloseSide, FollowIndex, AdvanceLoop;
    ghost var code, was := JoinCode(p), stmt.ops;
    TailLayout(p);
    var next := EmitCloseSide(stmt, pc, p.s2, 1);
    Continues(was, code, {}, CloseSide(p.s2, 1));
    was := stmt.ops;
    next := EmitCloseSide(stmt, next, p.s1, 0);
    Continues(was, code, {}, CloseSide(p.s1, 0));
    was := stmt.ops;
    var addr;
    addr, next := Emit(stmt, next, Op_Halt, 0, 0, 0, []);
    Continues(was, code, {}, [MakeOp(Op_Halt, 0, 0, 0)]);
    Whole(stmt.ops, code);
  }

  lemma AdvancesInOrder(p: Plan)
    requires p.JoinPlan?
    ensures JoinAddresses(p).advance2 <= JoinAddresses(p).advance1
  {
  }

  // ---- the whole join -----------------------------------------------------------------------------------

  // codegen_select_join, once the plan is made.
  method EmitJoin(stmt: Stmt, p: Plan)
    requires p.JoinPlan? && JoinCompiled(p) && stmt.ops == []
    modifies stmt`ops
    ensures stmt.ops == JoinCode(p)
  {
    hide Agrees, Lead, JoinCode, Elems, AllocateRegs, JoinAddresses, SourceCompiled, Within, PosHole;
    ghost var code := JoinCode(p);
    var r := AllocateJoinRegs(p);
    var die, stop := new nat[4], new nat[1];
    var npatchMax := |p.pairs| + |p.s1.filter| + |p.s2.filter| + |p.top| + 1;
    var outer, inner := new nat[npatchMax], new nat[npatchMax];
    var pc, ndie := EmitPrologue(stmt, 0, p, r, die);
    var nouter, pos0, loop1, nstop, pos1, loop2, ninner;
    pc, ndie, nouter, pos0, loop1 := EmitOuter(stmt, pc, p, r, die, ndie, outer);
    ghost var dies, outers, before := Elems(die[..ndie]), Elems(outer[..nouter]), PosHole(pos0);
    ghost var holes := dies + outers + before;
    pc, ndie, nstop, pos1, loop2 := EmitInner(stmt, pc, p, r, die, ndie, stop, holes);
    assert dies <= Elems(die[..ndie]);
    dies := Elems(die[..ndie]);
    ghost var stops, start := Elems(stop[..nstop]), PosHole(pos1);
    holes := holes + dies + stops + start;
    pc, ninner := EmitRowChecks(stmt, pc, p, r, inner, holes);
    ghost var inners := Elems(inner[..ninner]);
    holes := holes + inners;
    pc := EmitRow(stmt, pc, p, r, holes);
    HolesWithin(stmt.ops, code, holes, outers);
    HolesWithin(stmt.ops, code, holes, dies);
    HolesWithin(stmt.ops, code, holes, before);
    AdvancesInOrder(p);
    ghost var n := pc;
    pc := EmitInnerEnd(stmt, pc, p, loop2, inner, ninner, stop, nstop, pos1, holes);
    WithinMore(outers, dies, before, n, pc);
    pc := EmitOuterEnd(stmt, pc, p, loop1, outer, nouter, die, ndie, pos0, holes - inners - start - stops);
    assert holes - inners - start - stops - outers - before - dies == {};
    EmitTail(stmt, pc, p);
  }
}
