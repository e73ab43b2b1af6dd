// What a comparison compares: integers by size, texts by their first different byte.
module Comparisons {
  import opened Sql
  import opened Values
  import opened Relational
  import opened Machine

  // Text a comes before text b: it is a proper prefix, or smaller at the first difference.
  ghost predicate TextBefore(a: text, b: text) {
    exists k: nat :: DiffersAt(a, b, k)
  }

  predicate DiffersAt(a: text, b: text, k: nat) {
    k <= |a| && k < |b| && a[..k] == b[..k] && (k == |a| || a[k] < b[k])
  }

  // strcmp, as the model defines it, is this order.
  lemma {:induction false} TextLessIs(a: text, b: text)
    ensures TextLess(a, b) <==> TextBefore(a, b)
  {
    if a == [] || b == [] {
      if b != [] { assert DiffersAt(a, b, 0); }
    } else if a[0] != b[0] {
      if a[0] < b[0] { assert DiffersAt(a, b, 0); }
      forall k: nat | 0 < k && k <= |a| && k < |b| ensures a[..k] != b[..k] {
        assert a[..k][0] == a[0] && b[..k][0] == b[0];
      }
    } else {
      TextLessIs(a[1..], b[1..]);
      if TextBefore(a[1..], b[1..]) {
        var k: nat :| DiffersAt(a[1..], b[1..], k);
        assert a[..k + 1] == [a[0]] + a[1..][..k] && b[..k + 1] == [b[0]] + b[1..][..k];
        assert DiffersAt(a, b, k + 1);
      }
      if TextBefore(a, b) {
        var k: nat :| DiffersAt(a, b, k);
        assert 0 < k;
        assert a[1..][..k - 1] == a[..k][1..] && b[1..][..k - 1] == b[..k][1..];
        assert DiffersAt(a[1..], b[1..], k - 1);
      }
    }
  }

  // Of two texts exactly one comes first, unless they are the same.
  lemma TextsCompare(a: text, b: text)
    ensures Order(Str(a), Str(b)) < 0 <==> TextBefore(a, b)
    ensures Order(Str(a), Str(b)) > 0 <==> TextBefore(b, a)
    ensures Order(Str(a), Str(b)) == 0 <==> a == b
  {
    hide TextBefore, TextLess;
    TextLessIs(a, b);
    TextLessIs(b, a);
    OneIsFirst(a, b);
  }

  lemma {:induction false} OneIsFirst(a: text, b: text)
    ensures a != b ==> (TextLess(a, b) <==> !TextLess(b, a))
    ensures !TextLess(a, a)
    decreases |a|
  {
    if a != [] {
      OneIsFirst(a[1..], if b == [] then [] else b[1..]);
      assert a == [a[0]] + a[1..];
      if b != [] { assert b == [b[0]] + b[1..]; }
    }
  }

  // ---- values -------------------------------------------------------------------------------------------

  ghost predicate Before(v: Value, w: Value) {
    (v.Int? && w.Int? && v.i < w.i) || (v.Str? && w.Str? && TextBefore(v.s, w.s))
  }

  lemma OrderIs(v: Value, w: Value)
    requires Comparable(v, w)
    ensures Order(v, w) < 0 <==> Before(v, w)
    ensures Order(v, w) > 0 <==> Before(w, v)
    ensures Order(v, w) == 0 <==> v == w
  {
    hide TextBefore;
    if v.Str? {
      TextsCompare(v.s, w.s);
    }
  }

  // What `v op w` says.
  ghost predicate Says(op: CompareOp, v: Value, w: Value) {
    match op
    case CompareEq => v == w
    case CompareLt => Before(v, w)
    case CompareGt => Before(w, v)
    case CompareLeq => v == w || Before(v, w)
    case CompareGeq => v == w || Before(w, v)
  }

  // A condition holds of two integers or two texts that are as it says, and of no other values.
  lemma CompareHoldsIs(op: CompareOp, v: Value, w: Value)
    ensures CompareHolds(op, v, w) <==> ((v.Int? && w.Int?) || (v.Str? && w.Str?)) && Says(op, v, w)
  {
    hide Before, Order;
    if Comparable(v, w) {
      OrderIs(v, w);
    }
  }

  // ---- instructions -----------------------------------------------------------------------------------------

  // When the jump of a comparison of registers is taken: the register p3 stands on the left.
  ghost predicate JumpTaken(code: Opcode, v: Value, w: Value) {
    match code
    case Op_Eq => v == w
    case Op_Ne => v != w
    case Op_Lt => Before(v, w)
    case Op_Le => v == w || Before(v, w)
    case Op_Gt => Before(w, v)
    case Op_Ge => v == w || Before(w, v)
    case _ => false
  }

  lemma CompareJumps(op: Op, m: Machine)
    requires op.code in {Op_Eq, Op_Ne, Op_Lt, Op_Le, Op_Gt, Op_Ge} && HasReg(m, op.p1) && HasReg(m, op.p3)
    requires Comparable(m.regs[op.p3], m.regs[op.p1])
    ensures CompareRegs(op, m) == Ok(m.(pc := if JumpTaken(op.code, m.regs[op.p3], m.regs[op.p1]) then Address(op.p2) else m.pc))
  {
    hide Before, Order, Address;
    OrderIs(m.regs[op.p3], m.regs[op.p1]);
  }
}
