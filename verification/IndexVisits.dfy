// An index that has the pairs of the rows of its table, and what a scan and an equality seek visit.
module IndexVisits {
  import opened Common
  import opened Sql
  import opened Values
  import opened Trees
  import opened TreeSnapshot
  import opened Machine
  import opened Planner
  import opened Layout
  import opened JoinRows

  // ---- lists of rows -----------------------------------------------------------------------

  function Pick(t: seq<Entry>, us: seq<nat>): (r: seq<Entry>)
    requires forall k :: 0 <= k < |us| ==> us[k] < |t|
    ensures |r| == |us| && forall k :: 0 <= k < |us| ==> r[k] == t[us[k]]
  {
    seq(|us|, k requires 0 <= k < |us| => t[us[k]])
  }

  // The rows that pass all conjuncts of a side.
  ghost function Passing(columns: seq<Column>, side: nat, cmps: seq<ResolvedCmp>, es: seq<Entry>): (r: seq<Entry>)
    requires SideCmps(columns, side, cmps)
    ensures forall x :: x in r <==> x in es && PassesAll(columns, side, x, cmps)
  {
    if es == [] then []
    else (if PassesAll(columns, side, es[0], cmps) then [es[0]] else []) + Passing(columns, side, cmps, es[1..])
  }

  ghost predicate NoRepeats(s: seq<Entry>) {
    forall i, j :: 0 <= i < j < |s| ==> s[i] != s[j]
  }

  lemma {:induction false} OnceEach(s: seq<Entry>, x: Entry)
    requires NoRepeats(s)
    ensures multiset(s)[x] == if x in s then 1 else 0
  {
    if s != [] {
      var front := s[..|s| - 1];
      assert s == front + [s[|s| - 1]];
      OnceEach(front, x);
    }
  }

  // Lists without repeats that have the same members are permutations of each other.
  lemma SameMembers(a: seq<Entry>, b: seq<Entry>)
    requires NoRepeats(a) && NoRepeats(b) && forall x :: x in a <==> x in b
    ensures multiset(a) == multiset(b)
  {
    forall x ensures multiset(a)[x] == multiset(b)[x] {
      OnceEach(a, x);
      OnceEach(b, x);
    }
  }

  lemma {:induction false} PassingNoRepeats(columns: seq<Column>, side: nat, cmps: seq<ResolvedCmp>, es: seq<Entry>)
    requires SideCmps(columns, side, cmps) && NoRepeats(es)
    ensures NoRepeats(Passing(columns, side, cmps, es))
  {
    if es != [] {
      assert NoRepeats(es[1..]) && es[0] !in es[1..];
      PassingNoRepeats(columns, side, cmps, es[1..]);
    }
  }

  lemma AscendingNoRepeats(es: seq<Entry>)
    requires Ascending(es)
    ensures NoRepeats(es)
  {
  }

  // ---- an index that agrees with its table --------------------------------------------------

  // Index entry x is the entry of row e for column i.
  predicate IsEntryOf(columns: seq<Column>, i: nat, x: Entry, e: Entry)
    requires i < |columns|
  {
    var v := ColumnValue(columns, e, i);
    IsInt32(v) && x == Entry(Wrap(v.i), [], e.key)
  }

  ghost predicate HasEntry(columns: seq<Column>, i: nat, x: seq<Entry>, e: Entry)
    requires i < |columns|
  {
    exists d :: 0 <= d < |x| && IsEntryOf(columns, i, x[d], e)
  }

  ghost predicate HasRow(columns: seq<Column>, i: nat, t: seq<Entry>, a: Entry)
    requires i < |columns|
  {
    exists j :: 0 <= j < |t| && IsEntryOf(columns, i, a, t[j])
  }

  // Each key belongs to one entry, which may come more than once.
  ghost predicate OnePerKey(x: seq<Entry>) {
    forall d, e :: 0 <= d < |x| && 0 <= e < |x| && x[d].key == x[e].key ==> x[d] == x[e]
  }

  // The index snapshot is in key order and its entries are the (column value, primary key)
  // pairs of the rows; a column value is stored as an unsigned number.
  ghost predicate IndexCovers(columns: seq<Column>, i: nat, t: seq<Entry>, x: seq<Entry>) {
    && i < |columns| && Ascending(t) && NonDescending(x) && OnePerKey(x)
    && (forall j :: 0 <= j < |t| ==> t[j].key < 0x8000_0000 && HasEntry(columns, i, x, t[j]))
    && (forall d :: 0 <= d < |x| ==> HasRow(columns, i, t, x[d]))
  }

  lemma RowFor(columns: seq<Column>, i: nat, t: seq<Entry>, x: seq<Entry>, d: nat) returns (j: nat)
    requires IndexCovers(columns, i, t, x) && d < |x|
    ensures i < |columns| && j < |t| && IsEntryOf(columns, i, x[d], t[j])
    ensures x[d].pk == t[j].key < 0x8000_0000
  {
    hide ColumnValue, HasEntry;
    var entry := x[d];
    assert HasRow(columns, i, t, entry);
    j :| 0 <= j < |t| && IsEntryOf(columns, i, entry, t[j]);
  }

  lemma EntryFor(columns: seq<Column>, i: nat, t: seq<Entry>, x: seq<Entry>, j: nat) returns (d: nat)
    requires IndexCovers(columns, i, t, x) && j < |t|
    ensures i < |columns| && d < |x| && IsEntryOf(columns, i, x[d], t[j])
    ensures x[d].pk == t[j].key < 0x8000_0000
  {
    hide ColumnValue, HasRow;
    var row := t[j];
    assert HasEntry(columns, i, x, row);
    d :| 0 <= d < |x| && IsEntryOf(columns, i, x[d], row);
  }

  // A primary key is found at its only position.
  lemma SeekFinds(t: seq<Entry>, j: nat)
    requires Ascending(t) && j < |t|
    ensures SeekUp(Op_Seek, t, t[j].key, 0) == Some(j)
  {
    assert SeekMatches(Op_Seek, t[j].key, t[j].key);
    var k := SeekUp(Op_Seek, t, t[j].key, 0).value;
    assert t[k].key == t[j].key;
  }

  lemma CoversParts(columns: seq<Column>, i: nat, t: seq<Entry>, x: seq<Entry>)
    requires IndexCovers(columns, i, t, x)
    ensures i < |columns| && Ascending(t) && NonDescending(x) && OnePerKey(x)
  {
    hide HasEntry, HasRow;
  }

  lemma CoversLinked(columns: seq<Column>, i: nat, t: seq<Entry>, x: seq<Entry>)
    requires IndexCovers(columns, i, t, x)
    ensures Linked(t, x)
  {
    hide IndexCovers, IsEntryOf, SeekUp;
    CoversParts(columns, i, t, x);
    forall d | 0 <= d < |x| ensures x[d].pk < 0x8000_0000 && SeekUp(Op_Seek, t, x[d].pk, 0).Some? {
      var j := RowFor(columns, i, t, x, d);
      SeekFinds(t, j);
    }
  }

  // The row an index entry leads to.
  lemma RowOfEntry(columns: seq<Column>, i: nat, t: seq<Entry>, x: seq<Entry>, d: nat)
    requires IndexCovers(columns, i, t, x) && d < |x|
    ensures Linked(t, x) && i < |columns|
    ensures IsEntryOf(columns, i, x[d], t[SeekUp(Op_Seek, t, x[d].pk, 0).value])
  {
    hide IndexCovers, IsEntryOf;
    CoversLinked(columns, i, t, x);
    CoversParts(columns, i, t, x);
    var j := RowFor(columns, i, t, x, d);
    SeekFinds(t, j);
  }

  lemma EntryOfRow(columns: seq<Column>, i: nat, t: seq<Entry>, x: seq<Entry>, j: nat) returns (d: nat)
    requires IndexCovers(columns, i, t, x) && j < |t|
    ensures Linked(t, x) && d < |x| && i < |columns|
    ensures SeekUp(Op_Seek, t, x[d].pk, 0) == Some(j) && IsEntryOf(columns, i, x[d], t[j])
  {
    hide IndexCovers, IsEntryOf;
    CoversLinked(columns, i, t, x);
    CoversParts(columns, i, t, x);
    d := EntryFor(columns, i, t, x, j);
    SeekFinds(t, j);
  }

  // ---- conjuncts and seeks -------------------------------------------------------------------

  predicate SameSign(a: int, b: int) {
    0 <= a <==> 0 <= b
  }

  predicate RowSignMatches(columns: seq<Column>, i: nat, e: Entry, n: int)
    requires i < |columns|
  {
    ColumnValue(columns, e, i).Int? && SameSign(ColumnValue(columns, e, i).i, n)
  }

  // Registers compare as signed numbers and index keys as unsigned ones: a conjunct holds
  // of a row exactly when its seek matches the row's index entry, if the signs are the same.
  lemma PassIsSeek(columns: seq<Column>, side: nat, cmp: ResolvedCmp, x: Entry, e: Entry)
    requires SideCmp(columns, side, cmp) && cmp.lit.IntLit? && LiteralInRange(cmp.lit)
    requires IsEntryOf(columns, cmp.col.idx, x, e)
    requires cmp.op == Op_Ne || RowSignMatches(columns, cmp.col.idx, e, cmp.lit.i)
    ensures Passes(columns, e, cmp) <==> SeekMatches(SeekOf(cmp), x.key, SeekKey(cmp.lit))
  {
    hide ColumnValue;
  }

  // The conjuncts an access path consumes.
  function Consumed(s: Source): seq<ResolvedCmp> {
    match s.access
    case Scan => s.filter
    case EqSeek(_, cmp) => [cmp]
    case RangeSeek(_, cmp, None) => [cmp]
    case RangeSeek(_, cmp, Some(u)) => [cmp, u]
  }

  // The walk from d on passes over entry e.
  predicate Ahead(s: Source, n: nat, d: nat, e: nat) {
    if AdvanceOf(s.access) == Op_Prev then e <= d else d <= e < n
  }

  // The upper bound, on the row of index entry e.
  ghost predicate BelowUpper(s: Source, side: nat, t: seq<Entry>, x: seq<Entry>, e: nat)
    requires ValidAccess(s, side, t, x) && e < |Driver(s, t, x)|
  {
    !StopsAt(s, side, t, x, TablePos(s, t, x, e))
  }

  lemma NoUpper(s: Source, side: nat, t: seq<Entry>, x: seq<Entry>, c: nat)
    requires ValidAccess(s, side, t, x) && c < |Driver(s, t, x)| && !HasUpper(s.access)
    ensures BelowUpper(s, side, t, x, c)
  {
  }

  lemma PassesConsumed(s: Source, side: nat, t: seq<Entry>, x: seq<Entry>, e: Entry)
    requires s.access.RangeSeek? && ValidAccess(s, side, t, x) && SideCmps(s.columns, side, Consumed(s))
    ensures PassesAll(s.columns, side, e, Consumed(s)) <==>
      && Passes(s.columns, e, s.access.cmp)
      && (s.access.upper.Some? ==> Passes(s.columns, e, s.access.upper.value))
  {
    hide Passes, Linked;
    var c := Consumed(s);
    assert c[0] == s.access.cmp;
    if s.access.upper.Some? {
      assert c[1] == s.access.upper.value;
    }
  }

  // ---- scans and equality seeks ---------------------------------------------------------------

  lemma {:induction false} PassNothing(columns: seq<Column>, side: nat, es: seq<Entry>)
    ensures Passing(columns, side, [], es) == es
  {
    if es != [] {
      PassNothing(columns, side, es[1..]);
    }
  }

  lemma ScanVisits(s: Source, side: nat, t: seq<Entry>, x: seq<Entry>)
    requires s.access.Scan?
    ensures Pick(t, Visit(s, side, t, x)) == t
  {
    if t != [] {
      ScanFrom(s, side, t, x, 0);
    }
  }

  lemma {:induction false} ScanFrom(s: Source, side: nat, t: seq<Entry>, x: seq<Entry>, d: nat)
    requires s.access.Scan? && d < |t|
    ensures Pick(t, Walk(s, side, t, x, d)) == t[d..]
    decreases |t| - d
  {
    if d + 1 < |t| {
      ScanFrom(s, side, t, x, d + 1);
      var rest := Walk(s, side, t, x, d + 1);
      assert Pick(t, [d] + rest) == [t[d]] + Pick(t, rest);
    } else {
      assert Pick(t, [d]) == [t[d]];
    }
  }

  lemma EqVisits(s: Source, side: nat, t: seq<Entry>, x: seq<Entry>, j: nat)
    requires s.access.EqSeek? && ValidAccess(s, side, t, x) && IndexCovers(s.columns, s.access.cmp.col.idx, t, x)
    requires SideCmps(s.columns, side, Consumed(s)) && j < |t|
    ensures j in Visit(s, side, t, x) <==> PassesAll(s.columns, side, t[j], Consumed(s))
  {
    hide Passes, IndexCovers, IsEntryOf, SeekUp;
    var cmp := s.access.cmp;
    CoversParts(s.columns, cmp.col.idx, t, x);
    var e := EntryOfRow(s.columns, cmp.col.idx, t, x, j);
    PassIsSeek(s.columns, side, cmp, x[e], t[j]);
    assert Consumed(s)[0] == cmp;
    if x[e].key == SeekKey(cmp.lit) {
      EqSeekFinds(x, SeekKey(cmp.lit), e);
    }
    match SeekPosition(Op_Seek, x, SeekKey(cmp.lit))
    case None =>
    case Some(d) =>
      if SeekUp(Op_Seek, t, x[d].pk, 0) == Some(j) {
        SameRowSameKey(s.columns, cmp.col.idx, t, x, d, e);
      }
  }

  // An equality seek finds the first copy of the entry of a key, if there is one.
  lemma EqSeekFinds(x: seq<Entry>, key: nat, e: nat)
    requires OnePerKey(x) && e < |x| && x[e].key == key
    ensures SeekPosition(Op_Seek, x, key).Some? && x[SeekPosition(Op_Seek, x, key).value] == x[e]
  {
    assert SeekMatches(Op_Seek, x[e].key, key);
  }

  // Two entries that lead to one row have one key.
  lemma SameRowSameKey(columns: seq<Column>, i: nat, t: seq<Entry>, x: seq<Entry>, d: nat, e: nat)
    requires IndexCovers(columns, i, t, x) && d < |x| && e < |x|
    requires Linked(t, x) && SeekUp(Op_Seek, t, x[d].pk, 0) == SeekUp(Op_Seek, t, x[e].pk, 0)
    ensures x[d] == x[e]
  {
    hide IndexCovers, ColumnValue;
    RowOfEntry(columns, i, t, x, d);
    RowOfEntry(columns, i, t, x, e);
  }

  // An equality seek reads what a scan with the same conjunct keeps, whatever the index repeats.
  lemma EqVisitsPassing(s: Source, side: nat, t: seq<Entry>, x: seq<Entry>)
    requires s.access.EqSeek? && ValidAccess(s, side, t, x) && IndexCovers(s.columns, s.access.cmp.col.idx, t, x)
    requires SideCmps(s.columns, side, Consumed(s))
    ensures multiset(Pick(t, Visit(s, side, t, x))) == multiset(Passing(s.columns, side, Consumed(s), t))
  {
    hide PassesAll, ValidAccess, IndexCovers;
    var v := Visit(s, side, t, x);
    var picked, passing := Pick(t, v), Passing(s.columns, side, Consumed(s), t);
    assert |picked| <= 1;
    CoversParts(s.columns, s.access.cmp.col.idx, t, x);
    AscendingNoRepeats(t);
    PassingNoRepeats(s.columns, side, Consumed(s), t);
    forall e ensures e in picked <==> e in passing {
      if e in picked {
        var k :| 0 <= k < |picked| && picked[k] == e;
        EqVisits(s, side, t, x, v[k]);
      }
      if e in passing {
        var j :| 0 <= j < |t| && t[j] == e;
        EqVisits(s, side, t, x, j);
        var k :| 0 <= k < |v| && v[k] == j;
        assert picked[k] == e;
      }
    }
    SameMembers(picked, passing);
  }
}
