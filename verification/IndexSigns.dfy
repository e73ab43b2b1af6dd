// Index keys order as unsigned numbers and registers as signed ones, and an index that has split
// repeats entries: exactly when a range path still reads what a scan keeps.
module IndexSigns {
  import opened Common
  import opened Sql
  import opened Values
  import opened Trees
  import opened TreeSnapshot
  import opened Machine
  import opened Planner
  import opened Layout
  import opened JoinRows
  import opened IndexVisits
  import opened IndexRepeats

  // ---- values --------------------------------------------------------------------------------------

  function IndexedValue(s: Source, e: Entry): int
    requires s.access.RangeSeek? && s.access.cmp.col.idx < |s.columns|
  {
    var v := ColumnValue(s.columns, e, s.access.cmp.col.idx);
    if v.Int? then v.i else 0
  }

  // A comparison with an integer literal, on a value.
  predicate ValuePasses(cmp: ResolvedCmp, v: int)
    requires cmp.lit.IntLit?
  {
    !JumpsOn(cmp.op, if v < cmp.lit.i then -1 else if cmp.lit.i < v then 1 else 0)
  }

  lemma PassesValue(s: Source, cmp: ResolvedCmp, x: Entry, e: Entry)
    requires s.access.RangeSeek? && cmp.col == s.access.cmp.col && cmp.col.idx < |s.columns| && cmp.lit.IntLit?
    requires IsEntryOf(s.columns, cmp.col.idx, x, e)
    ensures Passes(s.columns, e, cmp) <==> ValuePasses(cmp, IndexedValue(s, e))
    ensures -0x8000_0000 <= IndexedValue(s, e) < 0x8000_0000 && x.key == Wrap(IndexedValue(s, e))
  {
    hide ColumnValue;
  }

  // The range of a path, on values.
  predicate InRange(s: Source, v: int)
    requires s.access.RangeSeek? && s.access.cmp.lit.IntLit? && (s.access.upper.Some? ==> s.access.upper.value.lit.IntLit?)
  {
    ValuePasses(s.access.cmp, v) && (s.access.upper.Some? ==> ValuePasses(s.access.upper.value, v))
  }

  // What the seek does to a value.
  predicate HitsValue(s: Source, v: int)
    requires s.access.RangeSeek? && s.access.cmp.lit.IntLit? && -0x8000_0000 <= v < 0x8000_0000
  {
    SeekMatches(SeekOf(s.access.cmp), Wrap(v), SeekKey(s.access.cmp.lit))
  }

  // The values of an indexed column, as the walk meets them.
  ghost predicate Occurs(s: Source, t: seq<Entry>, v: int)
    requires s.access.RangeSeek? && s.access.cmp.col.idx < |s.columns|
  {
    exists j :: 0 <= j < |t| && IndexedValue(s, t[j]) == v
  }

  // When the range path is right about all rows. With one bound: all values have the sign of
  // the literal. With two: no value of the other sign lies below the upper bound or, for a
  // literal that is not negative, the walk is stopped before it reaches the negative values.
  ghost predicate RangeIsRight(s: Source, t: seq<Entry>)
    requires s.access.RangeSeek? && s.access.cmp.col.idx < |s.columns|
    requires s.access.cmp.lit.IntLit? && (s.access.upper.Some? ==> s.access.upper.value.lit.IntLit?)
  {
    var lo := s.access.cmp.lit.i;
    match s.access.upper
    case None => forall v :: Occurs(s, t, v) ==> SameSign(v, lo)
    case Some(u) =>
      || (forall v :: Occurs(s, t, v) && ValuePasses(u, v) ==> SameSign(v, lo))
      || (0 <= lo && exists v :: Occurs(s, t, v) && 0 <= v && ValuePasses(s.access.cmp, v) && !ValuePasses(u, v))
  }

  // ---- visited values ---------------------------------------------------------------------------------

  // The row of value v is visited.
  ghost predicate VisitsValue(s: Source, t: seq<Entry>, v: int)
    requires s.access.RangeSeek? && s.access.cmp.col.idx < |s.columns| && -0x8000_0000 <= v < 0x8000_0000
    requires s.access.cmp.lit.IntLit? && (s.access.upper.Some? ==> s.access.upper.value.lit.IntLit?)
  {
    HitsValue(s, v) && (s.access.upper.Some? ==> ClearBelow(s, t, v))
  }

  // No value that the walk meets up to v is beyond the upper bound.
  ghost predicate ClearBelow(s: Source, t: seq<Entry>, v: int)
    requires s.access.RangeSeek? && s.access.cmp.col.idx < |s.columns| && -0x8000_0000 <= v < 0x8000_0000
    requires s.access.cmp.lit.IntLit? && s.access.upper.Some? && s.access.upper.value.lit.IntLit?
  {
    forall w :: Occurs(s, t, w) && -0x8000_0000 <= w < 0x8000_0000 && Wrap(w) <= Wrap(v) && HitsValue(s, w)
                ==> ValuePasses(s.access.upper.value, w)
  }

  // The value of a row and the key of its entry.
  lemma EntryValue(s: Source, side: nat, t: seq<Entry>, x: seq<Entry>, e: nat)
    requires RangeOver(s, side, t, x) && e < |x|
    ensures Linked(t, x) && s.access.cmp.col.idx < |s.columns| && s.access.cmp.lit.IntLit?
    ensures var row := t[TablePos(s, t, x, e)]; var v := IndexedValue(s, row);
      && -0x8000_0000 <= v < 0x8000_0000 && x[e].key == Wrap(v) && Occurs(s, t, v)
      && (SeekHits(s, x[e]) <==> HitsValue(s, v))
      && (Passes(s.columns, row, s.access.cmp) <==> ValuePasses(s.access.cmp, v))
      && (s.access.upper.Some? ==>
            && s.access.upper.value.lit.IntLit?
            && (BelowUpper(s, side, t, x, e) <==> ValuePasses(s.access.upper.value, v))
            && (Passes(s.columns, row, s.access.upper.value) <==> ValuePasses(s.access.upper.value, v)))
  {
    hide IndexCovers, Passes, ColumnValue, IsEntryOf, IndexedValue, ValuePasses, Linked;
    RangeParts(s, side, t, x);
    LeadsToRow(s, side, t, x, e);
    var row := t[TablePos(s, t, x, e)];
    PassesValue(s, s.access.cmp, x[e], row);
    if s.access.upper.Some? {
      PassesValue(s, s.access.upper.value, x[e], row);
    }
  }

  // The position of an entry of a row.
  lemma EntryAt(s: Source, side: nat, t: seq<Entry>, x: seq<Entry>, j: nat) returns (e: nat)
    requires RangeOver(s, side, t, x) && j < |t|
    ensures e < |x| && Linked(t, x) && TablePos(s, t, x, e) == j
    ensures s.access.cmp.col.idx < |s.columns| && IsEntryOf(s.columns, s.access.cmp.col.idx, x[e], t[j])
  {
    hide IndexCovers, IsEntryOf;
    e := EntryOfRow(s.columns, s.access.cmp.col.idx, t, x, j);
  }

  lemma ValueEntry(s: Source, side: nat, t: seq<Entry>, x: seq<Entry>, v: int) returns (e: nat)
    requires RangeOver(s, side, t, x) && s.access.cmp.col.idx < |s.columns| && Occurs(s, t, v)
    ensures e < |x| && Linked(t, x) && IndexedValue(s, t[TablePos(s, t, x, e)]) == v
  {
    hide RangeOver, IsEntryOf, IndexedValue, Linked;
    RangeParts(s, side, t, x);
    var j :| 0 <= j < |t| && IndexedValue(s, t[j]) == v;
    e := EntryAt(s, side, t, x, j);
  }

  lemma ClearIff(s: Source, side: nat, t: seq<Entry>, x: seq<Entry>, e: nat, v: int)
    requires RangeOver(s, side, t, x) && e < |x| && s.access.upper.Some? && s.access.upper.value.lit.IntLit?
    requires s.access.cmp.col.idx < |s.columns| && s.access.cmp.lit.IntLit? && ValidAccess(s, side, t, x)
    requires -0x8000_0000 <= v < 0x8000_0000 && x[e].key == Wrap(v)
    ensures SeekHits(s, x[e]) ==> (WayClear(s, side, t, x, e) <==> ClearBelow(s, t, v))
  {
    hide RangeOver, IndexCovers, Passes, IndexedValue, ValuePasses, Linked, BelowUpper, SeekHits, HitsValue, Occurs, TablePos, ValidAccess;
    RangeParts(s, side, t, x);
    if SeekHits(s, x[e]) {
      if WayClear(s, side, t, x, e) {
        forall w | Occurs(s, t, w) && -0x8000_0000 <= w < 0x8000_0000 && Wrap(w) <= Wrap(v) && HitsValue(s, w)
          ensures ValuePasses(s.access.upper.value, w)
        {
          var c := ValueEntry(s, side, t, x, w);
          EntryValue(s, side, t, x, c);
          if e < c {
            assert x[c] == x[e];
            EntryValue(s, side, t, x, e);
            SameEntrySameRow(s, t, x, c, e);
          }
        }
      } else {
        var c: nat :| c <= e && SeekHits(s, x[c]) && !BelowUpper(s, side, t, x, c);
        EntryValue(s, side, t, x, c);
        assert x[c].key <= x[e].key;
      }
    }
  }

  // What becomes of one row: it is visited, for each copy of its entry, or not at all, by its
  // value; and whether it should be.
  lemma VisitedValue(s: Source, side: nat, t: seq<Entry>, x: seq<Entry>, j: nat) returns (e: nat)
    requires RangeOver(s, side, t, x) && j < |t|
    ensures s.access.cmp.col.idx < |s.columns| && s.access.cmp.lit.IntLit? && ValidAccess(s, side, t, x)
    ensures s.access.upper.Some? ==> s.access.upper.value.lit.IntLit?
    ensures e < |x| && IsEntryOf(s.columns, s.access.cmp.col.idx, x[e], t[j]) && 0 < multiset(x)[x[e]]
    ensures SideCmps(s.columns, side, Consumed(s))
    ensures var v := IndexedValue(s, t[j]);
      && -0x8000_0000 <= v < 0x8000_0000 && Occurs(s, t, v)
      && multiset(Pick(t, Visit(s, side, t, x)))[t[j]] == (if VisitsValue(s, t, v) then multiset(x)[x[e]] else 0)
      && (PassesAll(s.columns, side, t[j], Consumed(s)) <==> InRange(s, v))
  {
    hide RangeOver, IndexCovers, Passes, PassesAll, ColumnValue, IsEntryOf, IndexedValue, ValuePasses, Linked, BelowUpper, SeekHits,
      HitsValue, Occurs, Visit, SideCmps, TablePos, WayClear, ClearBelow;
    RangeParts(s, side, t, x);
    e := EntryAt(s, side, t, x, j);
    EntryValue(s, side, t, x, e);
    VisitsPerCopy(s, side, t, x, t[j], e);
    PassesConsumed(s, side, t, x, t[j]);
    if s.access.upper.Some? {
      ClearIff(s, side, t, x, e, IndexedValue(s, t[j]));
    } else {
      AlwaysClear(s, side, t, x, e);
    }
  }

  lemma AlwaysClear(s: Source, side: nat, t: seq<Entry>, x: seq<Entry>, e: nat)
    requires s.access.RangeSeek? && ValidAccess(s, side, t, x) && e < |x| && s.access.upper.None?
    ensures WayClear(s, side, t, x, e)
  {
  }

  // ---- the exact condition ---------------------------------------------------------------------------

  lemma OneBoundValue(s: Source, t: seq<Entry>, v: int)
    requires s.access.RangeSeek? && s.access.cmp.col.idx < |s.columns| && -0x8000_0000 <= v < 0x8000_0000
    requires s.access.cmp.lit.IntLit? && LiteralInRange(s.access.cmp.lit) && s.access.upper.None?
    requires s.access.cmp.op in {Op_Le, Op_Lt, Op_Ge, Op_Gt}
    ensures (VisitsValue(s, t, v) <==> InRange(s, v)) <==> SameSign(v, s.access.cmp.lit.i)
  {
  }

  // A value of the literal's sign is treated right.
  lemma SameSignRight(s: Source, t: seq<Entry>, v: int)
    requires s.access.RangeSeek? && s.access.cmp.col.idx < |s.columns| && -0x8000_0000 <= v < 0x8000_0000
    requires s.access.cmp.lit.IntLit? && LiteralInRange(s.access.cmp.lit)
    requires s.access.upper.Some? && s.access.upper.value.lit.IntLit?
    requires IsLower(s.access.cmp.op) && IsUpper(s.access.upper.value.op) && Occurs(s, t, v)
    requires SameSign(v, s.access.cmp.lit.i)
    ensures VisitsValue(s, t, v) <==> InRange(s, v)
  {
    hide IndexedValue, Occurs;
    var u := s.access.upper.value;
    if InRange(s, v) {
      forall w | Occurs(s, t, w) && -0x8000_0000 <= w < 0x8000_0000 && Wrap(w) <= Wrap(v) && HitsValue(s, w)
        ensures ValuePasses(u, w)
      {
        assert w <= v;
      }
    }
  }

  // The walk is stopped before it reaches the negative values.
  ghost predicate StopsBefore(s: Source, t: seq<Entry>)
    requires s.access.RangeSeek? && s.access.cmp.col.idx < |s.columns|
    requires s.access.cmp.lit.IntLit? && s.access.upper.Some? && s.access.upper.value.lit.IntLit?
  {
    0 <= s.access.cmp.lit.i &&
    exists w :: Occurs(s, t, w) && 0 <= w && ValuePasses(s.access.cmp, w) && !ValuePasses(s.access.upper.value, w)
  }

  // A value of the other sign is visited or in the range, never both, so it must be neither.
  lemma OtherSignRight(s: Source, t: seq<Entry>, v: int)
    requires s.access.RangeSeek? && s.access.cmp.col.idx < |s.columns| && -0x8000_0000 <= v < 0x8000_0000
    requires s.access.cmp.lit.IntLit? && LiteralInRange(s.access.cmp.lit)
    requires s.access.upper.Some? && s.access.upper.value.lit.IntLit?
    requires IsLower(s.access.cmp.op) && IsUpper(s.access.upper.value.op) && Occurs(s, t, v)
    requires !SameSign(v, s.access.cmp.lit.i)
    requires forall w :: Occurs(s, t, w) ==> -0x8000_0000 <= w < 0x8000_0000
    ensures (VisitsValue(s, t, v) <==> InRange(s, v)) <==>
      !ValuePasses(s.access.upper.value, v) || StopsBefore(s, t)
  {
    hide IndexedValue, Occurs;
    var u := s.access.upper.value;
    if StopsBefore(s, t) {
      var w :| Occurs(s, t, w) && 0 <= w && ValuePasses(s.access.cmp, w) && !ValuePasses(u, w);
      assert HitsValue(s, w);
    } else if ValuePasses(u, v) && 0 <= s.access.cmp.lit.i {
      forall w | Occurs(s, t, w) && Wrap(w) <= Wrap(v) && HitsValue(s, w) ensures ValuePasses(u, w) {
        assert w < 0 ==> w <= v;
      }
    }
  }

  lemma OccursInRange(s: Source, side: nat, t: seq<Entry>, x: seq<Entry>)
    requires RangeOver(s, side, t, x)
    ensures s.access.cmp.col.idx < |s.columns|
    ensures forall v :: Occurs(s, t, v) ==> -0x8000_0000 <= v < 0x8000_0000
  {
    hide RangeOver, IndexedValue, Linked;
    RangeParts(s, side, t, x);
    forall v | Occurs(s, t, v) ensures -0x8000_0000 <= v < 0x8000_0000 {
      var e := ValueEntry(s, side, t, x, v);
      EntryValue(s, side, t, x, e);
    }
  }

  // One row is treated right by its value.
  lemma RowRight(s: Source, side: nat, t: seq<Entry>, x: seq<Entry>, v: int)
    requires RangeOver(s, side, t, x) && s.access.cmp.col.idx < |s.columns| && Occurs(s, t, v)
    ensures s.access.cmp.lit.IntLit? && -0x8000_0000 <= v < 0x8000_0000
    ensures s.access.upper.Some? ==> s.access.upper.value.lit.IntLit?
    ensures (VisitsValue(s, t, v) <==> InRange(s, v)) <==> RowIsRight(s, t, v)
  {
    hide RangeOver, IndexedValue, Occurs, VisitsValue, InRange, StopsBefore, ValuePasses;
    RangeParts(s, side, t, x);
    OccursInRange(s, side, t, x);
    if s.access.upper.None? {
      OneBoundValue(s, t, v);
    } else if SameSign(v, s.access.cmp.lit.i) {
      SameSignRight(s, t, v);
    } else {
      OtherSignRight(s, t, v);
    }
  }

  ghost predicate RowIsRight(s: Source, t: seq<Entry>, v: int)
    requires s.access.RangeSeek? && s.access.cmp.col.idx < |s.columns|
    requires s.access.cmp.lit.IntLit? && (s.access.upper.Some? ==> s.access.upper.value.lit.IntLit?)
  {
    SameSign(v, s.access.cmp.lit.i)
    || (s.access.upper.Some? && (!ValuePasses(s.access.upper.value, v) || StopsBefore(s, t)))
  }

  lemma RightIsAllRows(s: Source, t: seq<Entry>)
    requires s.access.RangeSeek? && s.access.cmp.col.idx < |s.columns|
    requires s.access.cmp.lit.IntLit? && (s.access.upper.Some? ==> s.access.upper.value.lit.IntLit?)
    ensures RangeIsRight(s, t) <==> forall j: nat :: j < |t| ==> RowIsRight(s, t, IndexedValue(s, t[j]))
  {
    hide IndexedValue, ValuePasses;
    forall j: nat | j < |t| ensures Occurs(s, t, IndexedValue(s, t[j])) {
    }
  }

  // ---- the exact condition for a range path ------------------------------------------------------------

  lemma {:induction false} PassingCount(columns: seq<Column>, side: nat, cmps: seq<ResolvedCmp>, es: seq<Entry>, e: Entry)
    requires SideCmps(columns, side, cmps)
    ensures multiset(Passing(columns, side, cmps, es))[e] == if PassesAll(columns, side, e, cmps) then multiset(es)[e] else 0
  {
    hide PassesAll, SideCmps;
    if es != [] {
      PassingCount(columns, side, cmps, es[1..], e);
      assert es == [es[0]] + es[1..];
    }
  }

  // Some row of the range has an entry that the snapshot repeats.
  ghost predicate RepeatedInRange(s: Source, side: nat, t: seq<Entry>, x: seq<Entry>)
    requires s.access.RangeSeek? && SideCmps(s.columns, side, Consumed(s)) && s.access.cmp.col.idx < |s.columns|
  {
    exists row, a :: CopiedRow(s, side, t, x, row, a)
  }

  ghost predicate CopiedRow(s: Source, side: nat, t: seq<Entry>, x: seq<Entry>, row: Entry, a: Entry)
    requires s.access.RangeSeek? && SideCmps(s.columns, side, Consumed(s)) && s.access.cmp.col.idx < |s.columns|
  {
    && row in t && IsEntryOf(s.columns, s.access.cmp.col.idx, a, row) && 1 < multiset(x)[a]
    && PassesAll(s.columns, side, row, Consumed(s))
  }

  // How often a row is visited, and how often it should be.
  lemma RowCounts(s: Source, side: nat, t: seq<Entry>, x: seq<Entry>, j: nat) returns (e: nat)
    requires RangeOver(s, side, t, x) && j < |t|
    ensures s.access.cmp.col.idx < |s.columns| && s.access.cmp.lit.IntLit? && ValidAccess(s, side, t, x)
    ensures s.access.upper.Some? ==> s.access.upper.value.lit.IntLit?
    ensures SideCmps(s.columns, side, Consumed(s)) && Occurs(s, t, IndexedValue(s, t[j]))
    ensures e < |x| && IsEntryOf(s.columns, s.access.cmp.col.idx, x[e], t[j])
    ensures var visited, wanted := multiset(Pick(t, Visit(s, side, t, x)))[t[j]], multiset(Passing(s.columns, side, Consumed(s), t))[t[j]];
      && wanted == (if PassesAll(s.columns, side, t[j], Consumed(s)) then 1 else 0)
      && ((0 < visited <==> 0 < wanted) <==> RowIsRight(s, t, IndexedValue(s, t[j])))
      && (0 < visited ==> visited == multiset(x)[x[e]])
  {
    hide RangeOver, IsEntryOf, PassesAll, Passing, Visit, VisitsValue, InRange, Occurs, IndexedValue, RowIsRight, Linked;
    RangeParts(s, side, t, x);
    e := VisitedValue(s, side, t, x, j);
    RowRight(s, side, t, x, IndexedValue(s, t[j]));
    PassingCount(s.columns, side, Consumed(s), t, t[j]);
    AscendingOnce(t, t[j]);
  }

  lemma PickedIsRow(t: seq<Entry>, v: seq<nat>, e: Entry)
    requires e !in t && forall k :: 0 <= k < |v| ==> v[k] < |t|
    ensures multiset(Pick(t, v))[e] == 0
  {
    forall k | 0 <= k < |v| ensures Pick(t, v)[k] != e {
      assert t[v[k]] in t;
    }
  }

  lemma NotCopied(s: Source, side: nat, t: seq<Entry>, x: seq<Entry>, row: Entry, a: Entry)
    requires s.access.RangeSeek? && SideCmps(s.columns, side, Consumed(s)) && s.access.cmp.col.idx < |s.columns|
    requires !RepeatedInRange(s, side, t, x) && row in t && IsEntryOf(s.columns, s.access.cmp.col.idx, a, row)
    ensures PassesAll(s.columns, side, row, Consumed(s)) ==> multiset(x)[a] <= 1
  {
    hide PassesAll, IsEntryOf, SideCmps;
    assert !CopiedRow(s, side, t, x, row, a);
  }

  // The condition suffices.
  lemma RightReads(s: Source, side: nat, t: seq<Entry>, x: seq<Entry>)
    requires RangeOver(s, side, t, x)
    ensures s.access.cmp.col.idx < |s.columns| && s.access.cmp.lit.IntLit? && ValidAccess(s, side, t, x)
    ensures s.access.upper.Some? ==> s.access.upper.value.lit.IntLit?
    ensures SideCmps(s.columns, side, Consumed(s))
    ensures RangeIsRight(s, t) && !RepeatedInRange(s, side, t, x) ==>
      multiset(Pick(t, Visit(s, side, t, x))) == multiset(Passing(s.columns, side, Consumed(s), t))
  {
    hide RangeOver, IsEntryOf, PassesAll, Passing, Visit, Occurs, IndexedValue, RowIsRight, Linked, RangeIsRight, SideCmps;
    RangeParts(s, side, t, x);
    RightIsAllRows(s, t);
    if RangeIsRight(s, t) && !RepeatedInRange(s, side, t, x) {
      forall row ensures multiset(Pick(t, Visit(s, side, t, x)))[row] == multiset(Passing(s.columns, side, Consumed(s), t))[row] {
        if row in t {
          var j :| 0 <= j < |t| && t[j] == row;
          var e := RowCounts(s, side, t, x, j);
          NotCopied(s, side, t, x, row, x[e]);
          assert RowIsRight(s, t, IndexedValue(s, t[j]));
          assert x[e] in x;
        } else {
          PickedIsRow(t, Visit(s, side, t, x), row);
          PassingCount(s.columns, side, Consumed(s), t, row);
        }
      }
    }
  }

  // It is needed.
  lemma ReadsRight(s: Source, side: nat, t: seq<Entry>, x: seq<Entry>)
    requires RangeOver(s, side, t, x)
    ensures s.access.cmp.col.idx < |s.columns| && s.access.cmp.lit.IntLit? && ValidAccess(s, side, t, x)
    ensures s.access.upper.Some? ==> s.access.upper.value.lit.IntLit?
    ensures SideCmps(s.columns, side, Consumed(s))
    ensures multiset(Pick(t, Visit(s, side, t, x))) == multiset(Passing(s.columns, side, Consumed(s), t)) ==>
      RangeIsRight(s, t) && !RepeatedInRange(s, side, t, x)
  {
    hide RangeOver, PassesAll, Passing, Visit, Occurs, IndexedValue, RowIsRight, Linked, RangeIsRight, SideCmps, ColumnValue;
    RangeParts(s, side, t, x);
    RightIsAllRows(s, t);
    if multiset(Pick(t, Visit(s, side, t, x))) == multiset(Passing(s.columns, side, Consumed(s), t)) {
      forall j: nat | j < |t| ensures RowIsRight(s, t, IndexedValue(s, t[j])) {
        var e := RowCounts(s, side, t, x, j);
      }
      forall row, a ensures !CopiedRow(s, side, t, x, row, a) {
        if CopiedRow(s, side, t, x, row, a) {
          var j :| 0 <= j < |t| && t[j] == row;
          var e := RowCounts(s, side, t, x, j);
        }
      }
    }
  }

  // The main result about range paths, for values of both signs and for indexes that repeat
  // entries: a range path reads what a scan with the same conjuncts keeps, as a bag, if and only
  // if the signs are right and no row of the range has an entry that the snapshot repeats.
  lemma RangeBagExactly(s: Source, side: nat, t: seq<Entry>, x: seq<Entry>)
    requires RangeOver(s, side, t, x)
    ensures s.access.cmp.col.idx < |s.columns| && s.access.cmp.lit.IntLit? && ValidAccess(s, side, t, x)
    ensures s.access.upper.Some? ==> s.access.upper.value.lit.IntLit?
    ensures SideCmps(s.columns, side, Consumed(s))
    ensures multiset(Pick(t, Visit(s, side, t, x))) == multiset(Passing(s.columns, side, Consumed(s), t))
      <==> RangeIsRight(s, t) && !RepeatedInRange(s, side, t, x)
  {
    hide RangeOver, Passing, Visit, RangeIsRight, RepeatedInRange, Linked, SideCmps;
    RightReads(s, side, t, x);
    ReadsRight(s, side, t, x);
  }

  // A table with one row, 5, an index on its key, and the conjunct `id > -1`.
  const MISSED_ROW := Entry(5, [], 0)

  const MISSING_PATH := Source(2, [Column("id", TypeInt, true)],
                               RangeSeek(3, ResolvedCmp(RCol(0, 0), Op_Le, IntLit(-1)), None), [])

  // The row satisfies the conjunct but the seek, for the key 0xFFFFFFFF, finds nothing.
  lemma NegativeLiteralMisses()
    ensures RangeOver(MISSING_PATH, 0, [MISSED_ROW], [Entry(5, [], 5)])
    ensures PassesAll(MISSING_PATH.columns, 0, MISSED_ROW, Consumed(MISSING_PATH))
    ensures Visit(MISSING_PATH, 0, [MISSED_ROW], [Entry(5, [], 5)]) == []
  {
    var s, t, x := MISSING_PATH, [MISSED_ROW], [Entry(5, [], 5)];
    assert IsEntryOf(s.columns, 0, x[0], t[0]);
    CoversLinked(s.columns, 0, t, x);
  }
}
