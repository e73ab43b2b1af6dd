// A range walk over an index: a stretch of its snapshot, and how often it visits each row. The
// snapshot of an index that has split repeats entries, and a row is visited once for every copy.
module IndexRepeats {
  import opened Common
  import opened Sql
  import opened Values
  import opened Trees
  import opened TreeSnapshot
  import opened Machine
  import opened Planner
  import opened Layout
  import opened JoinRows
  import opened IndexVisits

  // A range path over an index that covers its table; nothing is said about signs.
  ghost predicate RangeOver(s: Source, side: nat, t: seq<Entry>, x: seq<Entry>) {
    && s.access.RangeSeek? && ValidAccess(s, side, t, x) && SideCmps(s.columns, side, Consumed(s))
    && IndexCovers(s.columns, s.access.cmp.col.idx, t, x)
    && (s.access.upper.Some? ==>
          && s.access.upper.value.col == s.access.cmp.col && s.access.upper.value.lit.IntLit?
          && IsLower(s.access.cmp.op) && IsUpper(s.access.upper.value.op))
  }

  lemma RangeParts(s: Source, side: nat, t: seq<Entry>, x: seq<Entry>)
    requires RangeOver(s, side, t, x)
    ensures s.access.RangeSeek? && ValidAccess(s, side, t, x) && Linked(t, x)
    ensures Ascending(t) && NonDescending(x) && OnePerKey(x)
    ensures s.access.cmp.col.idx < |s.columns| && s.access.cmp.lit.IntLit? && LiteralInRange(s.access.cmp.lit)
    ensures s.access.upper.Some? ==> s.access.upper.value.lit.IntLit? && s.access.upper.value.col == s.access.cmp.col
    ensures s.access.upper.Some? ==> IsLower(s.access.cmp.op) && IsUpper(s.access.upper.value.op)
    ensures s.access.cmp.op in {Op_Le, Op_Lt, Op_Ge, Op_Gt} && SideCmps(s.columns, side, Consumed(s))
  {
    hide IndexCovers, Linked;
    CoversParts(s.columns, s.access.cmp.col.idx, t, x);
  }

  // An index entry leads to the row it is the entry of.
  lemma LeadsToRow(s: Source, side: nat, t: seq<Entry>, x: seq<Entry>, k: nat)
    requires RangeOver(s, side, t, x) && k < |x|
    ensures ValidAccess(s, side, t, x) && Linked(t, x) && s.access.cmp.col.idx < |s.columns|
    ensures IsEntryOf(s.columns, s.access.cmp.col.idx, x[k], t[TablePos(s, t, x, k)])
  {
    hide IndexCovers, IsEntryOf, SideCmps;
    RowOfEntry(s.columns, s.access.cmp.col.idx, t, x, k);
  }

  // An entry and its row: where one is, the other is led to.
  lemma CopyIff(s: Source, side: nat, t: seq<Entry>, x: seq<Entry>, k: nat, row: Entry, a: Entry)
    requires RangeOver(s, side, t, x) && k < |x| && row in t
    requires s.access.cmp.col.idx < |s.columns| && IsEntryOf(s.columns, s.access.cmp.col.idx, a, row)
    ensures ValidAccess(s, side, t, x) && Linked(t, x) && (t[TablePos(s, t, x, k)] == row <==> x[k] == a)
  {
    hide ColumnValue, RangeOver, Linked, TablePos;
    RangeParts(s, side, t, x);
    LeadsToRow(s, side, t, x, k);
    var j :| 0 <= j < |t| && t[j] == row;
    var e := t[TablePos(s, t, x, k)];
    assert x[k] == a ==> e.key == row.key;
  }

  // ---- a walk as a stretch of the index -------------------------------------------------------------

  ghost function RowsLed(s: Source, t: seq<Entry>, x: seq<Entry>, lo: nat, hi: nat): (r: seq<Entry>)
    requires s.access.RangeSeek? && Linked(t, x) && lo <= hi <= |x|
    ensures |r| == hi - lo && forall k :: 0 <= k < hi - lo ==> r[k] == t[TablePos(s, t, x, lo + k)]
  {
    seq(hi - lo, k requires 0 <= k < hi - lo => t[TablePos(s, t, x, lo + k)])
  }

  lemma PickFirst(t: seq<Entry>, j: nat, rest: seq<nat>)
    requires j < |t| && forall k :: 0 <= k < |rest| ==> rest[k] < |t|
    ensures Pick(t, [j] + rest) == [t[j]] + Pick(t, rest) && Pick(t, [j]) == [t[j]]
  {
  }

  lemma LedEnds(s: Source, t: seq<Entry>, x: seq<Entry>, lo: nat, hi: nat)
    requires s.access.RangeSeek? && Linked(t, x) && lo < hi <= |x|
    ensures RowsLed(s, t, x, lo, hi) == [t[TablePos(s, t, x, lo)]] + RowsLed(s, t, x, lo + 1, hi)
    ensures RowsLed(s, t, x, lo, hi) == RowsLed(s, t, x, lo, hi - 1) + [t[TablePos(s, t, x, hi - 1)]]
    ensures RowsLed(s, t, x, lo, lo) == []
  {
    hide Linked, TablePos;
  }

  lemma LedNone(s: Source, t: seq<Entry>, x: seq<Entry>, lo: nat)
    requires s.access.RangeSeek? && Linked(t, x) && lo <= |x|
    ensures RowsLed(s, t, x, lo, lo) == []
  {
  }

  // Forward from d, up to the end or the first row beyond the upper bound.
  lemma {:induction false} WalkUp(s: Source, side: nat, t: seq<Entry>, x: seq<Entry>, d: nat) returns (m: nat)
    requires s.access.RangeSeek? && ValidAccess(s, side, t, x) && AdvanceOf(s.access) == Op_Next && d < |x|
    ensures d <= m <= |x| && Linked(t, x) && Pick(t, Walk(s, side, t, x, d)) == RowsLed(s, t, x, d, m)
    ensures forall c: nat :: d <= c < m ==> BelowUpper(s, side, t, x, c)
    ensures m < |x| ==> !BelowUpper(s, side, t, x, m)
    decreases |x| - d
  {
    hide Passes, Linked, TablePos, Pick, RowsLed;
    if StopsAt(s, side, t, x, TablePos(s, t, x, d)) {
      m := d;
      LedNone(s, t, x, d);
    } else if d + 1 < |x| {
      m := WalkUp(s, side, t, x, d + 1);
      var j, rest := TablePos(s, t, x, d), Walk(s, side, t, x, d + 1);
      PickFirst(t, j, rest);
      LedEnds(s, t, x, d, m);
    } else {
      m := |x|;
      PickFirst(t, TablePos(s, t, x, d), []);
      LedEnds(s, t, x, d, m);
      LedNone(s, t, x, m);
    }
  }

  // One step back; there is no upper bound.
  lemma StepDown(s: Source, side: nat, t: seq<Entry>, x: seq<Entry>, d: nat)
    requires s.access.RangeSeek? && ValidAccess(s, side, t, x) && AdvanceOf(s.access) == Op_Prev && d < |x|
    ensures Linked(t, x) && BelowUpper(s, side, t, x, d)
    ensures Walk(s, side, t, x, d) == [TablePos(s, t, x, d)] + if d == 0 then [] else Walk(s, side, t, x, d - 1)
  {
    hide Passes, Linked, TablePos;
  }

  // Backward from d to the start.
  lemma {:induction false} WalkDown(s: Source, side: nat, t: seq<Entry>, x: seq<Entry>, d: nat)
    requires s.access.RangeSeek? && ValidAccess(s, side, t, x) && AdvanceOf(s.access) == Op_Prev && d < |x|
    ensures Linked(t, x) && multiset(Pick(t, Walk(s, side, t, x, d))) == multiset(RowsLed(s, t, x, 0, d + 1))
    decreases d
  {
    hide ValidAccess, Linked, TablePos, Pick, RowsLed, Walk, AdvanceOf, BelowUpper;
    StepDown(s, side, t, x, d);
    var j := TablePos(s, t, x, d);
    LedEnds(s, t, x, 0, d + 1);
    if d == 0 {
      PickFirst(t, j, []);
    } else {
      WalkDown(s, side, t, x, d - 1);
      var rest := Walk(s, side, t, x, d - 1);
      PickFirst(t, j, rest);
      SameBag(t[j], Pick(t, rest), RowsLed(s, t, x, 0, d));
    }
  }

  lemma SameBag(e: Entry, a: seq<Entry>, b: seq<Entry>)
    requires multiset(a) == multiset(b)
    ensures multiset([e] + a) == multiset(b + [e])
  {
  }

  // A row is led to as often as its entry is there.
  lemma {:induction false} LedAsOften(s: Source, side: nat, t: seq<Entry>, x: seq<Entry>, lo: nat, hi: nat, row: Entry, a: Entry)
    requires RangeOver(s, side, t, x) && lo <= hi <= |x| && row in t && Linked(t, x) && s.access.RangeSeek?
    requires s.access.cmp.col.idx < |s.columns| && IsEntryOf(s.columns, s.access.cmp.col.idx, a, row)
    ensures multiset(RowsLed(s, t, x, lo, hi))[row] == multiset(x[lo..hi])[a]
    decreases hi
  {
    hide RangeOver, IsEntryOf, Linked, TablePos;
    if lo < hi {
      LedAsOften(s, side, t, x, lo, hi - 1, row, a);
      CopyIff(s, side, t, x, hi - 1, row, a);
      assert x[lo..hi] == x[lo..hi - 1] + [x[hi - 1]];
      assert RowsLed(s, t, x, lo, hi) == RowsLed(s, t, x, lo, hi - 1) + [t[TablePos(s, t, x, hi - 1)]];
    } else {
      assert x[lo..hi] == [];
    }
  }

  // ---- which stretch ------------------------------------------------------------------------------------

  ghost predicate SeekHits(s: Source, x: Entry)
    requires s.access.RangeSeek?
  {
    SeekMatches(SeekOf(s.access.cmp), x.key, SeekKey(s.access.cmp.lit))
  }

  // Every entry the walk passes on its way to e, and e itself, is below the upper bound.
  ghost predicate WayClear(s: Source, side: nat, t: seq<Entry>, x: seq<Entry>, e: nat)
    requires s.access.RangeSeek? && ValidAccess(s, side, t, x) && e < |x|
  {
    HasUpper(s.access) ==> forall c: nat :: c <= e && SeekHits(s, x[c]) ==> BelowUpper(s, side, t, x, c)
  }

  lemma HitIff(s: Source, side: nat, t: seq<Entry>, x: seq<Entry>, e: nat)
    requires s.access.RangeSeek? && ValidAccess(s, side, t, x) && NonDescending(x) && e < |x|
    ensures SeekHits(s, x[e]) <==> StartPosition(s, t, x).Some? && Ahead(s, |x|, StartPosition(s, t, x).value, e)
  {
    hide Linked;
    var code, key := SeekOf(s.access.cmp), SeekKey(s.access.cmp.lit);
    var r := SeekPosition(code, x, key);
    if r.Some? {
      assert r.value <= e ==> x[r.value].key <= x[e].key;
      assert e <= r.value ==> x[e].key <= x[r.value].key;
    }
  }

  lemma VisitIsWalk(s: Source, side: nat, t: seq<Entry>, x: seq<Entry>)
    requires s.access.RangeSeek? && ValidAccess(s, side, t, x)
    ensures match StartPosition(s, t, x)
            case None => Visit(s, side, t, x) == []
            case Some(d) => Visit(s, side, t, x) == Walk(s, side, t, x, d)
  {
    hide Linked, Walk, ValidAccess;
  }

  // The seek hits what is ahead of d.
  ghost predicate HitsAhead(s: Source, x: seq<Entry>, d: nat)
    requires s.access.RangeSeek?
  {
    forall k: nat :: k < |x| ==> (SeekHits(s, x[k]) <==> Ahead(s, |x|, d, k))
  }

  // From lo to hi are the entries that the seek hits and nothing stops the walk before.
  ghost predicate Stretch(s: Source, side: nat, t: seq<Entry>, x: seq<Entry>, lo: nat, hi: nat)
    requires s.access.RangeSeek? && ValidAccess(s, side, t, x)
  {
    forall k: nat :: k < |x| ==> (lo <= k < hi <==> SeekHits(s, x[k]) && WayClear(s, side, t, x, k))
  }

  lemma StretchDown(s: Source, side: nat, t: seq<Entry>, x: seq<Entry>, d: nat)
    requires s.access.RangeSeek? && ValidAccess(s, side, t, x) && AdvanceOf(s.access) == Op_Prev && d < |x| && HitsAhead(s, x, d)
    ensures Linked(t, x) && multiset(Pick(t, Walk(s, side, t, x, d))) == multiset(RowsLed(s, t, x, 0, d + 1))
    ensures Stretch(s, side, t, x, 0, d + 1)
  {
    hide ValidAccess, Linked, TablePos, Walk, BelowUpper, SeekHits, Pick, RowsLed;
    WalkDown(s, side, t, x, d);
    forall c: nat | c < |x| ensures BelowUpper(s, side, t, x, c) {
      StepDown(s, side, t, x, c);
    }
  }

  lemma StretchUp(s: Source, side: nat, t: seq<Entry>, x: seq<Entry>, d: nat) returns (hi: nat)
    requires s.access.RangeSeek? && ValidAccess(s, side, t, x) && AdvanceOf(s.access) == Op_Next && d < |x| && HitsAhead(s, x, d)
    ensures Linked(t, x) && d <= hi <= |x| && Pick(t, Walk(s, side, t, x, d)) == RowsLed(s, t, x, d, hi)
    ensures Stretch(s, side, t, x, d, hi)
  {
    hide ValidAccess, Linked, TablePos, Walk, BelowUpper, SeekHits, Pick, RowsLed;
    hi := WalkUp(s, side, t, x, d);
    if !HasUpper(s.access) && hi < |x| {
      NoUpper(s, side, t, x, hi);
    }
  }

  lemma StretchOf(s: Source, side: nat, t: seq<Entry>, x: seq<Entry>)
    requires s.access.RangeSeek? && ValidAccess(s, side, t, x) && NonDescending(x)
    ensures match StartPosition(s, t, x)
            case None => Stretch(s, side, t, x, 0, 0)
            case Some(d) => HitsAhead(s, x, d)
  {
    hide Linked, StartPosition, BelowUpper, TablePos, ValidAccess, SeekHits, WayClear, Ahead, NonDescending;
    forall k: nat | k < |x|
      ensures SeekHits(s, x[k]) <==> StartPosition(s, t, x).Some? && Ahead(s, |x|, StartPosition(s, t, x).value, k)
    {
      HitIff(s, side, t, x, k);
    }
  }

  // What a range path visits is a stretch of the index: the entries the seek hits, up to the
  // first whose row is beyond the upper bound.
  lemma VisitsStretch(s: Source, side: nat, t: seq<Entry>, x: seq<Entry>) returns (lo: nat, hi: nat)
    requires RangeOver(s, side, t, x)
    ensures s.access.RangeSeek? && ValidAccess(s, side, t, x) && Linked(t, x) && lo <= hi <= |x|
    ensures multiset(Pick(t, Visit(s, side, t, x))) == multiset(RowsLed(s, t, x, lo, hi)) && Stretch(s, side, t, x, lo, hi)
  {
    hide RangeOver, Linked, StartPosition, TablePos, Walk, ValidAccess, Visit, HitsAhead, Stretch, OnePerKey, NonDescending, RowsLed;
    RangeParts(s, side, t, x);
    VisitIsWalk(s, side, t, x);
    StretchOf(s, side, t, x);
    match StartPosition(s, t, x)
    case None =>
      lo, hi := 0, 0;
      LedNone(s, t, x, 0);
    case Some(d) =>
      if AdvanceOf(s.access) == Op_Prev {
        lo, hi := 0, d + 1;
        StretchDown(s, side, t, x, d);
      } else {
        lo := d;
        hi := StretchUp(s, side, t, x, d);
      }
  }

  lemma SliceCount(x: seq<Entry>, lo: nat, hi: nat, a: Entry, inside: bool)
    requires lo <= hi <= |x| && forall k :: 0 <= k < |x| && x[k] == a ==> (lo <= k < hi <==> inside)
    ensures multiset(x[lo..hi])[a] == if inside then multiset(x)[a] else 0
  {
    assert x == x[..lo] + x[lo..hi] + x[hi..];
    if inside {
      assert a !in x[..lo] && a !in x[hi..];
      assert multiset(x) == multiset(x[..lo]) + multiset(x[lo..hi]) + multiset(x[hi..]);
    } else {
      assert a !in x[lo..hi];
    }
  }

  // All copies of an entry are visited, or none.
  lemma CopiesTogether(s: Source, side: nat, t: seq<Entry>, x: seq<Entry>, e: nat, k: nat)
    requires RangeOver(s, side, t, x) && e < |x| && k < |x| && x[k] == x[e]
    ensures s.access.RangeSeek? && ValidAccess(s, side, t, x)
    ensures WayClear(s, side, t, x, e) ==> WayClear(s, side, t, x, k)
  {
    hide RangeOver, Linked, TablePos, ValidAccess, SeekHits, Passes;
    RangeParts(s, side, t, x);
    if WayClear(s, side, t, x, e) && HasUpper(s.access) {
      forall c: nat | c <= k && SeekHits(s, x[c]) ensures BelowUpper(s, side, t, x, c) {
        if e < c {
          assert x[c] == x[e];
          SameEntrySameRow(s, t, x, c, e);
        }
      }
    }
  }

  lemma SameEntrySameRow(s: Source, t: seq<Entry>, x: seq<Entry>, c: nat, e: nat)
    requires s.access.RangeSeek? && Linked(t, x) && c < |x| && e < |x| && x[c] == x[e]
    ensures TablePos(s, t, x, c) == TablePos(s, t, x, e)
  {
  }

  // A row is visited once for each copy of its entry, or not at all: when the seek hits the
  // entry and nothing stops the walk before it.
  lemma VisitsPerCopy(s: Source, side: nat, t: seq<Entry>, x: seq<Entry>, row: Entry, e: nat)
    requires RangeOver(s, side, t, x) && row in t && e < |x| && s.access.cmp.col.idx < |s.columns|
    requires IsEntryOf(s.columns, s.access.cmp.col.idx, x[e], row)
    ensures s.access.RangeSeek? && ValidAccess(s, side, t, x) && 0 < multiset(x)[x[e]]
    ensures multiset(Pick(t, Visit(s, side, t, x)))[row]
         == if SeekHits(s, x[e]) && WayClear(s, side, t, x, e) then multiset(x)[x[e]] else 0
  {
    hide RangeOver, Linked, ValidAccess, Visit, SeekHits, WayClear, IsEntryOf;
    RangeParts(s, side, t, x);
    assert x[e] in x;
    var lo, hi := VisitsStretch(s, side, t, x);
    LedAsOften(s, side, t, x, lo, hi, row, x[e]);
    var inside := SeekHits(s, x[e]) && WayClear(s, side, t, x, e);
    forall k: nat | k < |x| && x[k] == x[e] ensures lo <= k < hi <==> inside {
      CopiesTogether(s, side, t, x, e, k);
      CopiesTogether(s, side, t, x, k, e);
    }
    SliceCount(x, lo, hi, x[e], inside);
  }
}
