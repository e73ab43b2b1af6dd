// The paths a table is read through: what they ask of the index they read, and exactly when the
// rows they visit are the rows that satisfy the conjuncts they are made from.
module AccessPaths {
  import opened Common
  import opened Sql
  import opened Values
  import opened Trees
  import opened TreeSnapshot
  import opened Machine
  import opened Planner
  import opened JoinRows
  import opened IndexVisits
  import opened IndexRepeats
  import opened IndexSigns

  // The index a path reads, if it reads one, has the pairs of the rows.
  ghost predicate PathCovers(s: Source, side: nat, t: seq<Entry>, x: seq<Entry>) {
    match s.access
    case Scan => true
    case EqSeek(_, cmp) => IndexCovers(s.columns, cmp.col.idx, t, x)
    case RangeSeek(_, _, _) => RangeOver(s, side, t, x)
  }

  // Nothing can go wrong with a scan or an equality seek. A range must not be led astray by
  // signs, nor meet an entry twice.
  ghost predicate PathRight(s: Source, side: nat, t: seq<Entry>, x: seq<Entry>) {
    s.access.RangeSeek? ==>
      && s.access.cmp.col.idx < |s.columns| && s.access.cmp.lit.IntLit? && SideCmps(s.columns, side, Consumed(s))
      && (s.access.upper.Some? ==> s.access.upper.value.lit.IntLit?)
      && RangeIsRight(s, t) && !RepeatedInRange(s, side, t, x)
  }

  // The main result about access paths: the rows visited, row checks applied, are a permutation
  // of the table's rows that satisfy all conjuncts of the side if and only if the path is right.
  lemma VisitsExactly(s: Source, side: nat, t: seq<Entry>, x: seq<Entry>)
    requires ValidAccess(s, side, t, x) && PathCovers(s, side, t, x) && Ascending(t)
    requires !s.access.Scan? ==> s.filter == []
    requires SideCmps(s.columns, side, s.filter) && SideCmps(s.columns, side, Consumed(s))
    ensures PathRight(s, side, t, x) <==>
      multiset(Passing(s.columns, side, s.filter, Pick(t, Visit(s, side, t, x)))) == multiset(Passing(s.columns, side, Consumed(s), t))
    ensures s.access.Scan? ==> Pick(t, Visit(s, side, t, x)) == t
  {
    hide Visit, RangeOver, IndexCovers, RangeIsRight, RepeatedInRange, ValidAccess, PassesAll;
    if s.access.Scan? {
      ScanVisits(s, side, t, x);
    } else {
      PassNothing(s.columns, side, Pick(t, Visit(s, side, t, x)));
      if s.access.EqSeek? {
        EqVisitsPassing(s, side, t, x);
      } else {
        RangeBagExactly(s, side, t, x);
      }
    }
  }

  // ---- how often each row is read -----------------------------------------------------------------

  lemma RowValue(s: Source, side: nat, t: seq<Entry>, x: seq<Entry>, row: Entry)
    requires RangeOver(s, side, t, x) && row in t
    ensures s.access.RangeSeek? && s.access.cmp.col.idx < |s.columns| && s.access.cmp.lit.IntLit?
    ensures s.access.upper.Some? ==> s.access.upper.value.lit.IntLit?
    ensures -0x8000_0000 <= IndexedValue(s, row) < 0x8000_0000
  {
    hide RangeOver, IndexedValue, Linked, SideCmps, Occurs;
    RangeParts(s, side, t, x);
    OccursInRange(s, side, t, x);
    var j :| 0 <= j < |t| && t[j] == row;
    assert Occurs(s, t, IndexedValue(s, row)) by { RowOccurs(s, t, j); }
  }

  lemma RowOccurs(s: Source, t: seq<Entry>, j: nat)
    requires s.access.RangeSeek? && s.access.cmp.col.idx < |s.columns| && j < |t|
    ensures Occurs(s, t, IndexedValue(s, t[j]))
  {
    hide IndexedValue;
  }

  // A range reads a row once for each copy of its entry, if it gets to its value.
  ghost function TimesInRange(s: Source, side: nat, t: seq<Entry>, x: seq<Entry>, row: Entry): nat
    requires RangeOver(s, side, t, x) && row in t
  {
    RowValue(s, side, t, x, row);
    var v := IndexedValue(s, row);
    if VisitsValue(s, t, v) then multiset(x)[Entry(Wrap(v), [], row.key)] else 0
  }

  ghost function TimesRead(s: Source, side: nat, t: seq<Entry>, x: seq<Entry>, row: Entry): nat
    requires PathCovers(s, side, t, x) && SideCmps(s.columns, side, Consumed(s))
  {
    if row !in t then 0
    else if s.access.RangeSeek? then TimesInRange(s, side, t, x, row)
    else if PassesAll(s.columns, side, row, Consumed(s)) then 1
    else 0
  }

  lemma RangeReads(s: Source, side: nat, t: seq<Entry>, x: seq<Entry>, row: Entry)
    requires RangeOver(s, side, t, x) && row in t && ValidAccess(s, side, t, x)
    ensures multiset(Pick(t, Visit(s, side, t, x)))[row] == TimesInRange(s, side, t, x, row)
  {
    hide RangeOver, VisitsValue, Visit, Linked, PassesAll, SideCmps, InRange, Occurs, ColumnValue, ValidAccess;
    RowValue(s, side, t, x, row);
    var j :| 0 <= j < |t| && t[j] == row;
    var e := VisitedValue(s, side, t, x, j);
    assert x[e] == Entry(Wrap(IndexedValue(s, row)), [], row.key);
  }

  lemma FilteredAreRows(columns: seq<Column>, side: nat, filter: seq<ResolvedCmp>, t: seq<Entry>, v: seq<nat>, row: Entry)
    requires SideCmps(columns, side, filter) && (forall k :: 0 <= k < |v| ==> v[k] < |t|) && row !in t
    ensures multiset(Passing(columns, side, filter, Pick(t, v)))[row] == 0
  {
    hide PassesAll;
    assert row !in Pick(t, v);
    assert row !in Passing(columns, side, filter, Pick(t, v));
  }

  // Row checks applied.
  lemma ReadCount(s: Source, side: nat, t: seq<Entry>, x: seq<Entry>, row: Entry)
    requires ValidAccess(s, side, t, x) && PathCovers(s, side, t, x) && Ascending(t)
    requires !s.access.Scan? ==> s.filter == []
    requires SideCmps(s.columns, side, s.filter) && SideCmps(s.columns, side, Consumed(s))
    ensures multiset(Passing(s.columns, side, s.filter, Pick(t, Visit(s, side, t, x))))[row] == TimesRead(s, side, t, x, row)
  {
    hide Visit, RangeOver, IndexCovers, ValidAccess, PassesAll, TimesInRange, SideCmps;
    if row !in t {
      FilteredAreRows(s.columns, side, s.filter, t, Visit(s, side, t, x), row);
    } else if s.access.RangeSeek? {
      PassNothing(s.columns, side, Pick(t, Visit(s, side, t, x)));
      RangeReads(s, side, t, x, row);
    } else {
      VisitsExactly(s, side, t, x);
      PassingCount(s.columns, side, Consumed(s), t, row);
      AscendingOnce(t, row);
    }
  }

  // How often it should be.
  lemma WantedCount(s: Source, side: nat, t: seq<Entry>, row: Entry)
    requires SideCmps(s.columns, side, Consumed(s)) && Ascending(t)
    ensures multiset(Passing(s.columns, side, Consumed(s), t))[row]
         == if row in t && PassesAll(s.columns, side, row, Consumed(s)) then 1 else 0
  {
    hide PassesAll, SideCmps, Ascending;
    PassingCount(s.columns, side, Consumed(s), t, row);
    if row in t {
      AscendingOnce(t, row);
    }
  }
}
