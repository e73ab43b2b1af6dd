// An index and its table as sets: the entries of the index are exactly the (column value,
// primary key) pairs of the rows. What inserting into one or both does to this.
module IndexKeeping {
  import opened Common
  import opened Sql
  import opened Values
  import opened Trees
  import opened TreeContents
  import opened TreeSnapshot
  import opened Machine
  import opened IndexVisits

  ghost predicate IndexHolds(columns: seq<Column>, i: nat, t: seq<Entry>, x: seq<Entry>)
    requires i < |columns|
  {
    (forall e :: e in t ==> HasEntry(columns, i, x, e)) && (forall a :: a in x ==> HasRow(columns, i, t, a))
  }

  lemma InsertedMembers(s: seq<Entry>, e: Entry)
    ensures forall x :: x in InsertSorted(s, e) <==> x in s || x == e
  {
    var p := LeafPos(s, e.key);
    assert s == s[..p] + s[p..];
  }

  ghost predicate Members(a: seq<Entry>, b: seq<Entry>) {
    forall x :: x in a ==> x in b
  }

  lemma MoreEntries(columns: seq<Column>, i: nat, x: seq<Entry>, x': seq<Entry>, e: Entry)
    requires i < |columns| && HasEntry(columns, i, x, e) && Members(x, x')
    ensures HasEntry(columns, i, x', e)
  {
    hide IsEntryOf;
    var d :| 0 <= d < |x| && IsEntryOf(columns, i, x[d], e);
    assert x[d] in x;
    var d' :| 0 <= d' < |x'| && x'[d'] == x[d];
  }

  lemma MoreRows(columns: seq<Column>, i: nat, t: seq<Entry>, t': seq<Entry>, a: Entry)
    requires i < |columns| && HasRow(columns, i, t, a) && Members(t, t')
    ensures HasRow(columns, i, t', a)
  {
    hide IsEntryOf;
    var j :| 0 <= j < |t| && IsEntryOf(columns, i, a, t[j]);
    assert t[j] in t;
    var j' :| 0 <= j' < |t'| && t'[j'] == t[j];
  }

  lemma ThisEntry(columns: seq<Column>, i: nat, t: seq<Entry>, x: seq<Entry>, e: Entry, a: Entry)
    requires i < |columns| && e in t && a in x && IsEntryOf(columns, i, a, e)
    ensures HasEntry(columns, i, x, e) && HasRow(columns, i, t, a)
  {
    hide IsEntryOf;
    var d :| 0 <= d < |x| && x[d] == a;
    var j :| 0 <= j < |t| && t[j] == e;
  }

  // One more row and its entry.
  lemma HoldsWith(columns: seq<Column>, i: nat, t: seq<Entry>, x: seq<Entry>, t': seq<Entry>, x': seq<Entry>, e: Entry, a: Entry)
    requires i < |columns| && IndexHolds(columns, i, t, x) && IsEntryOf(columns, i, a, e)
    requires forall f :: f in t' <==> f in t || f == e
    requires forall b :: b in x' <==> b in x || b == a
    ensures IndexHolds(columns, i, t', x')
  {
    hide IsEntryOf, HasEntry, HasRow;
    assert Members(t, t') && Members(x, x');
    ThisEntry(columns, i, t', x', e, a);
    forall f | f in t' ensures HasEntry(columns, i, x', f) {
      if f != e { MoreEntries(columns, i, x, x', f); }
    }
    forall b | b in x' ensures HasRow(columns, i, t', b) {
      if b != a { MoreRows(columns, i, t, t', b); }
    }
  }

  // A row and its entry, inserted both, keep the index right.
  lemma HoldsAfterBoth(columns: seq<Column>, i: nat, t: seq<Entry>, x: seq<Entry>, e: Entry, a: Entry)
    requires i < |columns| && IndexHolds(columns, i, t, x) && IsEntryOf(columns, i, a, e)
    ensures IndexHolds(columns, i, InsertSorted(t, e), InsertSorted(x, a))
  {
    hide IsEntryOf, InsertSorted, IndexHolds;
    InsertedMembers(t, e);
    InsertedMembers(x, a);
    HoldsWith(columns, i, t, x, InsertSorted(t, e), InsertSorted(x, a), e, a);
  }

  // Indexing rows one after the other.
  lemma HoldsOneMore(columns: seq<Column>, i: nat, t: seq<Entry>, k: nat, x: seq<Entry>, a: Entry)
    requires i < |columns| && k < |t| && IndexHolds(columns, i, t[..k], x) && IsEntryOf(columns, i, a, t[k])
    ensures IndexHolds(columns, i, t[..k + 1], InsertSorted(x, a))
  {
    hide IsEntryOf, InsertSorted, IndexHolds;
    InsertedMembers(x, a);
    assert t[..k + 1] == t[..k] + [t[k]];
    HoldsWith(columns, i, t[..k], x, t[..k + 1], InsertSorted(x, a), t[k], a);
  }

  // A new row without its entry breaks the index: no entry has the new primary key.
  lemma BrokenWithoutEntry(columns: seq<Column>, i: nat, t: seq<Entry>, x: seq<Entry>, e: Entry)
    requires i < |columns| && IndexHolds(columns, i, t, x) && !HasKey(t, e.key)
    ensures !IndexHolds(columns, i, InsertSorted(t, e), x)
  {
    hide ColumnValue, InsertSorted;
    InsertedMembers(t, e);
    forall d | 0 <= d < |x| ensures !IsEntryOf(columns, i, x[d], e) {
      assert x[d] in x;
      var j :| 0 <= j < |t| && IsEntryOf(columns, i, x[d], t[j]);
    }
    assert e in InsertSorted(t, e) && !HasEntry(columns, i, x, e);
  }

  // So does a new row with an entry that is not its own.
  lemma BrokenByEntry(columns: seq<Column>, i: nat, t: seq<Entry>, x: seq<Entry>, e: Entry, a: Entry)
    requires i < |columns| && !HasKey(t, e.key) && a.pk == e.key && !IsEntryOf(columns, i, a, e)
    ensures !IndexHolds(columns, i, InsertSorted(t, e), InsertSorted(x, a))
  {
    hide ColumnValue, InsertSorted;
    InsertedMembers(t, e);
    InsertedMembers(x, a);
    var t' := InsertSorted(t, e);
    forall j | 0 <= j < |t'| ensures !IsEntryOf(columns, i, a, t'[j]) {
      assert t'[j] in t';
    }
    assert a in InsertSorted(x, a) && !HasRow(columns, i, t', a);
  }

  // What SELECT asks of an index, that the snapshot of its cursor covers the table, is that the
  // index holds as a set.
  lemma HoldsIsCover(columns: seq<Column>, i: nat, t: seq<Entry>, x: seq<Entry>, snapshot: seq<Entry>)
    requires i < |columns| && Ascending(t) && (forall k :: 0 <= k < |t| ==> t[k].key < 0x8000_0000)
    requires Ascending(x) && NonDescending(snapshot) && forall a :: a in snapshot <==> a in x
    ensures IndexCovers(columns, i, t, snapshot) <==> IndexHolds(columns, i, t, x)
  {
    hide IsEntryOf, HasEntry, HasRow;
    assert Members(x, snapshot) && Members(snapshot, x);
    KeysOnce(x, snapshot);
    if IndexHolds(columns, i, t, x) {
      forall j | 0 <= j < |t| ensures HasEntry(columns, i, snapshot, t[j]) {
        MoreEntries(columns, i, x, snapshot, t[j]);
      }
    }
    if IndexCovers(columns, i, t, snapshot) {
      forall e | e in t ensures HasEntry(columns, i, x, e) {
        MoreEntries(columns, i, snapshot, x, e);
      }
    }
  }

  lemma KeysOnce(x: seq<Entry>, snapshot: seq<Entry>)
    requires Ascending(x) && Members(snapshot, x)
    ensures OnePerKey(snapshot)
  {
    forall d, e | 0 <= d < |snapshot| && 0 <= e < |snapshot| && snapshot[d].key == snapshot[e].key ensures snapshot[d] == snapshot[e] {
      assert snapshot[d] in x && snapshot[e] in x;
    }
  }

  // For an index tree, whether it has split or not.
  lemma HoldsForSelect(columns: seq<Column>, i: nat, t: seq<Entry>, x: Tree, h: nat)
    requires i < |columns| && Ascending(t) && (forall k :: 0 <= k < |t| ==> t[k].key < 0x8000_0000)
    requires Wf(x, h) && Ascending(Entries(x)) && IndexEntries(Entries(x))
    ensures IndexCovers(columns, i, t, Collect(true, x)) <==> IndexHolds(columns, i, t, Entries(x))
  {
    hide IndexCovers, IndexHolds;
    IndexSnapshot(x, h);
    HoldsIsCover(columns, i, t, Entries(x), Collect(true, x));
  }
}
