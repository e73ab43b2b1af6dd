// The in-order traversal a cursor takes when it is opened (collect in dbm-cursor.c).
module TreeSnapshot {
  import opened Trees
  import opened TreeContents

  function SepEntry(s: Sep): Entry {
    Entry(s.key, [], s.pk)
  }

  // Index trees also emit their internal cells, each after its child.
  function Collect(index: bool, t: Tree): seq<Entry> {
    match t
    case Leaf(_, cells) => cells
    case Node(_, kids) => CollectKids(index, kids)
  }

  function CollectKids(index: bool, kids: Kids): seq<Entry> {
    match kids
    case Last(t) => Collect(index, t)
    case Cons(t, s, rest) => Collect(index, t) + (if index then [SepEntry(s)] else []) + CollectKids(index, rest)
  }

  // The separators of a tree, from left to right.
  function Seps(t: Tree): seq<Entry> {
    match t
    case Leaf(_, _) => []
    case Node(_, kids) => KidsSeps(kids)
  }

  function KidsSeps(kids: Kids): seq<Entry> {
    match kids
    case Last(t) => Seps(t)
    case Cons(t, s, rest) => Seps(t) + [SepEntry(s)] + KidsSeps(rest)
  }

  ghost predicate NonDescending(s: seq<Entry>) {
    forall i, j :: 0 <= i < j < |s| ==> s[i].key <= s[j].key
  }

  ghost predicate IndexEntries(s: seq<Entry>) {
    forall i :: 0 <= i < |s| ==> s[i].data == []
  }

  ghost predicate Within(a: seq<Entry>, b: seq<Entry>) {
    forall x :: x in a ==> x in b
  }

  // A table cursor sees the entries of the tree and nothing else.
  lemma {:induction false} TableSnapshot(t: Tree)
    ensures Collect(false, t) == Entries(t)
  {
    match t
    case Leaf(_, _) =>
    case Node(_, kids) => TableSnapshotKids(kids);
  }

  lemma {:induction false} TableSnapshotKids(kids: Kids)
    ensures CollectKids(false, kids) == KidEntries(kids)
  {
    match kids
    case Last(t) => TableSnapshot(t);
    case Cons(t, _, rest) =>
      TableSnapshot(t);
      TableSnapshotKids(rest);
  }

  // What the induction over an index tree carries.
  ghost predicate IndexView(entries: seq<Entry>, seps: seq<Entry>, snapshot: seq<Entry>) {
    && multiset(snapshot) == multiset(entries) + multiset(seps)
    && Within(seps, entries) && Ascending(seps) && NonDescending(snapshot)
    && (entries != [] ==> Below(seps, LastOf(entries).key))
  }

  lemma SnapshotWithin(entries: seq<Entry>, seps: seq<Entry>, snapshot: seq<Entry>)
    requires IndexView(entries, seps, snapshot)
    ensures Within(snapshot, entries)
  {
    forall x | x in snapshot ensures x in entries {
      assert x in multiset(snapshot);
    }
  }

  lemma UpToLast(s: seq<Entry>, x: Entry)
    requires Ascending(s) && s != [] && x in s
    ensures x.key <= LastOf(s).key
  {
  }

  // The views of a left subtree a with separator s, and of what follows it.
  lemma JoinSeps(a: seq<Entry>, aSeps: seq<Entry>, s: Entry, b: seq<Entry>, bSeps: seq<Entry>)
    requires a != [] && LastOf(a) == s && Ascending(a) && Above(b, s.key) && Ascending(b) && b != []
    requires Within(aSeps, a) && Ascending(aSeps) && Below(aSeps, s.key)
    requires Within(bSeps, b) && Ascending(bSeps) && Below(bSeps, LastOf(b).key)
    ensures var seps := aSeps + [s] + bSeps;
      Within(seps, a + b) && Ascending(seps) && Below(seps, LastOf(a + b).key)
  {
    var seps := aSeps + [s] + bSeps;
    forall i | 0 <= i < |bSeps| ensures s.key < bSeps[i].key {
      assert bSeps[i] in b;
    }
    assert forall i :: 0 <= i < |seps| ==>
      seps[i] == if i < |aSeps| then aSeps[i] else if i == |aSeps| then s else bSeps[i - |aSeps| - 1];
    assert LastOf(a + b) == LastOf(b);
  }

  lemma JoinSnapshots(a: seq<Entry>, aSnap: seq<Entry>, s: Entry, b: seq<Entry>, bSnap: seq<Entry>)
    requires a != [] && LastOf(a) == s && Ascending(a) && Above(b, s.key)
    requires Within(aSnap, a) && NonDescending(aSnap)
    requires Within(bSnap, b) && NonDescending(bSnap)
    ensures NonDescending(aSnap + [s] + bSnap)
  {
    var snap := aSnap + [s] + bSnap;
    forall i | 0 <= i < |aSnap| ensures aSnap[i].key <= s.key {
      assert aSnap[i] in a;
      UpToLast(a, aSnap[i]);
    }
    forall i | 0 <= i < |bSnap| ensures s.key < bSnap[i].key {
      assert bSnap[i] in b;
    }
    assert forall i :: 0 <= i < |snap| ==>
      snap[i] == if i < |aSnap| then aSnap[i] else if i == |aSnap| then s else bSnap[i - |aSnap| - 1];
  }

  lemma JoinViews(a: seq<Entry>, aSeps: seq<Entry>, aSnap: seq<Entry>, s: Entry,
                  b: seq<Entry>, bSeps: seq<Entry>, bSnap: seq<Entry>)
    requires a != [] && LastOf(a) == s && b != [] && Ascending(a) && Above(b, s.key) && Ascending(b)
    requires IndexView(a, aSeps, aSnap) && IndexView(b, bSeps, bSnap)
    ensures IndexView(a + b, aSeps + [s] + bSeps, aSnap + [s] + bSnap)
  {
    SnapshotWithin(a, aSeps, aSnap);
    SnapshotWithin(b, bSeps, bSnap);
    JoinSeps(a, aSeps, s, b, bSeps);
    JoinSnapshots(a, aSnap, s, b, bSnap);
    assert multiset(aSnap + [s] + bSnap) == multiset(aSnap) + multiset([s]) + multiset(bSnap);
    assert multiset(aSeps + [s] + bSeps) == multiset(aSeps) + multiset([s]) + multiset(bSeps);
    assert multiset(a + b) == multiset(a) + multiset(b);
  }

  lemma {:induction false} IndexTreeView(t: Tree, h: nat)
    requires Wf(t, h) && Ascending(Entries(t)) && IndexEntries(Entries(t))
    ensures IndexView(Entries(t), Seps(t), Collect(true, t))
    decreases t
  {
    match t
    case Leaf(_, _) =>
    case Node(_, kids) => IndexKidsView(kids, h - 1);
  }

  lemma {:induction false} IndexKidsView(kids: Kids, h: nat)
    requires KidsWf(kids, h) && Ascending(KidEntries(kids)) && IndexEntries(KidEntries(kids))
    ensures IndexView(KidEntries(kids), KidsSeps(kids), CollectKids(true, kids))
    decreases kids
  {
    match kids
    case Last(t) => IndexTreeView(t, h);
    case Cons(t, s, rest) =>
      var a, b := Entries(t), KidEntries(rest);
      AscendingParts(a, b);
      assert IndexEntries(a) && IndexEntries(b) by { EntriesParts(a, b); }
      IndexTreeView(t, h);
      IndexKidsView(rest, h);
      KidsNonEmpty(rest, h);
      assert SepEntry(s) == LastOf(a);
      JoinViews(a, Seps(t), Collect(true, t), SepEntry(s), b, KidsSeps(rest), CollectKids(true, rest));
  }

  lemma EntriesParts(a: seq<Entry>, b: seq<Entry>)
    requires IndexEntries(a + b)
    ensures IndexEntries(a) && IndexEntries(b)
  {
    forall i | 0 <= i < |a| ensures a[i].data == [] { assert (a + b)[i] == a[i]; }
    forall i | 0 <= i < |b| ensures b[i].data == [] { assert (a + b)[|a| + i] == b[i]; }
  }

  lemma {:induction false} AscendingOnce(s: seq<Entry>, x: Entry)
    requires Ascending(s)
    ensures multiset(s)[x] == if x in s then 1 else 0
  {
    if s != [] {
      var front := s[..|s| - 1];
      assert s == front + [s[|s| - 1]];
      assert Ascending(front);
      AscendingOnce(front, x);
    }
  }

  // The main result about index cursors: the snapshot never descends, holds exactly
  // the entries of the tree, and holds an entry twice exactly when it is a separator.
  lemma IndexSnapshot(t: Tree, h: nat)
    requires Wf(t, h) && Ascending(Entries(t)) && IndexEntries(Entries(t))
    ensures NonDescending(Collect(true, t))
    ensures forall x :: x in Collect(true, t) <==> x in Entries(t)
    ensures forall x :: x in Entries(t) ==> multiset(Collect(true, t))[x] == if x in Seps(t) then 2 else 1
  {
    IndexTreeView(t, h);
    SnapshotWithin(Entries(t), Seps(t), Collect(true, t));
    forall x | x in Entries(t)
      ensures x in Collect(true, t)
      ensures multiset(Collect(true, t))[x] == if x in Seps(t) then 2 else 1
    {
      AscendingOnce(Entries(t), x);
      AscendingOnce(Seps(t), x);
      assert x in multiset(Collect(true, t));
    }
  }

  // A strictly ascending snapshot of an index tree is the exception: it means that
  // the tree is a single leaf or that no split has left a separator behind.
  lemma StrictSnapshot(t: Tree, h: nat)
    requires Wf(t, h) && Ascending(Entries(t)) && IndexEntries(Entries(t))
    ensures Ascending(Collect(true, t)) <==> Seps(t) == []
  {
    IndexTreeView(t, h);
    if Seps(t) == [] {
      assert multiset(Collect(true, t)) == multiset(Entries(t));
      forall i, j | 0 <= i < j < |Collect(true, t)|
        ensures Collect(true, t)[i].key < Collect(true, t)[j].key
      {
        SameBagAscending(Entries(t), Collect(true, t), i, j);
      }
    } else {
      var x := Seps(t)[0];
      IndexSnapshot(t, h);
      if Ascending(Collect(true, t)) {
        AscendingOnce(Collect(true, t), x);
      }
    }
  }

  lemma SameBagAscending(a: seq<Entry>, b: seq<Entry>, i: nat, j: nat)
    requires Ascending(a) && NonDescending(b) && multiset(a) == multiset(b) && i < j < |b|
    ensures b[i].key < b[j].key
  {
    if b[i].key == b[j].key {
      assert b[i] in multiset(a) && b[j] in multiset(a);
      assert b[i] in a && b[j] in a;
      assert b[i] == b[j];
      var rest := b[..i] + b[i + 1..];
      assert b == b[..i] + [b[i]] + b[i + 1..];
      assert rest[j - 1] == b[i];
      assert multiset(b) == multiset(rest) + multiset([b[i]]);
      assert b[i] in multiset(rest);
      AscendingOnce(a, b[i]);
    }
  }
}
