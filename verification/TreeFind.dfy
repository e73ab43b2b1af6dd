// Looking keys up, and what a cursor snapshot of a tree contains.
module TreeFind {
  import opened Common
  import opened Trees
  import opened TreeContents
  import opened TreeInsert


  // First entry with the key.
  function Lookup(s: seq<Entry>, key: nat): Option<Entry> {
    if s == [] then None
    else if s[0].key == key then Some(s[0])
    else Lookup(s[1..], key)
  }

  // The descent of chidb_Btree_find: one child per level, then a scan of the leaf.
  function Find(t: Tree, key: nat): Option<Entry>
    decreases Height(t)
  {
    match t
    case Leaf(_, cells) => Lookup(cells, key)
    case Node(_, kids) => Find(KidAt(kids, KidPos(kids, key)), key)
  }

  lemma {:induction false} LookupHas(s: seq<Entry>, key: nat)
    ensures Lookup(s, key).Some? <==> HasKey(s, key)
    ensures Lookup(s, key).Some? ==> Lookup(s, key).value in s && Lookup(s, key).value.key == key
  {
    if s != [] {
      LookupHas(s[1..], key);
      if s[0].key != key && HasKey(s, key) {
        var i :| 0 <= i < |s| && s[i].key == key;
        assert s[1..][i - 1].key == key;
      }
      if HasKey(s[1..], key) {
        var i :| 0 <= i < |s[1..]| && s[1..][i].key == key;
        assert s[i + 1].key == key;
      }
    }
  }

  lemma {:induction false} LookupSkips(a: seq<Entry>, b: seq<Entry>, key: nat)
    requires !HasKey(a, key)
    ensures Lookup(a + b, key) == Lookup(b, key)
  {
    if a == [] {
      assert a + b == b;
    } else {
      assert a[0].key != key;
      assert !HasKey(a[1..], key) by {
        forall i | 0 <= i < |a[1..]| ensures a[1..][i].key != key { assert a[i + 1].key != key; }
      }
      assert (a + b)[1..] == a[1..] + b;
      LookupSkips(a[1..], b, key);
    }
  }

  lemma {:induction false} LookupStops(a: seq<Entry>, b: seq<Entry>, key: nat)
    requires !HasKey(b, key)
    ensures Lookup(a + b, key) == Lookup(a, key)
  {
    if a == [] {
      assert a + b == b;
      LookupHas(b, key);
    } else {
      assert (a + b)[1..] == a[1..] + b;
      LookupStops(a[1..], b, key);
    }
  }

  // The descent finds exactly what a scan of all entries would find.
  lemma {:induction false} FindIsLookup(t: Tree, h: nat, key: nat)
    requires Wf(t, h) && Ascending(Entries(t))
    ensures Find(t, key) == Lookup(Entries(t), key)
    decreases h
  {
    match t
    case Leaf(_, _) =>
    case Node(_, kids) =>
      var p := KidPos(kids, key);
      var a, b, c := Before(kids, p), Entries(KidAt(kids, p)), After(kids, p);
      CoveringChild(kids, h - 1, key);
      KidEntriesAround(kids, p);
      assert !HasKey(a, key) && !HasKey(c, key);
      LookupStops(a + b, c, key);
      LookupSkips(a, b, key);
      FindIsLookup(KidAt(kids, p), h - 1, key);
  }

  lemma InsertSortedSplit(s: seq<Entry>, e: Entry, key: nat)
    requires !HasKey(s, e.key)
    ensures Lookup(InsertSorted(s, e), key) == if key == e.key then Some(e) else Lookup(s, key)
  {
    var p := LeafPos(s, e.key);
    var a, b := s[..p], s[p..];
    assert s == a + b;
    assert !HasKey(a, e.key);
    assert InsertSorted(s, e) == a + ([e] + b);
    if key == e.key {
      LookupSkips(a, [e] + b, key);
    } else {
      assert !HasKey([e], key);
      if HasKey(a, key) {
        LookupPrefix(a, b, key);
        LookupPrefix(a, [e] + b, key);
      } else {
        LookupSkips(a, b, key);
        LookupSkips(a, [e] + b, key);
        LookupSkips([e], b, key);
      }
    }
  }

  lemma {:induction false} LookupPrefix(a: seq<Entry>, b: seq<Entry>, key: nat)
    requires HasKey(a, key)
    ensures Lookup(a + b, key) == Lookup(a, key)
  {
    assert a != [];
    assert (a + b)[1..] == a[1..] + b;
    if a[0].key != key {
      var i :| 0 <= i < |a| && a[i].key == key;
      assert a[1..][i - 1].key == key;
      LookupPrefix(a[1..], b, key);
    }
  }

  // ---- runs ------------------------------------------------------------------------

  datatype File = File(tree: Tree, pages: nat)

  // Inserting a list of entries one after the other; duplicates are refused.
  function InsertAll(sh: Shape, f: File, es: seq<Entry>): File
    requires forall i :: 0 <= i < |es| ==> EntryFits(sh, es[i])
  {
    if es == [] then f
    else
      var g := InsertAll(sh, f, es[..|es| - 1]);
      var r := Insert(sh, g.tree, es[|es| - 1], g.pages);
      File(r.tree, r.pages)
  }

  lemma SizedAllFit(sh: Shape, lim: Limits, es: seq<Entry>)
    requires RoomyPages(sh, lim) && Sized(sh, lim, es)
    ensures forall i :: 0 <= i < |es| ==> EntryFits(sh, es[i])
  {
    forall i | 0 <= i < |es| ensures EntryFits(sh, es[i]) {
      assert [es[i]][0] == es[i];
      SizedFits(sh, lim, es[i]);
    }
  }

  lemma SizedInsert(sh: Shape, lim: Limits, s: seq<Entry>, e: Entry)
    requires Sized(sh, lim, s) && Sized(sh, lim, [e])
    ensures Sized(sh, lim, InsertSorted(s, e))
  {
    var p := LeafPos(s, e.key);
    var r := InsertSorted(s, e);
    forall i | 0 <= i < |r| ensures lim.lo <= LeafCellSize(sh, r[i]) + 2 <= lim.hi {
      assert r[i] == if i < p then s[i] else if i == p then [e][0] else s[i - 1];
    }
  }

  lemma FirstAccepted(es: seq<Entry>, e: Entry, key: nat)
    ensures Lookup(es + [e], key) == if Lookup(es, key).Some? || key != e.key then Lookup(es, key) else Some(e)
  {
    LookupHas(es, key);
    if HasKey(es, key) {
      LookupPrefix(es, [e], key);
    } else {
      LookupSkips(es, [e], key);
      assert [e][1..] == [];
    }
  }

  // One insertion, seen through Find.
  lemma InsertThenFind(sh: Shape, lim: Limits, t: Tree, h: nat, e: Entry, pages: nat, key: nat)
    requires RoomyPages(sh, lim) && Sized(sh, lim, Entries(t)) && Sized(sh, lim, [e])
    requires Wf(t, h) && Ascending(Entries(t))
    ensures EntryFits(sh, e)
    ensures var r := Insert(sh, t, e, pages);
      && r.duplicate == Find(t, e.key).Some?
      && Find(r.tree, key) == if key == e.key && !r.duplicate then Some(e) else Find(t, key)
  {
    InsertKeeps(sh, lim, t, h, e, pages);
    var r := Insert(sh, t, e, pages);
    FindIsLookup(t, h, e.key);
    FindIsLookup(t, h, key);
    FindIsLookup(r.tree, if Full(sh, t, e) then h + 1 else h, key);
    LookupHas(Entries(t), e.key);
    if !r.duplicate {
      InsertSortedSplit(Entries(t), e, key);
    }
  }

  lemma {:induction false} RunKeeps(sh: Shape, lim: Limits, root: nat, pages: nat, es: seq<Entry>) returns (h: nat)
    requires RoomyPages(sh, lim) && Sized(sh, lim, es)
    ensures forall i :: 0 <= i < |es| ==> EntryFits(sh, es[i])
    ensures var t := InsertAll(sh, File(Leaf(root, []), pages), es).tree;
      Wf(t, h) && Ascending(Entries(t)) && Sized(sh, lim, Entries(t))
  {
    SizedAllFit(sh, lim, es);
    if es == [] {
      h := 0;
    } else {
      var e := es[|es| - 1];
      var g := InsertAll(sh, File(Leaf(root, []), pages), es[..|es| - 1]);
      h := RunKeeps(sh, lim, root, pages, es[..|es| - 1]);
      InsertKeeps(sh, lim, g.tree, h, e, g.pages);
      SizedInsert(sh, lim, Entries(g.tree), e);
      h := if Full(sh, g.tree, e) then h + 1 else h;
    }
  }

  // After any sequence of insertions into an empty root, a key is found with the
  // entry it was first inserted with, and every other key is not found.
  lemma {:induction false} FindAfterInsertions(sh: Shape, lim: Limits, root: nat, pages: nat, es: seq<Entry>, key: nat)
    requires RoomyPages(sh, lim) && Sized(sh, lim, es)
    ensures forall i :: 0 <= i < |es| ==> EntryFits(sh, es[i])
    ensures Find(InsertAll(sh, File(Leaf(root, []), pages), es).tree, key) == Lookup(es, key)
  {
    SizedAllFit(sh, lim, es);
    if es != [] {
      var e := es[|es| - 1];
      var before := es[..|es| - 1];
      assert es == before + [e];
      FindAfterInsertions(sh, lim, root, pages, before, key);
      FindAfterInsertions(sh, lim, root, pages, before, e.key);
      var g := InsertAll(sh, File(Leaf(root, []), pages), before);
      var h := RunKeeps(sh, lim, root, pages, before);
      InsertThenFind(sh, lim, g.tree, h, e, g.pages, key);
      FirstAccepted(before, e, key);
    }
  }
}
