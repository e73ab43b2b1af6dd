// The trees of a file as maps from keys to entries, and what insertions and look-ups do to
// them on the bytes of the file.
module BtreeMaps {
  import opened Common
  import opened Trees
  import opened TreeContents
  import opened TreeInsert
  import opened TreeRoom
  import opened TreePages
  import opened TreeFind
  import opened Pages
  import opened BtreeReps
  import opened Btrees

  // A tree of the file: its shape, the bounds on its cells, its nodes and its height.
  datatype StoredTree = StoredTree(sh: Shape, lim: Limits, t: Tree, h: nat)

  ghost predicate TreeStored(s: StoredTree, pages: PageFile, n: nat) {
    && Rep(s.sh, pages, s.t) && Distinct(s.t) && PagesWithin(PagesOf(s.t), n)
    && Wf(s.t, s.h) && Ascending(Entries(s.t)) && RoomyPages(s.sh, s.lim) && Sized(s.sh, s.lim, Entries(s.t))
  }

  type Forest = map<nat, StoredTree>

  // Every tree is stored below its root page, and no page belongs to two trees.
  ghost predicate ForestStored(f: Forest, pageSize: nat, pages: PageFile, n: nat) {
    && (forall r :: r in f ==> f[r].t.page == r && f[r].sh.pageSize == pageSize && TreeStored(f[r], pages, n))
    && (forall r, s :: r in f && s in f && r != s ==> PagesOf(f[r].t) !! PagesOf(f[s].t))
  }

  // ---- room -----------------------------------------------------------------------------------------

  lemma StoredFits(sh: Shape, pages: PageFile, t: Tree)
    requires NodeStored(sh, pages, t)
    ensures 0 <= FreeSpace(sh, t)
  {
    hide SlotsHold, ExtentsApart, TotalSize, FreeSpace;
    HeaderSpace(sh, pages, t);
  }

  // Nodes that are in their pages fit in them.
  lemma {:induction false} RepFits(sh: Shape, pages: PageFile, t: Tree)
    requires Rep(sh, pages, t)
    ensures Fits(sh, t)
    decreases t
  {
    hide NodeStored, FreeSpace;
    StoredFits(sh, pages, t);
    if t.Node? {
      KidsRepFit(sh, pages, t.kids);
    }
  }

  lemma {:induction false} KidsRepFit(sh: Shape, pages: PageFile, kids: Kids)
    requires KidsRep(sh, pages, kids)
    ensures KidsFit(sh, kids)
    decreases kids
  {
    hide NodeStored, FreeSpace;
    match kids
    case Last(t) => RepFits(sh, pages, t);
    case Cons(t, _, rest) =>
      RepFits(sh, pages, t);
      KidsRepFit(sh, pages, rest);
  }

  // Under the size limits, every insertion into a stored tree finds the room it needs.
  lemma StoredInsertable(s: StoredTree, pages: PageFile, n: nat, e: Entry)
    requires TreeStored(s, pages, n) && Sized(s.sh, s.lim, [e]) && CellFits(EntryCell(s.sh.index, e))
    requires n + 3 + Height(s.t) < 0x1_0000_0000
    ensures RootInsertable(s.sh, s.t, e, n)
  {
    hide Rep, Full, RoomOnPath, GrowRoot, CellFits, Trees.Insert;
    RepFits(s.sh, pages, s.t);
    InsertRoom(s.sh, s.lim, s.t, s.h, e, n);
  }

  // ---- one insertion -----------------------------------------------------------------------------------

  ghost function AfterEntry(s: StoredTree, e: Entry, n: nat): StoredTree
    requires EntryFits(s.sh, e)
  {
    StoredTree(s.sh, s.lim, Trees.Insert(s.sh, s.t, e, n).tree, if Full(s.sh, s.t, e) then s.h + 1 else s.h)
  }

  lemma EntryKeepsTree(s: StoredTree, a: PageFile, b: PageFile, n: nat, e: Entry)
    requires TreeStored(s, a, n) && Sized(s.sh, s.lim, [e]) && EntryFits(s.sh, e)
    requires Rep(s.sh, b, Trees.Insert(s.sh, s.t, e, n).tree)
    ensures var r := Trees.Insert(s.sh, s.t, e, n);
      && TreeStored(AfterEntry(s, e, n), b, r.pages) && r.tree.page == s.t.page && n <= r.pages
      && PagesOf(r.tree) == PagesOf(s.t) + Allocated(n, r.pages)
      && (r.duplicate <==> HasKey(Entries(s.t), e.key))
      && Entries(r.tree) == if r.duplicate then Entries(s.t) else InsertSorted(Entries(s.t), e)
  {
    hide Rep, Full, Trees.Insert;
    InsertKeeps(s.sh, s.lim, s.t, s.h, e, n);
    InsertPages(s.sh, s.t, e, n);
    SizedInsert(s.sh, s.lim, Entries(s.t), e);
  }

  // The other trees of the file neither change nor come to share a page.
  lemma ForestKept(f: Forest, pageSize: nat, a: PageFile, b: PageFile, root: nat, n: nat, n': nat, s: StoredTree)
    requires ForestStored(f, pageSize, a, n) && root in f && n <= n'
    requires SameElsewhere(a, b, n, PagesOf(f[root].t))
    requires TreeStored(s, b, n') && s.t.page == root && s.sh.pageSize == pageSize
    requires PagesOf(s.t) == PagesOf(f[root].t) + Allocated(n, n')
    ensures ForestStored(f[root := s], pageSize, b, n')
  {
    hide Rep, Wf, RoomyPages, Sized, Distinct;
    var g := f[root := s];
    forall r | r in g ensures g[r].t.page == r && g[r].sh.pageSize == pageSize && TreeStored(g[r], b, n') {
      if r != root {
        RepFrame(g[r].sh, a, b, g[r].t);
      }
    }
  }

  // chidb_Btree_insert on one tree of a file: the entry is added to that tree's map, or the
  // key was there and the map stays; all other trees keep theirs.
  method InsertEntry(bt: BTree, nroot: nat, cell: Cell, ghost e: Entry, ghost f: Forest)
    returns (duplicate: bool, ghost g: Forest)
    requires bt.pager.Valid() && ForestStored(f, bt.pager.pageSize, bt.pager.pages, bt.pager.nPages) && nroot in f
    requires cell == EntryCell(f[nroot].sh.index, e) && CellFits(cell) && Sized(f[nroot].sh, f[nroot].lim, [e])
    requires bt.pager.nPages + 3 + Height(f[nroot].t) < 0x1_0000_0000
    modifies bt.pager
    ensures bt.pager.Valid() && ForestStored(g, bt.pager.pageSize, bt.pager.pages, bt.pager.nPages)
    ensures g.Keys == f.Keys && forall r :: r in f && r != nroot ==> g[r] == f[r]
    ensures g[nroot].sh == f[nroot].sh && g[nroot].lim == f[nroot].lim
    ensures duplicate <==> HasKey(Entries(f[nroot].t), e.key)
    ensures Entries(g[nroot].t) == if duplicate then Entries(f[nroot].t) else InsertSorted(Entries(f[nroot].t), e)
  {
    hide TreeStored, RootInsertable, Rep, Trees.Insert, CellFits, Sized, AfterEntry, EntryCell;
    ghost var s, n, a := f[nroot], bt.pager.nPages, bt.pager.pages;
    StoredInsertable(s, a, n, e);
    InsertableFits(s.sh, s.t, e, n);
    StoredParts(s, a, n);
    duplicate := bt.Insert(nroot, cell, s.sh, s.t, e);
    EntryKeepsTree(s, a, bt.pager.pages, n, e);
    g := f[nroot := AfterEntry(s, e, n)];
    AfterParts(s, e, n);
    ForestKept(f, bt.pager.pageSize, a, bt.pager.pages, nroot, n, bt.pager.nPages, AfterEntry(s, e, n));
  }

  lemma InsertableFits(sh: Shape, t: Tree, e: Entry, n: nat)
    requires RootInsertable(sh, t, e, n)
    ensures EntryFits(sh, e)
  {
  }

  lemma StoredParts(s: StoredTree, pages: PageFile, n: nat)
    requires TreeStored(s, pages, n)
    ensures Rep(s.sh, pages, s.t)
  {
  }

  lemma AfterParts(s: StoredTree, e: Entry, n: nat)
    requires EntryFits(s.sh, e)
    ensures AfterEntry(s, e, n).t == Trees.Insert(s.sh, s.t, e, n).tree
    ensures AfterEntry(s, e, n).sh == s.sh && AfterEntry(s, e, n).lim == s.lim
  {
  }

  // chidb_Btree_insertInTable
  method InsertInTable(bt: BTree, nroot: nat, key: nat, data: seq<byte>, ghost f: Forest)
    returns (duplicate: bool, ghost g: Forest)
    requires bt.pager.Valid() && ForestStored(f, bt.pager.pageSize, bt.pager.pages, bt.pager.nPages) && nroot in f
    requires !f[nroot].sh.index && key < 0x1000_0000 && f[nroot].lim.lo <= 8 + |data| + 2 <= f[nroot].lim.hi
    requires bt.pager.nPages + 3 + Height(f[nroot].t) < 0x1_0000_0000
    modifies bt.pager
    ensures bt.pager.Valid() && ForestStored(g, bt.pager.pageSize, bt.pager.pages, bt.pager.nPages)
    ensures g.Keys == f.Keys && forall r :: r in f && r != nroot ==> g[r] == f[r]
    ensures duplicate <==> HasKey(Entries(f[nroot].t), key)
    ensures Entries(g[nroot].t)
         == if duplicate then Entries(f[nroot].t) else InsertSorted(Entries(f[nroot].t), Entry(key, data, 0))
  {
    hide TreeStored;
    TableDataFits(f[nroot], bt.pager.pages, bt.pager.nPages, data);
    duplicate, g := InsertEntry(bt, nroot, TableLeaf(key, data), Entry(key, data, 0), f);
  }

  lemma TableDataFits(s: StoredTree, pages: PageFile, n: nat, data: seq<byte>)
    requires TreeStored(s, pages, n) && |data| + 10 <= s.lim.hi
    requires s.sh.pageSize < 0x1_0000
    ensures |data| < 0x1_0000
  {
    hide Rep, Wf;
    Quotient(s.lim);
    var q := s.lim.hi / s.lim.lo;
    assert s.lim.hi <= s.lim.hi * (q + 1);
  }

  // chidb_Btree_insertInIndex
  method InsertInIndex(bt: BTree, nroot: nat, keyIdx: nat, keyPk: nat, ghost f: Forest)
    returns (duplicate: bool, ghost g: Forest)
    requires bt.pager.Valid() && ForestStored(f, bt.pager.pageSize, bt.pager.pages, bt.pager.nPages) && nroot in f
    requires f[nroot].sh.index && keyIdx < 0x1_0000_0000 && keyPk < 0x1_0000_0000
    requires f[nroot].lim == Limits(14, 14)
    requires bt.pager.nPages + 3 + Height(f[nroot].t) < 0x1_0000_0000
    modifies bt.pager
    ensures bt.pager.Valid() && ForestStored(g, bt.pager.pageSize, bt.pager.pages, bt.pager.nPages)
    ensures g.Keys == f.Keys && forall r :: r in f && r != nroot ==> g[r] == f[r]
    ensures duplicate <==> HasKey(Entries(f[nroot].t), keyIdx)
    ensures Entries(g[nroot].t)
         == if duplicate then Entries(f[nroot].t) else InsertSorted(Entries(f[nroot].t), Entry(keyIdx, [], keyPk))
  {
    hide TreeStored;
    duplicate, g := InsertEntry(bt, nroot, IndexLeaf(keyIdx, keyPk), Entry(keyIdx, [], keyPk), f);
  }

  // chidb_Btree_find: the map of the tree, read from the file.
  method FindInTable(bt: BTree, nroot: nat, key: nat, ghost f: Forest) returns (data: Option<seq<byte>>)
    requires bt.pager.Valid() && ForestStored(f, bt.pager.pageSize, bt.pager.pages, bt.pager.nPages) && nroot in f
    requires !f[nroot].sh.index
    ensures data == match Lookup(Entries(f[nroot].t), key) case None => None case Some(e) => Some(e.data)
    ensures data.None? <==> !HasKey(Entries(f[nroot].t), key)
  {
    hide Rep, Sized, RoomyPages, Distinct;
    ghost var s := f[nroot];
    data := bt.FindEntry(nroot, key, s.sh, s.t);
    FindIsLookup(s.t, s.h, key);
    LookupHas(Entries(s.t), key);
  }

  // A new, empty tree (chidb_Btree_newNode with a leaf type) joins the file.
  method CreateTree(bt: BTree, ghost sh: Shape, ghost lim: Limits, index: bool, ghost f: Forest)
    returns (nroot: nat, ghost g: Forest)
    requires bt.pager.Valid() && ForestStored(f, bt.pager.pageSize, bt.pager.pages, bt.pager.nPages)
    requires sh == Shape(index, bt.pager.pageSize) && RoomyPages(sh, lim)
    modifies bt.pager
    ensures bt.pager.Valid() && ForestStored(g, bt.pager.pageSize, bt.pager.pages, bt.pager.nPages)
    ensures nroot !in f && g == f[nroot := StoredTree(sh, lim, Leaf(nroot, []), 0)]
  {
    hide PageHolds, RoomyPages, Rep, Wf;
    ghost var a, n := bt.pager.pages, bt.pager.nPages;
    nroot := bt.NewNode(if index then INDEX_LEAF else TABLE_LEAF);
    ghost var s := StoredTree(sh, lim, Leaf(nroot, []), 0);
    g := f[nroot := s];
    EmptyStored(sh, lim, bt.pager.pages, nroot, bt.pager.nPages);
    RootsWithin(f, bt.pager.pageSize, a, n, nroot);
    ForestGrows(f, bt.pager.pageSize, a, bt.pager.pages, n, s);
  }

  lemma EmptyStored(sh: Shape, lim: Limits, pages: PageFile, root: nat, n: nat)
    requires RoomyPages(sh, lim) && root in pages && |pages[root]| == sh.pageSize && 0 < root <= n
    requires PageHolds(Base(root), pages[root], NodeType(sh.index, true), [], 0)
    ensures TreeStored(StoredTree(sh, lim, Leaf(root, []), 0), pages, n)
  {
    hide PageHolds;
    assert LeafCells(sh.index, []) == [];
  }

  lemma RootsWithin(f: Forest, pageSize: nat, pages: PageFile, n: nat, p: nat)
    requires ForestStored(f, pageSize, pages, n) && n < p
    ensures p !in f && forall r :: r in f ==> p !in PagesOf(f[r].t)
  {
    hide Rep, Wf, RoomyPages, Sized, Distinct;
    forall r | r in f ensures r in PagesOf(f[r].t) && p !in PagesOf(f[r].t) {
    }
  }

  lemma ForestGrows(f: Forest, pageSize: nat, a: PageFile, b: PageFile, n: nat, s: StoredTree)
    requires ForestStored(f, pageSize, a, n) && s.t.Leaf? && s.t.page == n + 1 && s.sh.pageSize == pageSize
    requires TreeStored(s, b, n + 1) && s.t.page in b && b == a[n + 1 := b[n + 1]]
    requires n + 1 !in f && forall r :: r in f ==> n + 1 !in PagesOf(f[r].t)
    ensures ForestStored(f[n + 1 := s], pageSize, b, n + 1)
  {
    hide Rep, Wf, RoomyPages, Sized, Distinct;
    var g := f[n + 1 := s];
    forall r | r in g ensures g[r].t.page == r && g[r].sh.pageSize == pageSize && TreeStored(g[r], b, n + 1) {
      if r != n + 1 {
        RepFrame(g[r].sh, a, b, g[r].t);
      }
    }
  }
}
