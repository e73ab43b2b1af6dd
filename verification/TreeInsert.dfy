// Insertion keeps a tree well formed, adds exactly the new entry, and never runs
// out of room.
module TreeInsert {
  import opened Trees
  import opened TreeContents

  // Bounds on what one leaf cell costs: its bytes and its two-byte slot.
  datatype Limits = Limits(lo: nat, hi: nat)

  predicate Sized(sh: Shape, lim: Limits, s: seq<Entry>) {
    forall i :: 0 <= i < |s| ==> lim.lo <= LeafCellSize(sh, s[i]) + 2 <= lim.hi
  }

  // The page size that splitting by cell count needs. Cells of one size fit when a
  // page holds three of them; mixed sizes need the larger page. The bounds are for
  // the smallest page of a file, page 1, whose first 100 bytes are the file header.
  predicate RoomyPages(sh: Shape, lim: Limits) {
    && 0 < lim.lo <= lim.hi
    && 3 * (InternalCellSize(sh) + 2) <= sh.pageSize - 112
    && (if lim.lo == lim.hi then 3 * lim.hi else 2 * lim.hi * (lim.hi / lim.lo + 1)) <= sh.pageSize - 108
  }

  // ---- a full node has enough cells to split ---------------------------------

  lemma {:induction false} CostBounds(sh: Shape, lim: Limits, s: seq<Entry>)
    requires Sized(sh, lim, s)
    ensures |s| * lim.lo <= LeafCost(sh, s) <= |s| * lim.hi
  {
    if s != [] {
      CostBounds(sh, lim, s[..|s| - 1]);
      assert |s| * lim.lo == (|s| - 1) * lim.lo + lim.lo;
      assert |s| * lim.hi == (|s| - 1) * lim.hi + lim.hi;
    }
  }

  lemma {:induction false} CostAdds(sh: Shape, a: seq<Entry>, b: seq<Entry>)
    ensures LeafCost(sh, a + b) == LeafCost(sh, a) + LeafCost(sh, b)
  {
    if b == [] {
      assert a + b == a;
    } else {
      CostAdds(sh, a, b[..|b| - 1]);
      assert (a + b)[..|a + b| - 1] == a + b[..|b| - 1];
    }
  }

  lemma Quotient(lim: Limits)
    requires 0 < lim.lo <= lim.hi
    ensures 1 <= lim.hi / lim.lo && lim.hi < (lim.hi / lim.lo + 1) * lim.lo
  {
    var q := lim.hi / lim.lo;
    assert lim.hi == q * lim.lo + lim.hi % lim.lo;
    if q == 0 {
      assert false;
    }
  }

  lemma MulLess(a: int, b: int, c: nat)
    requires a * c < b * c
    ensures a < b
  {
    assert b <= a ==> b * c <= a * c;
  }

  // Number of cells of a full leaf.
  lemma FullLeafCells(sh: Shape, lim: Limits, t: Tree, e: Entry)
    requires RoomyPages(sh, lim) && t.Leaf? && Full(sh, t, e)
    requires Sized(sh, lim, t.cells) && Sized(sh, lim, [e])
    ensures 3 <= |t.cells|
    ensures lim.lo < lim.hi ==> 2 * (lim.hi / lim.lo) + 2 <= |t.cells|
  {
    var n := |t.cells|;
    CostBounds(sh, lim, t.cells);
    assert LeafCellSize(sh, [e][0]) + 2 <= lim.hi;
    if lim.lo == lim.hi {
      MulLess(2, n, lim.hi);
    } else {
      Quotient(lim);
      CellsArithmetic(lim.hi, lim.hi / lim.lo, n, sh.pageSize - 108);
    }
  }

  lemma CellsArithmetic(hi: nat, q: nat, n: nat, cap: int)
    requires 2 * hi * (q + 1) <= cap < n * hi + hi
    ensures 2 * q + 2 <= n
  {
    assert 2 * hi * (q + 1) == (2 * q + 1) * hi + hi;
    MulLess(2 * q + 1, n, hi);
  }

  lemma FullNodeCells(sh: Shape, lim: Limits, t: Tree, e: Entry)
    requires RoomyPages(sh, lim) && t.Node? && Full(sh, t, e)
    ensures 3 <= CellCount(t)
  {
    var c := InternalCellSize(sh) + 2;
    assert 2 * c < Count(t.kids) * c;
    MulLess(2, Count(t.kids), c);
  }

  lemma FullCells(sh: Shape, lim: Limits, t: Tree, e: Entry)
    requires RoomyPages(sh, lim) && Full(sh, t, e)
    requires Sized(sh, lim, Entries(t)) && Sized(sh, lim, [e])
    ensures 3 <= CellCount(t)
  {
    match t
    case Leaf(_, _) => FullLeafCells(sh, lim, t, e);
    case Node(_, _) => FullNodeCells(sh, lim, t, e);
  }

  lemma SizedFits(sh: Shape, lim: Limits, e: Entry)
    requires RoomyPages(sh, lim) && Sized(sh, lim, [e])
    ensures EntryFits(sh, e)
  {
    assert LeafCellSize(sh, [e][0]) + 2 <= lim.hi;
    if lim.lo != lim.hi {
      Quotient(lim);
      var q := lim.hi / lim.lo;
      assert 2 * lim.hi * (q + 1) == 2 * lim.hi * q + 2 * lim.hi;
    }
  }

  lemma SizedParts(sh: Shape, lim: Limits, a: seq<Entry>, b: seq<Entry>, c: seq<Entry>)
    requires Sized(sh, lim, a + b + c)
    ensures Sized(sh, lim, b)
  {
    forall i | 0 <= i < |b| ensures lim.lo <= LeafCellSize(sh, b[i]) + 2 <= lim.hi {
      assert (a + b + c)[|a| + i] == b[i];
    }
  }

  // ---- contents ------------------------------------------------------------

  // Splitting the covering child keeps the entries and the invariant.
  lemma MakeRoomKeeps(sh: Shape, lim: Limits, kids: Kids, h: nat, e: Entry, pages: nat)
    requires RoomyPages(sh, lim) && Sized(sh, lim, KidEntries(kids)) && Sized(sh, lim, [e])
    requires KidsWf(kids, h) && Ascending(KidEntries(kids)) && EntryFits(sh, e)
    ensures KidEntries(MakeRoom(sh, kids, e, pages)) == KidEntries(kids)
    ensures KidsWf(MakeRoom(sh, kids, e, pages), h)
  {
    var pos := KidPos(kids, e.key);
    var child := KidAt(kids, pos);
    if Full(sh, child, e) {
      KidEntriesAround(kids, pos);
      SizedParts(sh, lim, Before(kids, pos), Entries(child), After(kids, pos));
      FullCells(sh, lim, child, e);
      CoveringChild(kids, h, e.key);
      var s := Split(child, pages + 1);
      SplitWf(child, h, pages + 1);
      AddKidWf(kids, h, pos, s);
      AddKidEntries(kids, pos, s.lower, s.sep, s.upper);
    }
  }

  // What a caller gets back from an insertion: the duplicate flag says whether the
  // key was there, and otherwise the one new entry is in its place.
  ghost predicate Inserted(s: seq<Entry>, e: Entry, r: Outcome) {
    && (r.duplicate <==> HasKey(s, e.key))
    && Entries(r.tree) == (if r.duplicate then s else InsertSorted(s, e))
  }

  lemma InsertLeafKeeps(t: Tree, e: Entry, pages: nat)
    requires t.Leaf? && Ascending(t.cells)
    ensures Inserted(Entries(t), e, InsertLeaf(t, e, pages))
    ensures Wf(InsertLeaf(t, e, pages).tree, 0)
  {
    LeafHasKey(t.cells, e.key);
  }

  lemma {:induction false} InsertNonFullKeeps(sh: Shape, lim: Limits, t: Tree, h: nat, e: Entry, pages: nat)
    requires RoomyPages(sh, lim) && Sized(sh, lim, Entries(t)) && Sized(sh, lim, [e]) && EntryFits(sh, e)
    requires Wf(t, h) && Ascending(Entries(t))
    ensures Inserted(Entries(t), e, InsertNonFull(sh, t, e, pages))
    ensures Wf(InsertNonFull(sh, t, e, pages).tree, h)
    decreases h, 0
  {
    match t
    case Leaf(_, _) => InsertLeafKeeps(t, e, pages);
    case Node(page, kids) =>
      MakeRoomKeeps(sh, lim, kids, h - 1, e, pages);
      InsertBelowKeeps(sh, lim, MakeRoom(sh, kids, e, pages), h - 1, e, PagesAfterRoom(sh, kids, e, pages));
  }

  // One internal node, once its covering child has room.
  lemma {:induction false} InsertBelowKeeps(sh: Shape, lim: Limits, kids: Kids, h: nat, e: Entry, pages: nat)
    requires RoomyPages(sh, lim) && Sized(sh, lim, KidEntries(kids)) && Sized(sh, lim, [e]) && EntryFits(sh, e)
    requires KidsWf(kids, h) && Ascending(KidEntries(kids))
    ensures var pos := KidPos(kids, e.key);
      var r := InsertNonFull(sh, KidAt(kids, pos), e, pages);
      && (r.duplicate <==> HasKey(KidEntries(kids), e.key))
      && KidEntries(SetKid(kids, pos, r.tree))
         == (if r.duplicate then KidEntries(kids) else InsertSorted(KidEntries(kids), e))
      && KidsWf(SetKid(kids, pos, r.tree), h)
    decreases h, 1
  {
    var pos := KidPos(kids, e.key);
    var child := KidAt(kids, pos);
    var a, c := Before(kids, pos), After(kids, pos);
    CoveringChild(kids, h, e.key);
    KidEntriesAround(kids, pos);
    SizedParts(sh, lim, a, Entries(child), c);
    InsertNonFullKeeps(sh, lim, child, h, e, pages);
    var r := InsertNonFull(sh, child, e, pages);
    SetKidEntries(kids, pos, r.tree);
    InsertMiddle(a, Entries(child), c, e);
    HasKeyMiddle(a, Entries(child), c, e.key);
    if !r.duplicate && pos < Count(kids) {
      InsertKeepsLast(Entries(child), e);
    }
    SetKidWf(kids, h, pos, r.tree);
  }

  lemma GrowRootKeeps(sh: Shape, lim: Limits, t: Tree, h: nat, e: Entry, pages: nat)
    requires RoomyPages(sh, lim) && Sized(sh, lim, Entries(t)) && Sized(sh, lim, [e])
    requires Full(sh, t, e) && Wf(t, h)
    ensures 0 < CellCount(t)
    ensures Wf(GrowRoot(t, pages), h + 1) && Entries(GrowRoot(t, pages)) == Entries(t)
  {
    FullCells(sh, lim, t, e);
    var c := WithPage(t, pages + 1);
    SplitWf(c, h, pages + 2);
    var s := Split(c, pages + 2);
    assert KidEntries(Cons(s.lower, s.sep, Last(s.upper))) == Entries(s.lower) + Entries(s.upper);
  }

  // The main result about contents: an insertion reports a duplicate exactly when
  // the key is in the tree, and otherwise adds exactly that entry in key order; the
  // tree stays well formed, one level higher when the root was full.
  lemma InsertKeeps(sh: Shape, lim: Limits, t: Tree, h: nat, e: Entry, pages: nat)
    requires RoomyPages(sh, lim) && Sized(sh, lim, Entries(t)) && Sized(sh, lim, [e])
    requires Wf(t, h) && Ascending(Entries(t))
    ensures EntryFits(sh, e)
    ensures Inserted(Entries(t), e, Insert(sh, t, e, pages))
    ensures Ascending(Entries(Insert(sh, t, e, pages).tree))
    ensures Wf(Insert(sh, t, e, pages).tree, if Full(sh, t, e) then h + 1 else h)
  {
    SizedFits(sh, lim, e);
    if Full(sh, t, e) {
      GrowRootKeeps(sh, lim, t, h, e, pages);
      InsertNonFullKeeps(sh, lim, GrowRoot(t, pages), h + 1, e, pages + 2);
    } else {
      InsertNonFullKeeps(sh, lim, t, h, e, pages);
    }
    if !HasKey(Entries(t), e.key) {
      InsertSortedAscending(Entries(t), e);
    }
  }
}
