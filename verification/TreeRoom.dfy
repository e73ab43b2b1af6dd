// No insertion runs out of room in a page.
module TreeRoom {
  import opened Trees
  import opened TreeContents
  import opened TreeInsert

  // Every node of the tree fits in its page.
  ghost predicate Fits(sh: Shape, t: Tree)
    decreases t
  {
    0 <= FreeSpace(sh, t) && (t.Node? ==> KidsFit(sh, t.kids))
  }

  ghost predicate KidsFit(sh: Shape, kids: Kids)
    decreases kids
  {
    match kids
    case Last(t) => Fits(sh, t)
    case Cons(t, _, rest) => Fits(sh, t) && KidsFit(sh, rest)
  }

  lemma {:induction false} KidFits(sh: Shape, kids: Kids, i: nat)
    requires KidsFit(sh, kids) && i <= Count(kids)
    ensures Fits(sh, KidAt(kids, i))
  {
    if i != 0 {
      KidFits(sh, kids.rest, i - 1);
    }
  }

  lemma {:induction false} SetKidFits(sh: Shape, kids: Kids, i: nat, t: Tree)
    requires KidsFit(sh, kids) && i <= Count(kids) && Fits(sh, t)
    ensures KidsFit(sh, SetKid(kids, i, t))
  {
    if i != 0 {
      SetKidFits(sh, kids.rest, i - 1, t);
    }
  }

  lemma {:induction false} AddKidFits(sh: Shape, kids: Kids, i: nat, lower: Tree, s: Sep, upper: Tree)
    requires KidsFit(sh, kids) && i <= Count(kids) && Fits(sh, lower) && Fits(sh, upper)
    ensures KidsFit(sh, AddKid(kids, i, lower, s, upper))
  {
    if i != 0 {
      AddKidFits(sh, kids.rest, i - 1, lower, s, upper);
    }
  }

  lemma {:induction false} SplitKidsFit(sh: Shape, kids: Kids, m: nat)
    requires KidsFit(sh, kids) && m < Count(kids)
    ensures KidsFit(sh, SplitKids(kids, m).lower) && KidsFit(sh, SplitKids(kids, m).upper)
  {
    if m != 0 {
      SplitKidsFit(sh, kids.rest, m - 1);
    }
  }

  // ---- the half-page arithmetic ------------------------------------------------

  // A part of a full leaf leaves room for one more cell when either few cells are in
  // it or the cells outside it weigh enough.
  lemma PartLeavesRoom(sh: Shape, lim: Limits, part: seq<Entry>, others: seq<Entry>, cap: int)
    requires RoomyPages(sh, lim) && sh.pageSize - 108 <= cap
    requires Sized(sh, lim, part) && Sized(sh, lim, others)
    requires LeafCost(sh, part) + LeafCost(sh, others) <= cap
    requires lim.lo == lim.hi ==> 1 <= |others|
    requires lim.lo < lim.hi ==> |part| <= lim.hi / lim.lo + 2 || lim.hi / lim.lo + 1 <= |others|
    ensures LeafCost(sh, part) + lim.hi <= cap
  {
    CostBounds(sh, lim, part);
    CostBounds(sh, lim, others);
    if lim.lo == lim.hi {
      MulLe(1, |others|, lim.lo);
    } else {
      MixedPart(lim, |part|, |others|, LeafCost(sh, part), LeafCost(sh, others), cap);
    }
  }

  lemma MulLe(a: nat, b: nat, c: nat)
    requires a <= b
    ensures a * c <= b * c
  {
  }

  lemma MulSplit(a: nat, b: nat, c: nat)
    ensures (a + b) * c == a * c + b * c
  {
  }

  lemma MixedLimit(hi: nat, q: nat)
    ensures 2 * hi * (q + 1) == 2 * (q * hi) + 2 * hi
  {
  }

  lemma PartArithmetic(lo: nat, hi: nat, q: nat, n: nat, k: nat, part: nat, others: nat, cap: int)
    requires 1 <= q && hi < (q + 1) * lo && 2 * (q * hi) + 2 * hi <= cap
    requires part + others <= cap && part <= n * hi && k * lo <= others
    requires n <= q + 2 || q + 1 <= k
    ensures part + hi <= cap
  {
    if q + 1 <= k {
      MulLe(q + 1, k, lo);
    } else {
      MulLe(n, q + 2, hi);
      MulSplit(q, 2, hi);
      MulLe(1, q, hi);
    }
  }

  lemma MixedPart(lim: Limits, n: nat, k: nat, part: nat, others: nat, cap: int)
    requires 0 < lim.lo < lim.hi && 2 * lim.hi * (lim.hi / lim.lo + 1) <= cap
    requires part + others <= cap && part <= n * lim.hi && k * lim.lo <= others
    requires n <= lim.hi / lim.lo + 2 || lim.hi / lim.lo + 1 <= k
    ensures part + lim.hi <= cap
  {
    Quotient(lim);
    var q := lim.hi / lim.lo;
    MixedLimit(lim.hi, q);
    PartArithmetic(lim.lo, lim.hi, q, n, k, part, others, cap);
  }

  lemma SplitLeafRoom(sh: Shape, lim: Limits, t: Tree, e: Entry, newPage: nat)
    requires RoomyPages(sh, lim) && t.Leaf? && newPage != 1
    requires Sized(sh, lim, t.cells) && Sized(sh, lim, [e])
    requires 0 <= FreeSpace(sh, t) && 3 <= |t.cells|
    requires lim.lo < lim.hi ==> 2 * (lim.hi / lim.lo) + 2 <= |t.cells|
    ensures !Full(sh, Split(t, newPage).lower, e) && !Full(sh, Split(t, newPage).upper, e)
  {
    var n, m := |t.cells|, |t.cells| / 2;
    var a, b := t.cells[..m + 1], t.cells[m + 1..];
    assert t.cells == a + b;
    CostAdds(sh, a, b);
    assert LeafCellSize(sh, [e][0]) + 2 <= lim.hi;
    PartLeavesRoom(sh, lim, a, b, sh.pageSize - Base(t.page) - 8);
    PartLeavesRoom(sh, lim, b, a, sh.pageSize - Base(t.page) - 8);
  }

  lemma SplitNodeRoom(sh: Shape, t: Tree, e: Entry, newPage: nat)
    requires t.Node? && newPage != 1 && 0 < Count(t.kids)
    requires 0 <= FreeSpace(sh, t)
    ensures !Full(sh, Split(t, newPage).lower, e) && !Full(sh, Split(t, newPage).upper, e)
  {
    var n, m, c := Count(t.kids), Count(t.kids) / 2, InternalCellSize(sh) + 2;
    assert m * c + c <= n * c by { assert (m + 1) * c <= n * c; }
    assert (n - m - 1) * c + c <= n * c by { assert (n - m) * c <= n * c; }
  }

  // Both halves of a split node have room for the entry that caused the split.
  lemma SplitRoom(sh: Shape, lim: Limits, t: Tree, full: Tree, e: Entry, newPage: nat)
    requires RoomyPages(sh, lim) && newPage != 1
    requires full == t || (full.Leaf? == t.Leaf? && WithPage(full, t.page) == t && t.page != 1)
    requires Full(sh, full, e) && Fits(sh, full)
    requires Sized(sh, lim, Entries(full)) && Sized(sh, lim, [e])
    ensures 3 <= CellCount(t)
    ensures var s := Split(t, newPage);
      !Full(sh, s.lower, e) && !Full(sh, s.upper, e) && Fits(sh, s.lower) && Fits(sh, s.upper)
  {
    FullCells(sh, lim, full, e);
    match full
    case Leaf(_, _) =>
      FullLeafCells(sh, lim, full, e);
      SplitLeafRoom(sh, lim, t, e, newPage);
    case Node(_, kids) =>
      SplitKidsFit(sh, kids, Count(kids) / 2);
      SplitNodeRoom(sh, t, e, newPage);
  }

  // ---- along the descent ---------------------------------------------------------

  // Whenever InsertNonFull reaches a node, the node has the room it may need: for the
  // new entry in a leaf, for one promoted cell in an internal node.
  ghost predicate RoomOnPath(sh: Shape, t: Tree, e: Entry, pages: nat)
    requires EntryFits(sh, e)
    decreases Height(t)
  {
    && Needed(sh, t, e) <= FreeSpace(sh, t)
    && match t
       case Leaf(_, _) => true
       case Node(_, kids) =>
         var kids' := MakeRoom(sh, kids, e, pages);
         RoomOnPath(sh, KidAt(kids', KidPos(kids', e.key)), e, PagesAfterRoom(sh, kids, e, pages))
  }

  lemma {:induction false} AddKidAt(kids: Kids, i: nat, lower: Tree, s: Sep, upper: Tree, key: nat)
    requires i == KidPos(kids, key)
    ensures var r := AddKid(kids, i, lower, s, upper);
      KidAt(r, KidPos(r, key)) == if key <= s.key then lower else upper
  {
    match kids
    case Last(_) =>
    case Cons(_, k, rest) =>
      if i != 0 {
        AddKidAt(rest, i - 1, lower, s, upper, key);
      }
  }

  // After making room, the child that covers the entry is not full and every node fits.
  lemma MakeRoomRoom(sh: Shape, lim: Limits, kids: Kids, e: Entry, pages: nat)
    requires RoomyPages(sh, lim) && Sized(sh, lim, KidEntries(kids)) && Sized(sh, lim, [e]) && EntryFits(sh, e)
    requires KidsFit(sh, kids) && 1 <= pages
    ensures var kids' := MakeRoom(sh, kids, e, pages);
      KidsFit(sh, kids') && !Full(sh, KidAt(kids', KidPos(kids', e.key)), e)
  {
    var pos := KidPos(kids, e.key);
    var child := KidAt(kids, pos);
    KidFits(sh, kids, pos);
    if Full(sh, child, e) {
      KidEntriesAround(kids, pos);
      SizedParts(sh, lim, Before(kids, pos), Entries(child), After(kids, pos));
      SplitRoom(sh, lim, child, child, e, pages + 1);
      var s := Split(child, pages + 1);
      AddKidFits(sh, kids, pos, s.lower, s.sep, s.upper);
      AddKidAt(kids, pos, s.lower, s.sep, s.upper, e.key);
    }
  }

  lemma InsertLeafFits(sh: Shape, t: Tree, e: Entry, pages: nat)
    requires t.Leaf? && !Full(sh, t, e) && Fits(sh, t)
    ensures Fits(sh, InsertLeaf(t, e, pages).tree)
  {
    var p := LeafPos(t.cells, e.key);
    assert t.cells == t.cells[..p] + t.cells[p..];
    CostAdds(sh, t.cells[..p], t.cells[p..]);
    CostAdds(sh, t.cells[..p], [e]);
    CostAdds(sh, t.cells[..p] + [e], t.cells[p..]);
    assert LeafCost(sh, [e]) == LeafCellSize(sh, e) + 2 by { assert [e][..0] == []; }
  }

  lemma {:induction false} InsertNonFullRoom(sh: Shape, lim: Limits, t: Tree, h: nat, e: Entry, pages: nat)
    requires RoomyPages(sh, lim) && Sized(sh, lim, Entries(t)) && Sized(sh, lim, [e]) && EntryFits(sh, e)
    requires Wf(t, h) && Ascending(Entries(t)) && 1 <= pages
    requires Fits(sh, t) && !Full(sh, t, e)
    ensures RoomOnPath(sh, t, e, pages)
    ensures Fits(sh, InsertNonFull(sh, t, e, pages).tree)
    decreases h
  {
    match t
    case Leaf(_, _) => InsertLeafFits(sh, t, e, pages);
    case Node(page, kids) =>
      var kids' := MakeRoom(sh, kids, e, pages);
      var pos := KidPos(kids', e.key);
      var child := KidAt(kids', pos);
      MakeRoomRoom(sh, lim, kids, e, pages);
      MakeRoomKeeps(sh, lim, kids, h - 1, e, pages);
      CoveringChild(kids', h - 1, e.key);
      KidEntriesAround(kids', pos);
      SizedParts(sh, lim, Before(kids', pos), Entries(child), After(kids', pos));
      KidFits(sh, kids', pos);
      InsertNonFullRoom(sh, lim, child, h - 1, e, PagesAfterRoom(sh, kids, e, pages));
      var r := InsertNonFull(sh, child, e, PagesAfterRoom(sh, kids, e, pages));
      SetKidFits(sh, kids', pos, r.tree);
      MakeRoomCount(sh, kids, e, pages);
  }

  lemma MakeRoomCount(sh: Shape, kids: Kids, e: Entry, pages: nat)
    requires EntryFits(sh, e)
    ensures Count(MakeRoom(sh, kids, e, pages)) <= Count(kids) + 1
    ensures Count(MakeRoom(sh, kids, e, pages)) * (InternalCellSize(sh) + 2)
         <= Count(kids) * (InternalCellSize(sh) + 2) + InternalCellSize(sh) + 2
  {
  }

  // The root of the file's page nroot after a root split.
  lemma GrowRootRoom(sh: Shape, lim: Limits, t: Tree, e: Entry, pages: nat)
    requires RoomyPages(sh, lim) && Sized(sh, lim, Entries(t)) && Sized(sh, lim, [e])
    requires Full(sh, t, e) && Fits(sh, t) && 1 <= pages
    ensures 0 < CellCount(t)
    ensures Fits(sh, GrowRoot(t, pages)) && !Full(sh, GrowRoot(t, pages), e)
  {
    SplitRoom(sh, lim, WithPage(t, pages + 1), t, e, pages + 2);
    var s := Split(WithPage(t, pages + 1), pages + 2);
    OneCellRoom(sh, t.page, s, e);
  }

  lemma OneCellRoom(sh: Shape, page: nat, s: TreeSplit, e: Entry)
    requires 3 * (InternalCellSize(sh) + 2) <= sh.pageSize - 112
    requires Fits(sh, s.lower) && Fits(sh, s.upper)
    ensures var r := Node(page, Cons(s.lower, s.sep, Last(s.upper)));
      Fits(sh, r) && !Full(sh, r, e)
  {
    var kids := Cons(s.lower, s.sep, Last(s.upper));
    assert Count(kids) == 1;
    assert Count(kids) * (InternalCellSize(sh) + 2) == InternalCellSize(sh) + 2;
    assert KidsFit(sh, kids.rest);
  }

  // The main result about room: under the size limits, no page overflows, neither on
  // the way down nor in the tree that results.
  lemma InsertRoom(sh: Shape, lim: Limits, t: Tree, h: nat, e: Entry, pages: nat)
    requires RoomyPages(sh, lim) && Sized(sh, lim, Entries(t)) && Sized(sh, lim, [e])
    requires Wf(t, h) && Ascending(Entries(t)) && Fits(sh, t) && 1 <= pages
    ensures EntryFits(sh, e)
    ensures Full(sh, t, e) ==> 0 < CellCount(t) && RoomOnPath(sh, GrowRoot(t, pages), e, pages + 2)
    ensures !Full(sh, t, e) ==> RoomOnPath(sh, t, e, pages)
    ensures Fits(sh, Insert(sh, t, e, pages).tree)
  {
    hide RoomyPages, Sized, Wf, Fits, RoomOnPath, InsertNonFull, GrowRoot, Ascending;
    SizedFits(sh, lim, e);
    if Full(sh, t, e) {
      GrowRootKeeps(sh, lim, t, h, e, pages);
      GrowRootRoom(sh, lim, t, e, pages);
      InsertNonFullRoom(sh, lim, GrowRoot(t, pages), h + 1, e, pages + 2);
    } else {
      InsertNonFullRoom(sh, lim, t, h, e, pages);
    }
  }
}
