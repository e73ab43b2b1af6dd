// The B-Tree file: a pager, and the operations of btree.c on its pages.
module Btrees {
  import opened Common
  import opened Bytes
  import opened Trees
  import opened TreePages
  import opened TreeFind
  import opened TreeRoom
  import opened Pages
  import opened PageNodes
  import opened BtreeReps

  // ---- the pager -------------------------------------------------------------------------------

  // Pages that were never written read as zeros (pager.c).
  class Pager {
    const pageSize: nat
    var pages: PageFile
    var nPages: nat

    ghost predicate Valid()
      reads this
    {
      112 <= pageSize < 0x1_0000 && forall p :: p in pages ==> |pages[p]| == pageSize
    }

    constructor (pageSize: nat)
      requires 112 <= pageSize < 0x1_0000
      ensures Valid() && this.pageSize == pageSize && nPages == 0 && pages == map[]
    {
      this.pageSize := pageSize;
      this.pages := map[];
      this.nPages := 0;
    }

    function BytesOf(npage: nat): seq<byte>
      reads this
    {
      if npage in pages then pages[npage] else seq(pageSize, i => 0)
    }

    method AllocatePage() returns (npage: nat)
      modifies this`nPages
      ensures npage == nPages == old(nPages) + 1
    {
      nPages := nPages + 1;
      npage := nPages;
    }

    // None is CHIDB_EPAGENO.
    method ReadPage(npage: nat) returns (r: Option<seq<byte>>)
      requires Valid()
      ensures r == if 0 < npage <= nPages then Some(BytesOf(npage)) else None
    {
      if npage > nPages || npage == 0 {
        return None;
      }
      r := Some(BytesOf(npage));
    }

    method WritePage(npage: nat, bytes: seq<byte>) returns (ok: bool)
      requires Valid() && |bytes| == pageSize
      modifies this`pages
      ensures Valid() && (ok <==> npage <= nPages)
      ensures pages == if ok then old(pages)[npage := bytes] else old(pages)
    {
      if npage > nPages {
        return false;
      }
      pages := pages[npage := bytes];
      ok := true;
    }
  }

  // ---- nodes -------------------------------------------------------------------------------------

  // A node that was read from the page of t.
  ghost predicate Loaded(btn: BTreeNode, sh: Shape, t: Tree)
    reads btn, btn.data
  {
    && btn.npage == t.page && btn.data.Length == sh.pageSize < 0x1_0000
    && btn.ptype == NodeType(sh.index, t.Leaf?) && btn.Holds(NodeCells(sh.index, t))
    && btn.cellsOffset - btn.freeOffset == FreeSpace(sh, t) && btn.nCells == CellCount(t)
    && (t.Node? ==> btn.rightPage == NodeRight(t)) && btn.rightPage < 0x1_0000_0000
  }

  lemma ReadIsLoaded(btn: BTreeNode, sh: Shape, pages: PageFile, t: Tree)
    requires NodeStored(sh, pages, t) && sh.pageSize < 0x1_0000
    requires btn.npage == t.page && btn.data[..] == pages[t.page] && btn.Info() == ReadInfo(Base(t.page), pages[t.page])
    ensures Loaded(btn, sh, t)
  {
    hide Layout, Get2, Get4, FreeSpace;
    HeaderSpace(sh, pages, t);
  }

  // Room for a list of cells in an empty page.
  predicate HasRoom(pageSize: nat, npage: nat, t: byte, cells: seq<Cell>) {
    Base(npage) + HeaderSize(t) + 2 * |cells| + TotalSize(cells) <= pageSize
  }

  predicate CellsOfType(t: byte, cells: seq<Cell>) {
    forall i :: 0 <= i < |cells| ==> TypeOf(cells[i]) == t && CellFits(cells[i])
  }

  lemma {:induction false} PrefixTotal(cells: seq<Cell>, i: nat)
    requires i < |cells|
    ensures TotalSize(cells[..i]) + CellSize(cells[i]) == TotalSize(cells[..i + 1])
    ensures TotalSize(cells[..i + 1]) <= TotalSize(cells)
    decreases |cells| - i
  {
    assert cells[..i + 1][..i] == cells[..i];
    if i + 1 < |cells| {
      PrefixTotal(cells, i + 1);
    } else {
      assert cells[..i + 1] == cells;
    }
  }

  lemma AppendInserted(cells: seq<Cell>, i: nat)
    requires i < |cells|
    ensures Inserted(cells[..i], i, cells[i]) == cells[..i + 1]
  {
  }

  lemma LayoutTotal(base: nat, h: NodeInfo, d: seq<byte>, cells: seq<Cell>)
    requires Layout(base, h, d, cells)
    ensures h.cellsOffset + TotalSize(cells) == |d| && h.freeOffset == ArrayStart(base, h.ptype) + 2 * |cells|
  {
  }

  // Appends cells to an empty node, one insertCell at a time.
  method AppendCells(btn: BTreeNode, cells: seq<Cell>)
    requires btn.Holds([]) && CellsOfType(btn.ptype, cells)
    requires HasRoom(btn.data.Length, btn.npage, btn.ptype, cells)
    modifies btn, btn.data
    ensures btn.Holds(cells) && btn.ptype == old(btn.ptype) && btn.rightPage == old(btn.rightPage)
  {
    hide Layout, TotalSize, Inserted;
    assert cells[..0] == [];
    for i := 0 to |cells|
      invariant btn.Holds(cells[..i]) && btn.ptype == old(btn.ptype) && btn.rightPage == old(btn.rightPage)
    {
      PrefixTotal(cells, i);
      PrefixCount(btn, cells, i);
      LayoutTotal(Base(btn.npage), btn.Info(), btn.data[..], cells[..i]);
      var ok := btn.InsertCell(i, cells[i], cells[..i]);
      AppendInserted(cells, i);
    }
    assert cells[..|cells|] == cells;
  }

  lemma PrefixCount(btn: BTreeNode, cells: seq<Cell>, i: nat)
    requires i < |cells| && CellsOfType(btn.ptype, cells) && btn.Holds(cells[..i])
    ensures btn.nCells == i && TypeOf(cells[i]) == btn.ptype && CellFits(cells[i])
  {
    hide SlotsHold, ExtentsApart, TotalSize;
  }

  // All the cells of a node.
  method CopyCells(btn: BTreeNode, ghost cells: seq<Cell>) returns (r: seq<Cell>)
    requires btn.Holds(cells)
    ensures r == cells
  {
    hide TotalSize, SlotsHold, ExtentsApart;
    r := [];
    for i := 0 to btn.nCells
      invariant r == cells[..i]
    {
      var c := btn.GetCell(i, cells);
      r := r + [c.value];
    }
    assert cells[..|cells|] == cells;
  }

  // find_position
  method FindPosition(btn: BTreeNode, key: nat, ghost cells: seq<Cell>) returns (pos: nat)
    requires btn.Holds(cells)
    ensures IsPosition(cells, key, pos)
  {
    hide TotalSize, SlotsHold, ExtentsApart;
    pos := 0;
    while pos < btn.nCells
      invariant pos <= |cells| && forall i :: 0 <= i < pos ==> cells[i].key < key
    {
      var c := btn.GetCell(pos, cells);
      if c.value.key >= key {
        break;
      }
      pos := pos + 1;
    }
  }

  // ---- the file ------------------------------------------------------------------------------------

  class BTree {
    const pager: Pager

    constructor (pager: Pager)
      ensures this.pager == pager
    {
      this.pager := pager;
    }

    method GetNodeByPage(npage: nat) returns (r: Option<BTreeNode>)
      requires pager.Valid()
      ensures r.Some? <==> 0 < npage <= pager.nPages
      ensures r.Some? ==> fresh(r.value) && fresh(r.value.data) && r.value.npage == npage
      ensures r.Some? ==> r.value.data[..] == pager.BytesOf(npage) && |pager.BytesOf(npage)| == pager.pageSize
      ensures r.Some? ==> r.value.Info() == ReadInfo(Base(npage), pager.BytesOf(npage))
    {
      var bytes := pager.ReadPage(npage);
      if bytes.None? {
        return None;
      }
      var btn := new BTreeNode(npage, bytes.value);
      r := Some(btn);
    }

    // The node of t, which is known to be in its page.
    method LoadNode(ghost sh: Shape, ghost t: Tree, npage: nat) returns (btn: BTreeNode)
      requires pager.Valid() && sh.pageSize == pager.pageSize && NodeStored(sh, pager.pages, t)
      requires npage == t.page && 0 < npage <= pager.nPages
      ensures fresh(btn) && fresh(btn.data) && Loaded(btn, sh, t)
    {
      hide NodeStored, Loaded, ReadInfo;
      var r := GetNodeByPage(npage);
      btn := r.value;
      StoredPage(sh, pager.pages, t);
      ReadIsLoaded(btn, sh, pager.pages, t);
    }

    // chidb_Btree_writeNode
    method WriteNode(btn: BTreeNode, ghost cells: seq<Cell>)
      requires pager.Valid() && btn.Holds(cells) && btn.data.Length == pager.pageSize
      requires 0 < btn.npage <= pager.nPages && btn.rightPage < 0x1_0000_0000
      modifies pager`pages, btn.data
      ensures pager.Valid() && btn.npage in pager.pages
      ensures pager.pages == old(pager.pages)[btn.npage := pager.pages[btn.npage]]
      ensures PageHolds(Base(btn.npage), pager.pages[btn.npage], btn.ptype, cells, btn.rightPage)
    {
      hide PageHolds, Layout;
      btn.PutHeader(cells);
      var ok := pager.WritePage(btn.npage, btn.data[..]);
    }

    // chidb_Btree_initEmptyNode
    method InitEmptyNode(npage: nat, t: byte)
      requires pager.Valid() && IsType(t) && 0 < npage <= pager.nPages
      modifies pager`pages
      ensures pager.Valid() && npage in pager.pages
      ensures pager.pages == old(pager.pages)[npage := pager.pages[npage]]
      ensures PageHolds(Base(npage), pager.pages[npage], t, [], 0)
    {
      hide PageHolds, Layout;
      var r := GetNodeByPage(npage);
      var btn := r.value;
      btn.MakeEmpty(t);
      WriteNode(btn, []);
    }

    // chidb_Btree_newNode
    method NewNode(t: byte) returns (npage: nat)
      requires pager.Valid() && IsType(t)
      modifies pager
      ensures pager.Valid() && npage == pager.nPages == old(pager.nPages) + 1 && npage in pager.pages
      ensures pager.pages == old(pager.pages)[npage := pager.pages[npage]]
      ensures PageHolds(Base(npage), pager.pages[npage], t, [], 0)
    {
      npage := pager.AllocatePage();
      InitEmptyNode(npage, t);
    }

    // Fills an empty node with cells and a right page and writes it.
    method FillNode(npage: nat, t: byte, cells: seq<Cell>, right: nat)
      requires pager.Valid() && IsType(t) && 0 < npage <= pager.nPages && npage in pager.pages
      requires PageHolds(Base(npage), pager.pages[npage], t, [], 0)
      requires CellsOfType(t, cells) && HasRoom(pager.pageSize, npage, t, cells) && right < 0x1_0000_0000
      modifies pager`pages
      ensures pager.Valid() && npage in pager.pages
      ensures pager.pages == old(pager.pages)[npage := pager.pages[npage]]
      ensures PageHolds(Base(npage), pager.pages[npage], t, cells, right)
    {
      hide Layout, TotalSize, ReadInfo;
      var r := GetNodeByPage(npage);
      var btn := r.value;
      AppendCells(btn, cells);
      if IsInternal(t) {
        LayoutIgnoresRight(Base(npage), btn.Info(), btn.Info().(rightPage := right), btn.data[..], cells);
        btn.rightPage := right;
      }
      LeafRight(Base(npage), pager.pages[npage]);
      WriteNode(btn, cells);
      AnyRight(Base(npage), pager.pages[npage], t, cells, btn.rightPage, right);
    }

    // chidb_Btree_find on a table; None is CHIDB_ENOTFOUND.
    method FindEntry(npage: nat, key: nat, ghost sh: Shape, ghost t: Tree) returns (data: Option<seq<byte>>)
      requires pager.Valid() && sh.pageSize == pager.pageSize && !sh.index
      requires Rep(sh, pager.pages, t) && t.page == npage && PagesWithin(PagesOf(t), pager.nPages)
      ensures data == match Find(t, key) case None => None case Some(e) => Some(e.data)
      decreases Height(t)
    {
      hide Loaded, NodeStored;
      var btn := LoadNode(sh, t, npage);
      ghost var cells := NodeCells(sh.index, t);
      LoadedFields(btn, sh, t);
      if btn.ptype == TABLE_LEAF {
        data := ScanLeaf(btn, key, t);
      } else {
        var pos := FindPosition(btn, key, cells);
        KidPosition(sh.index, t.kids, key, pos);
        var child := ChildAt(btn, pos, sh, t);
        KidRep(sh, pager.pages, t.kids, pos);
        KidWithin(t.kids, pos, pager.nPages);
        data := FindEntry(child, key, sh, KidAt(t.kids, pos));
      }
    }

    // child_at: the page covered by a cell, or the right page.
    method ChildAt(btn: BTreeNode, pos: nat, ghost sh: Shape, ghost t: Tree) returns (child: nat)
      requires Loaded(btn, sh, t) && t.Node? && pos <= Count(t.kids)
      ensures child == KidAt(t.kids, pos).page
    {
      KidPage(sh.index, t.kids, pos);
      if pos == btn.nCells {
        child := btn.rightPage;
      } else {
        var c := btn.GetCell(pos, NodeCells(sh.index, t));
        child := ChildOf(c.value);
      }
    }

    // chidb_Btree_split: the lower half of c moves to a new page, and a cell for it goes into
    // the parent at position pos.
    method Split(parent: nat, child: nat, pos: nat, ghost sh: Shape, ghost p: Tree, ghost c: Tree) returns (newPage: nat)
      requires pager.Valid() && sh.pageSize == pager.pageSize && pager.nPages + 1 < 0x1_0000_0000
      requires p.Node? && NodeStored(sh, pager.pages, p) && NodeStored(sh, pager.pages, c)
      requires p.page == parent != child == c.page && 0 < parent <= pager.nPages && 0 < child <= pager.nPages
      requires pos <= Count(p.kids) && InternalCellSize(sh) + 2 <= FreeSpace(sh, p) && 0 < CellCount(c)
      modifies pager
      ensures pager.Valid() && newPage == pager.nPages == old(pager.nPages) + 1
      ensures SplitStored(sh, pager.pages, p, pos, c, newPage)
      ensures SameBut(old(pager.pages), pager.pages, {parent, child, newPage})
    {
      hide NodeStored, PageHolds, FreeSpace;
      var median := SplitHalves(child, sh, c);
      newPage := pager.nPages;
      StoredSame(sh, old(pager.pages), pager.pages, p);
      PromotedIs(sh, c, newPage);
      ghost var mid := pager.pages;
      AddCell(parent, pos, Promoted(median, newPage), sh, p);
      StoredSame(sh, mid, pager.pages, Trees.Split(c, newPage).lower);
      StoredSame(sh, mid, pager.pages, Trees.Split(c, newPage).upper);
    }

    // The two halves, each in its page; the median cell is left for the parent.
    method SplitHalves(child: nat, ghost sh: Shape, ghost c: Tree) returns (median: Cell)
      requires pager.Valid() && sh.pageSize == pager.pageSize && pager.nPages + 1 < 0x1_0000_0000
      requires NodeStored(sh, pager.pages, c) && child == c.page && 0 < child <= pager.nPages && 0 < CellCount(c)
      modifies pager
      ensures pager.Valid() && pager.nPages == old(pager.nPages) + 1
      ensures NodeStored(sh, pager.pages, Trees.Split(c, pager.nPages).lower)
      ensures NodeStored(sh, pager.pages, Trees.Split(c, pager.nPages).upper)
      ensures |NodeCells(sh.index, c)| == CellCount(c) && median == NodeCells(sh.index, c)[CellCount(c) / 2]
      ensures CellFits(median) && TypeOf(median) == NodeType(sh.index, c.Leaf?)
      ensures SameBut(old(pager.pages), pager.pages, {child, pager.nPages})
    {
      hide Loaded, NodeStored, PageHolds, CellsOfType, HasRoom, TypeOf, CellFits, NodeCells, NodeRight, ChildOf, CellCount,
        Trees.Split, FreeSpace, Layout, CellSize, HeaderSize, TotalSize, Base, BTreeNode.Holds;
      var childNode := LoadNode(sh, c, child);
      LoadedFields(childNode, sh, c);
      var t, n, oldRight := childNode.ptype, childNode.nCells, childNode.rightPage;
      var m, leaf := n / 2, !IsInternal(t);
      var cells := CopyCells(childNode, NodeCells(sh.index, c));
      HalvesFit(sh, pager.pages, c, pager.nPages + 1);
      ChildFits(cells[m]);
      median := cells[m];
      var newPage := NewNode(t);
      SplitNodes(sh.index, c, newPage);
      ghost var s := Trees.Split(c, newPage);
      StoreHalf(newPage, t, if leaf then cells[..m + 1] else cells[..m], if leaf then 0 else ChildOf(median), sh, s.lower);
      ghost var mid := pager.pages;
      InitEmptyNode(child, t);
      StoreHalf(child, t, cells[m + 1..], oldRight, sh, s.upper);
      StoredSame(sh, mid, pager.pages, s.lower);
    }

    method StoreHalf(npage: nat, t: byte, cells: seq<Cell>, right: nat, ghost sh: Shape, ghost half: Tree)
      requires pager.Valid() && sh.pageSize == pager.pageSize && 0 < npage <= pager.nPages && npage in pager.pages
      requires PageHolds(Base(npage), pager.pages[npage], t, [], 0)
      requires t == NodeType(sh.index, half.Leaf?) && cells == NodeCells(sh.index, half) && npage == half.page
      requires (half.Node? ==> right == NodeRight(half)) && right < 0x1_0000_0000
      requires CellsOfType(t, cells) && HasRoom(pager.pageSize, npage, t, cells)
      modifies pager`pages
      ensures pager.Valid() && npage in pager.pages
      ensures pager.pages == old(pager.pages)[npage := pager.pages[npage]]
      ensures NodeStored(sh, pager.pages, half)
    {
      hide PageHolds, NodeStored, CellsOfType, HasRoom, NodeCells, NodeRight;
      FillNode(npage, t, cells, right);
      HeldIsStored(sh, pager.pages, half, right);
    }

    // A cell for a child page goes into an internal node.
    method AddCell(npage: nat, pos: nat, cell: Cell, ghost sh: Shape, ghost p: Tree)
      requires pager.Valid() && sh.pageSize == pager.pageSize && NodeStored(sh, pager.pages, p) && p.Node?
      requires p.page == npage && 0 < npage <= pager.nPages && pos <= Count(p.kids)
      requires CellFits(cell) && TypeOf(cell) == NodeType(sh.index, false) && CellSize(cell) == InternalCellSize(sh)
      requires InternalCellSize(sh) + 2 <= FreeSpace(sh, p)
      modifies pager`pages
      ensures pager.Valid() && npage in pager.pages
      ensures pager.pages == old(pager.pages)[npage := pager.pages[npage]]
      ensures PageHolds(Base(npage), pager.pages[npage], NodeType(sh.index, false),
                        Inserted(KidCells(sh.index, p.kids), pos, cell), RightOf(p.kids))
    {
      hide Loaded, NodeStored, PageHolds, TypeOf, CellFits, Inserted, FreeSpace, Layout, CellSize;
      var btn := LoadNode(sh, p, npage);
      LoadedFields(btn, sh, p);
      var ok := btn.InsertCell(pos, cell, NodeCells(sh.index, p));
      WriteNode(btn, Inserted(NodeCells(sh.index, p), pos, cell));
    }

    // The leaf case of chidb_Btree_insertNonFull.
    method InsertInLeaf(npage: nat, cell: Cell, ghost sh: Shape, ghost t: Tree, ghost e: Entry) returns (duplicate: bool)
      requires pager.Valid() && sh.pageSize == pager.pageSize && NodeStored(sh, pager.pages, t) && t.Leaf?
      requires t.page == npage && 0 < npage <= pager.nPages
      requires cell == EntryCell(sh.index, e) && CellFits(cell) && LeafCellSize(sh, e) + 2 <= FreeSpace(sh, t)
      modifies pager`pages
      ensures pager.Valid() && duplicate == InsertLeaf(t, e, pager.nPages).duplicate
      ensures NodeStored(sh, pager.pages, InsertLeaf(t, e, pager.nPages).tree)
      ensures SameBut(old(pager.pages), pager.pages, {npage})
    {
      hide Loaded, NodeStored, PageHolds, FreeSpace, Inserted, CellFits, Layout, TypeOf, CellSize, EntryCell, LeafCells, NodeType,
        LeafCellSize;
      var btn := LoadNode(sh, t, npage);
      LoadedFields(btn, sh, t);
      EntryCellIs(sh, e);
      ghost var cells := LeafCells(sh.index, t.cells);
      var pos := FindPosition(btn, cell.key, cells);
      LeafPosition(sh.index, t.cells, e.key, pos);
      LeafKey(sh.index, t.cells, pos);
      if pos < btn.nCells {
        var existing := btn.GetCell(pos, cells);
        if existing.value.key == cell.key {
          return true;
        }
      }
      var ok := btn.InsertCell(pos, cell, cells);
      WriteNode(btn, Inserted(cells, pos, cell));
      InsertedLeaf(sh.index, t.cells, pos, e);
      HeldIsStored(sh, pager.pages, InsertLeaf(t, e, pager.nPages).tree, btn.rightPage);
      duplicate := false;
    }

    // The child that covers a key is full for a cell.
    method IsFull(npage: nat, cell: Cell, ghost sh: Shape, ghost c: Tree, ghost e: Entry) returns (full: bool)
      requires pager.Valid() && sh.pageSize == pager.pageSize && NodeStored(sh, pager.pages, c)
      requires c.page == npage && 0 < npage <= pager.nPages && cell == EntryCell(sh.index, e)
      ensures full == Full(sh, c, e)
    {
      hide Loaded, NodeStored, FreeSpace;
      var btn := LoadNode(sh, c, npage);
      LoadedFields(btn, sh, c);
      full := btn.cellsOffset - btn.freeOffset < SizeIn(btn.ptype, cell) + 2;
    }

    // The page of the child that covers a key.
    method CoveringPage(npage: nat, key: nat, ghost sh: Shape, ghost t: Tree) returns (pos: nat, child: nat)
      requires pager.Valid() && sh.pageSize == pager.pageSize && NodeStored(sh, pager.pages, t) && t.Node?
      requires t.page == npage && 0 < npage <= pager.nPages
      ensures pos == KidPos(t.kids, key) && child == KidAt(t.kids, pos).page
    {
      hide Loaded, NodeStored;
      var btn := LoadNode(sh, t, npage);
      LoadedFields(btn, sh, t);
      pos := FindPosition(btn, key, KidCells(sh.index, t.kids));
      KidPosition(sh.index, t.kids, key, pos);
      child := ChildAt(btn, pos, sh, t);
    }

    method IsLeafPage(npage: nat, ghost sh: Shape, ghost t: Tree) returns (leaf: bool)
      requires pager.Valid() && sh.pageSize == pager.pageSize && NodeStored(sh, pager.pages, t)
      requires t.page == npage && 0 < npage <= pager.nPages
      ensures leaf == t.Leaf?
    {
      hide NodeStored;
      var btn := LoadNode(sh, t, npage);
      leaf := !IsInternal(btn.ptype);
    }

    // A full child is split before the descent; the node then has the children of MakeRoom.
    method RoomBelow(npage: nat, cell: Cell, ghost sh: Shape, ghost t: Tree, ghost e: Entry) returns (child: nat)
      requires pager.Valid() && sh.pageSize == pager.pageSize && Rep(sh, pager.pages, t) && t.page == npage && t.Node?
      requires Insertable(sh, t, e, pager.nPages) && cell == EntryCell(sh.index, e)
      modifies pager
      ensures pager.Valid() && pager.nPages == PagesAfterRoom(sh, t.kids, e, old(pager.nPages))
      ensures var kids := MakeRoom(sh, t.kids, e, old(pager.nPages));
        Rep(sh, pager.pages, Node(npage, kids)) && child == KidAt(kids, KidPos(kids, e.key)).page
      ensures SameElsewhere(old(pager.pages), pager.pages, old(pager.nPages), PagesOf(t))
    {
      hide NodeStored, PageHolds, FreeSpace, RoomOnPath, Distinct, KidsDistinct, PagesOf, KidsPages, CellFits, KidsRep, SplitStored, EntryCell;
      StoredRoot(sh, pager.pages, t);
      RoomHere(sh, t, e, pager.nPages);
      ghost var c := KidAt(t.kids, KidPos(t.kids, e.key));
      KeyOf(sh.index, e);
      var pos, childPage := CoveringPage(npage, cell.key, sh, t);
      KidOf(sh, pager.pages, t, pos, pager.nPages);
      var full := IsFull(childPage, cell, sh, c, e);
      child := childPage;
      if full {
        FullHasCells(sh, c, e);
        var newPage := Split(npage, childPage, pos, sh, t, c);
        SplitRep(sh, old(pager.pages), pager.pages, t, pos, newPage);
        ghost var s := Trees.Split(c, newPage);
        ghost var kids := AddKid(t.kids, pos, s.lower, s.sep, s.upper);
        StoredRoot(sh, pager.pages, Node(npage, kids));
        var _, again := CoveringPage(npage, cell.key, sh, Node(npage, kids));
        child := again;
        SplitElsewhere(old(pager.pages), pager.pages, t, pos, newPage);
      }
    }

    // chidb_Btree_insertNonFull
    method InsertNonFull(npage: nat, cell: Cell, ghost sh: Shape, ghost t: Tree, ghost e: Entry) returns (duplicate: bool)
      requires pager.Valid() && sh.pageSize == pager.pageSize && Rep(sh, pager.pages, t) && t.page == npage
      requires Insertable(sh, t, e, pager.nPages) && cell == EntryCell(sh.index, e)
      modifies pager
      ensures pager.Valid()
      ensures var r := Trees.InsertNonFull(sh, t, e, old(pager.nPages));
        duplicate == r.duplicate && pager.nPages == r.pages && Rep(sh, pager.pages, r.tree)
      ensures SameElsewhere(old(pager.pages), pager.pages, old(pager.nPages), PagesOf(t))
      decreases Height(t)
    {
      hide NodeStored, PageHolds, FreeSpace, RoomOnPath, Distinct, KidsDistinct, CellFits, KidsRep, EntryCell, MakeRoom, PagesAfterRoom;
      StoredRoot(sh, pager.pages, t);
      RoomHere(sh, t, e, pager.nPages);
      var leaf := IsLeafPage(npage, sh, t);
      if leaf {
        duplicate := InsertInLeaf(npage, cell, sh, t, e);
      } else {
        var child := RoomBelow(npage, cell, sh, t, e);
        ghost var kids, mid, n := MakeRoom(sh, t.kids, e, old(pager.nPages)), pager.pages, pager.nPages;
        ghost var pos := KidPos(kids, e.key);
        BelowInsertable(sh, t, e, old(pager.nPages));
        KidRepOf(sh, mid, npage, kids, pos);
        duplicate := InsertNonFull(child, cell, sh, KidAt(kids, pos), e);
        BelowRep(sh, mid, pager.pages, npage, kids, e, n);
        BelowElsewhere(sh, old(pager.pages), mid, pager.pages, t, e, old(pager.nPages));
      }
    }

    // A full root: its cells move to a new page, which is split below the old, now internal page.
    method SplitRoot(nroot: nat, ghost sh: Shape, ghost t: Tree)
      requires pager.Valid() && sh.pageSize == pager.pageSize && Rep(sh, pager.pages, t) && t.page == nroot
      requires Distinct(t) && PagesWithin(PagesOf(t), pager.nPages) && pager.nPages + 2 < 0x1_0000_0000
      requires 0 < CellCount(t) && 112 + InternalCellSize(sh) + 2 <= sh.pageSize
      modifies pager
      ensures pager.Valid() && pager.nPages == old(pager.nPages) + 2
      ensures Rep(sh, pager.pages, GrowRoot(t, old(pager.nPages)))
      ensures SameElsewhere(old(pager.pages), pager.pages, old(pager.nPages), PagesOf(t))
    {
      hide Loaded, NodeStored, PageHolds, CellsOfType, HasRoom, NodeCells, NodeRight, CellCount, GrowRoot, Distinct, KidsRep, SplitStored,
        Trees.Split, FreeSpace, Layout, CellSize, HeaderSize, TotalSize, Base, BTreeNode.Holds, PagesWithin, WithPage, Rep, PagesOf;
      StoredRoot(sh, pager.pages, t);
      RootWithin(t, pager.nPages);
      var rootNode := LoadNode(sh, t, nroot);
      LoadedFields(rootNode, sh, t);
      var rt, right := rootNode.ptype, rootNode.rightPage;
      var cells := CopyCells(rootNode, NodeCells(sh.index, t));
      MovedFits(sh, pager.pages, t, pager.nPages + 1);
      var nC := NewNode(rt);
      ghost var c, p := WithPage(t, nC), Node(nroot, Last(WithPage(t, nC)));
      StoreHalf(nC, rt, cells, right, sh, c);
      ghost var mid := pager.pages;
      var newType := if rt == INDEX_LEAF || rt == INDEX_INTERNAL then INDEX_INTERNAL else TABLE_INTERNAL;
      InitEmptyNode(nroot, newType);
      EmptyRoot(sh, nroot, c);
      StoreHalf(nroot, newType, [], nC, sh, p);
      StoredSame(sh, mid, pager.pages, c);
      MovedRep(sh, old(pager.pages), pager.pages, t, nroot, nC);
      ghost var before := pager.pages;
      var newPage := Split(nroot, nC, 0, sh, p, c);
      RootParts(t, nroot, nC, newPage);
      SplitRep(sh, before, pager.pages, p, 0, newPage);
      GrownIs(t, old(pager.nPages));
    }

    // chidb_Btree_insert
    method Insert(nroot: nat, cell: Cell, ghost sh: Shape, ghost t: Tree, ghost e: Entry) returns (duplicate: bool)
      requires pager.Valid() && sh.pageSize == pager.pageSize && Rep(sh, pager.pages, t) && t.page == nroot
      requires RootInsertable(sh, t, e, pager.nPages) && cell == EntryCell(sh.index, e)
      modifies pager
      ensures pager.Valid()
      ensures var r := Trees.Insert(sh, t, e, old(pager.nPages));
        duplicate == r.duplicate && pager.nPages == r.pages && Rep(sh, pager.pages, r.tree)
      ensures SameElsewhere(old(pager.pages), pager.pages, old(pager.nPages), PagesOf(t))
    {
      hide NodeStored, GrowRoot, RoomOnPath, Full, CellFits, EntryCell, Rep, Distinct, Trees.InsertNonFull, PagesOf, PagesWithin;
      StoredRoot(sh, pager.pages, t);
      RootWithin(t, pager.nPages);
      var full := IsFull(nroot, cell, sh, t, e);
      if full {
        FullHasCells(sh, t, e);
        SplitRoot(nroot, sh, t);
        GrownInsertable(sh, t, e, old(pager.nPages));
        ghost var mid := pager.pages;
        duplicate := InsertNonFull(nroot, cell, sh, GrowRoot(t, old(pager.nPages)), e);
        GrownElsewhere(old(pager.pages), mid, pager.pages, t, old(pager.nPages));
      } else {
        duplicate := InsertNonFull(nroot, cell, sh, t, e);
      }
    }
  }

  lemma SplitNodes(index: bool, c: Tree, newPage: nat)
    requires 0 < CellCount(c)
    ensures var s, cells, m := Trees.Split(c, newPage), NodeCells(index, c), CellCount(c) / 2;
      && |cells| == CellCount(c) && s.lower.page == newPage && s.upper.page == c.page
      && s.lower.Leaf? == c.Leaf? && s.upper.Leaf? == c.Leaf?
      && NodeCells(index, s.lower) == (if c.Leaf? then cells[..m + 1] else cells[..m])
      && NodeCells(index, s.upper) == cells[m + 1..]
      && (c.Node? ==> NodeRight(s.lower) == ChildOf(cells[m]) && NodeRight(s.upper) == NodeRight(c))
  {
    SplitCells(index, c, newPage);
  }

  lemma ChildFits(c: Cell)
    requires CellFits(c)
    ensures ChildOf(c) < 0x1_0000_0000
  {
  }

  lemma HeldIsStored(sh: Shape, pages: PageFile, t: Tree, right: nat)
    requires t.page in pages && |pages[t.page]| == sh.pageSize && (t.Node? ==> right == NodeRight(t))
    requires PageHolds(Base(t.page), pages[t.page], NodeType(sh.index, t.Leaf?), NodeCells(sh.index, t), right)
    ensures NodeStored(sh, pages, t)
  {
    hide Layout, ReadInfo;
  }

  lemma StoredSame(sh: Shape, a: PageFile, b: PageFile, t: Tree)
    requires NodeStored(sh, a, t) && (t.page in a ==> t.page in b && b[t.page] == a[t.page])
    ensures NodeStored(sh, b, t)
  {
  }

  lemma LeafRight(base: nat, d: seq<byte>)
    requires base + 12 <= |d|
    ensures !IsInternal(ReadInfo(base, d).ptype) ==> ReadInfo(base, d).rightPage == 0
  {
    hide Get2, Get4;
  }

  lemma AnyRight(base: nat, d: seq<byte>, t: byte, cells: seq<Cell>, a: nat, b: nat)
    requires PageHolds(base, d, t, cells, a) && (IsInternal(t) ==> a == b)
    ensures PageHolds(base, d, t, cells, b)
  {
    hide Layout, ReadInfo;
  }

  lemma StoredPage(sh: Shape, pages: PageFile, t: Tree)
    requires NodeStored(sh, pages, t)
    ensures t.page in pages && |pages[t.page]| == sh.pageSize
  {
  }

  // ---- what the methods rely on ------------------------------------------------------------------------

  ghost predicate PagesWithin(s: set<nat>, n: nat) {
    forall p :: p in s ==> 0 < p <= n
  }

  lemma LoadedFields(btn: BTreeNode, sh: Shape, t: Tree)
    requires Loaded(btn, sh, t)
    ensures btn.npage == t.page && btn.data.Length == sh.pageSize && btn.ptype == NodeType(sh.index, t.Leaf?)
    ensures btn.Holds(NodeCells(sh.index, t)) && btn.cellsOffset - btn.freeOffset == FreeSpace(sh, t)
    ensures btn.nCells == CellCount(t) == |NodeCells(sh.index, t)|
    ensures (t.Node? ==> btn.rightPage == NodeRight(t)) && btn.rightPage < 0x1_0000_0000
  {
    hide SlotsHold, ExtentsApart, TotalSize, FreeSpace;
  }

  lemma KidWithin(kids: Kids, i: nat, n: nat)
    requires PagesWithin(KidsPages(kids), n) && i <= Count(kids)
    ensures PagesWithin(PagesOf(KidAt(kids, i)), n) && 0 < KidAt(kids, i).page <= n
  {
    KidPagesIn(kids, i);
  }

  lemma {:induction false} KidPagesIn(kids: Kids, i: nat)
    requires i <= Count(kids)
    ensures PagesOf(KidAt(kids, i)) <= KidsPages(kids) && KidAt(kids, i).page in PagesOf(KidAt(kids, i))
  {
    if i != 0 {
      KidPagesIn(kids.rest, i - 1);
    }
  }

  // The scan of a leaf.
  method ScanLeaf(btn: BTreeNode, key: nat, ghost t: Tree) returns (data: Option<seq<byte>>)
    requires t.Leaf? && btn.Holds(LeafCells(false, t.cells))
    ensures data == match Lookup(t.cells, key) case None => None case Some(e) => Some(e.data)
  {
    hide SlotsHold, ExtentsApart, TotalSize;
    ghost var cells := LeafCells(false, t.cells);
    var i := 0;
    assert t.cells[0..] == t.cells;
    while i < btn.nCells
      invariant i <= |t.cells| && Lookup(t.cells, key) == Lookup(t.cells[i..], key)
    {
      var c := btn.GetCell(i, cells);
      if c.value.key == key {
        return Some(c.value.data);
      }
      assert t.cells[i..][1..] == t.cells[i + 1..];
      i := i + 1;
    }
    data := None;
  }

  // All pages but some are as they were.
  ghost predicate SameBut(a: PageFile, b: PageFile, s: set<nat>) {
    forall p :: p in a && p !in s ==> p in b && b[p] == a[p]
  }

  // The cell for the lower half, made from the median cell.
  function Promoted(median: Cell, newPage: nat): Cell {
    match median
    case TableInternal(key, _) => TableInternal(key, newPage)
    case TableLeaf(key, _) => TableInternal(key, newPage)
    case IndexInternal(key, _, pk) => IndexInternal(key, newPage, pk)
    case IndexLeaf(key, pk) => IndexInternal(key, newPage, pk)
  }

  // Node c split, with the lower half in newPage and its cell in the parent.
  ghost predicate SplitStored(sh: Shape, pages: PageFile, p: Tree, pos: nat, c: Tree, newPage: nat)
    requires p.Node? && pos <= Count(p.kids) && 0 < CellCount(c)
  {
    var s := Trees.Split(c, newPage);
    && NodeStored(sh, pages, s.lower) && NodeStored(sh, pages, s.upper)
    && p.page in pages && |pages[p.page]| == sh.pageSize
    && PageHolds(Base(p.page), pages[p.page], NodeType(sh.index, false),
                 Inserted(KidCells(sh.index, p.kids), pos, SepCell(sh.index, s.sep, newPage)), RightOf(p.kids))
  }

  lemma {:induction false} TotalParts(cells: seq<Cell>, m: nat)
    requires m < |cells|
    ensures TotalSize(cells[..m]) + CellSize(cells[m]) + TotalSize(cells[m + 1..]) == TotalSize(cells)
    ensures TotalSize(cells[..m + 1]) == TotalSize(cells[..m]) + CellSize(cells[m])
  {
    assert cells == cells[..m + 1] + cells[m + 1..];
    TotalAppend(cells[..m + 1], cells[m + 1..]);
    PrefixTotal(cells, m);
  }

  lemma StoredCells(sh: Shape, pages: PageFile, c: Tree)
    requires NodeStored(sh, pages, c)
    ensures var t, cells := NodeType(sh.index, c.Leaf?), NodeCells(sh.index, c);
      |cells| == CellCount(c) && CellsOfType(t, cells) && HasRoom(sh.pageSize, c.page, t, cells)
  {
    hide TotalSize, CellFits, CellAt, Get2, Get4, FreeSpace, Slot, ExtentsApart;
  }

  lemma SliceOfType(t: byte, cells: seq<Cell>, i: nat, j: nat)
    requires CellsOfType(t, cells) && i <= j <= |cells|
    ensures CellsOfType(t, cells[i..j])
  {
    hide CellFits, TypeOf;
  }

  // Each half of a node fits into an empty page.
  lemma HalvesFit(sh: Shape, pages: PageFile, c: Tree, newPage: nat)
    requires NodeStored(sh, pages, c) && 0 < CellCount(c) && 1 < newPage
    ensures var t, cells, m := NodeType(sh.index, c.Leaf?), NodeCells(sh.index, c), CellCount(c) / 2;
      && |cells| == CellCount(c)
      && CellsOfType(t, cells[..m]) && CellsOfType(t, cells[..m + 1]) && CellsOfType(t, cells[m + 1..])
      && CellFits(cells[m]) && TypeOf(cells[m]) == t
      && HasRoom(sh.pageSize, newPage, t, cells[..m]) && HasRoom(sh.pageSize, newPage, t, cells[..m + 1])
      && HasRoom(sh.pageSize, c.page, t, cells[m + 1..])
  {
    hide TotalSize, CellFits, FreeSpace, NodeStored, CellSize, TypeOf, NodeCells, NodeType, HeaderSize;
    StoredCells(sh, pages, c);
    var t, cells, m := NodeType(sh.index, c.Leaf?), NodeCells(sh.index, c), CellCount(c) / 2;
    TotalParts(cells, m);
    SliceOfType(t, cells, 0, m);
    SliceOfType(t, cells, 0, m + 1);
    SliceOfType(t, cells, m + 1, |cells|);
  }

  lemma PromotedIs(sh: Shape, c: Tree, newPage: nat)
    requires 0 < CellCount(c) && |NodeCells(sh.index, c)| == CellCount(c) && newPage < 0x1_0000_0000
    requires var cell := NodeCells(sh.index, c)[CellCount(c) / 2]; CellFits(cell) && TypeOf(cell) == NodeType(sh.index, c.Leaf?)
    ensures var cell := Promoted(NodeCells(sh.index, c)[CellCount(c) / 2], newPage);
      && cell == SepCell(sh.index, Trees.Split(c, newPage).sep, newPage) && CellFits(cell)
      && TypeOf(cell) == NodeType(sh.index, false) && CellSize(cell) == InternalCellSize(sh)
  {
    SplitCells(sh.index, c, newPage);
  }

  // ---- insertion -----------------------------------------------------------------------------------------

  // cell_size: what a cell would take in a node of a type.
  function SizeIn(t: byte, c: Cell): nat {
    if t == TABLE_INTERNAL then 8
    else if t == INDEX_INTERNAL then 16
    else if t == INDEX_LEAF then 12
    else if c.TableLeaf? then 8 + |c.data| else 8
  }

  // Pages up to n outside a set are as they were.
  ghost predicate SameElsewhere(a: PageFile, b: PageFile, n: nat, s: set<nat>) {
    forall p :: p in a && p <= n && p !in s ==> p in b && b[p] == a[p]
  }

  // What an insertion into a stored tree asks for.
  ghost predicate Insertable(sh: Shape, t: Tree, e: Entry, n: nat) {
    && Distinct(t) && PagesWithin(PagesOf(t), n) && n + Height(t) < 0x1_0000_0000
    && EntryFits(sh, e) && CellFits(EntryCell(sh.index, e)) && RoomOnPath(sh, t, e, n)
  }

  lemma KeyOf(index: bool, e: Entry)
    ensures EntryCell(index, e).key == e.key
  {
  }

  lemma LeafKey(index: bool, es: seq<Entry>, pos: nat)
    ensures |LeafCells(index, es)| == |es| && (pos < |es| ==> LeafCells(index, es)[pos].key == es[pos].key)
  {
  }

  lemma EntryCellIs(sh: Shape, e: Entry)
    ensures EntryCell(sh.index, e).key == e.key && TypeOf(EntryCell(sh.index, e)) == NodeType(sh.index, true)
    ensures CellSize(EntryCell(sh.index, e)) == LeafCellSize(sh, e)
  {
  }

  lemma InsertedLeaf(index: bool, es: seq<Entry>, pos: nat, e: Entry)
    requires pos <= |es|
    ensures Inserted(LeafCells(index, es), pos, EntryCell(index, e)) == LeafCells(index, es[..pos] + [e] + es[pos..])
  {
  }

  lemma StoredRoot(sh: Shape, pages: PageFile, t: Tree)
    requires Rep(sh, pages, t)
    ensures NodeStored(sh, pages, t) && t.page in PagesOf(t) && (t.Node? ==> KidsRep(sh, pages, t.kids))
  {
  }

  lemma RoomHere(sh: Shape, t: Tree, e: Entry, n: nat)
    requires Insertable(sh, t, e, n)
    ensures Needed(sh, t, e) <= FreeSpace(sh, t) && t.page in PagesOf(t) && 0 < t.page <= n
  {
  }

  lemma FullHasCells(sh: Shape, c: Tree, e: Entry)
    requires Full(sh, c, e) && EntryFits(sh, e)
    ensures 0 < CellCount(c)
  {
  }

  // A child of a stored node.
  lemma KidOf(sh: Shape, pages: PageFile, t: Tree, pos: nat, n: nat)
    requires Rep(sh, pages, t) && t.Node? && pos <= Count(t.kids) && Distinct(t) && PagesWithin(PagesOf(t), n)
    ensures var c := KidAt(t.kids, pos);
      && Rep(sh, pages, c) && NodeStored(sh, pages, c) && c.page != t.page && 0 < c.page <= n
      && PagesOf(c) <= PagesOf(t) && c.page in PagesOf(c)
  {
    hide NodeStored;
    KidRep(sh, pages, t.kids, pos);
    KidPagesIn(t.kids, pos);
  }

  lemma KidRepOf(sh: Shape, pages: PageFile, page: nat, kids: Kids, pos: nat)
    requires Rep(sh, pages, Node(page, kids)) && pos <= Count(kids)
    ensures Rep(sh, pages, KidAt(kids, pos))
  {
    hide NodeStored;
    KidRep(sh, pages, kids, pos);
  }

  lemma SplitElsewhere(a: PageFile, b: PageFile, t: Tree, pos: nat, newPage: nat)
    requires t.Node? && pos <= Count(t.kids) && SameBut(a, b, {t.page, KidAt(t.kids, pos).page, newPage})
    ensures 0 < newPage ==> SameElsewhere(a, b, newPage - 1, PagesOf(t))
  {
    KidPagesIn(t.kids, pos);
  }

  // The pages after a split hold the node with the split child.
  lemma SplitRep(sh: Shape, a: PageFile, b: PageFile, t: Tree, pos: nat, newPage: nat)
    requires t.Node? && pos <= Count(t.kids) && Rep(sh, a, t) && Distinct(t) && newPage !in PagesOf(t)
    requires 0 < CellCount(KidAt(t.kids, pos)) && SplitStored(sh, b, t, pos, KidAt(t.kids, pos), newPage)
    requires SameBut(a, b, {t.page, KidAt(t.kids, pos).page, newPage})
    ensures var s := Trees.Split(KidAt(t.kids, pos), newPage);
      Rep(sh, b, Node(t.page, AddKid(t.kids, pos, s.lower, s.sep, s.upper)))
  {
    hide NodeStored, PageHolds, SplitKids, KidCells;
    var c := KidAt(t.kids, pos);
    var s := Trees.Split(c, newPage);
    KidPagesAround(t.kids, pos);
    KidRep(sh, a, t.kids, pos);
    HalvesRep(sh, a, b, c, t.page, newPage);
    SplitKidRep(sh, a, b, t.kids, pos, s.lower, s.sep, s.upper);
    SplitPagesAre(c, newPage);
    AddKidCells(sh.index, t.kids, pos, s.lower, s.sep, s.upper);
    HeldIsStored(sh, b, Node(t.page, AddKid(t.kids, pos, s.lower, s.sep, s.upper)), RightOf(t.kids));
  }

  lemma SplitPagesAre(c: Tree, newPage: nat)
    requires 0 < CellCount(c)
    ensures Trees.Split(c, newPage).lower.page == newPage && Trees.Split(c, newPage).upper.page == c.page
  {
  }

  lemma HalvesRep(sh: Shape, a: PageFile, b: PageFile, c: Tree, parent: nat, newPage: nat)
    requires Rep(sh, a, c) && Distinct(c) && parent !in PagesOf(c) && newPage !in PagesOf(c) && 0 < CellCount(c)
    requires SameBut(a, b, {parent, c.page, newPage})
    requires NodeStored(sh, b, Trees.Split(c, newPage).lower) && NodeStored(sh, b, Trees.Split(c, newPage).upper)
    ensures Rep(sh, b, Trees.Split(c, newPage).lower) && Rep(sh, b, Trees.Split(c, newPage).upper)
  {
    hide NodeStored;
    if c.Node? {
      var m := Count(c.kids) / 2;
      KidsRepFrame(sh, a, b, c.kids);
      SplitKidsRep(sh, b, c.kids, m);
    }
  }

  lemma BelowInsertable(sh: Shape, t: Tree, e: Entry, n: nat)
    requires Insertable(sh, t, e, n) && t.Node?
    ensures var kids, n' := MakeRoom(sh, t.kids, e, n), PagesAfterRoom(sh, t.kids, e, n);
      && Insertable(sh, KidAt(kids, KidPos(kids, e.key)), e, n') && Height(KidAt(kids, KidPos(kids, e.key))) < Height(t)
      && Distinct(Node(t.page, kids)) && UpTo(PagesOf(Node(t.page, kids)), n')
  {
    hide MakeRoom, CellFits, EntryCell, FreeSpace;
    var kids, n' := MakeRoom(sh, t.kids, e, n), PagesAfterRoom(sh, t.kids, e, n);
    var pos := KidPos(kids, e.key);
    MakeRoomPages(sh, t.kids, e, n);
    KidPagesAround(kids, pos);
  }

  // After the descent into one child, the node holds the tree with that child replaced.
  lemma BelowRep(sh: Shape, a: PageFile, b: PageFile, page: nat, kids: Kids, e: Entry, n: nat)
    requires EntryFits(sh, e) && Rep(sh, a, Node(page, kids)) && Distinct(Node(page, kids)) && UpTo(PagesOf(Node(page, kids)), n)
    requires var c := KidAt(kids, KidPos(kids, e.key));
      SameElsewhere(a, b, n, PagesOf(c)) && Rep(sh, b, Trees.InsertNonFull(sh, c, e, n).tree)
    ensures var pos := KidPos(kids, e.key);
      Rep(sh, b, Node(page, SetKid(kids, pos, Trees.InsertNonFull(sh, KidAt(kids, pos), e, n).tree)))
  {
    hide NodeStored, PageHolds, KidCells;
    var pos := KidPos(kids, e.key);
    var c := KidAt(kids, pos);
    var r := Trees.InsertNonFull(sh, c, e, n);
    StoredPage(sh, a, Node(page, kids));
    KidPagesAround(kids, pos);
    InsertNonFullPages(sh, c, e, n);
    assert page in PagesOf(Node(page, kids)) && page !in PagesOf(c);
    SetKidRep(sh, a, b, kids, pos, r.tree);
    SetKidCells(sh.index, kids, pos, r.tree);
    StoredKept(sh, a, b, Node(page, kids), Node(page, SetKid(kids, pos, r.tree)));
  }

  lemma StoredKept(sh: Shape, a: PageFile, b: PageFile, t: Tree, u: Tree)
    requires NodeStored(sh, a, t) && t.page in b && b[t.page] == a[t.page] && u.page == t.page && u.Leaf? == t.Leaf?
    requires NodeCells(sh.index, u) == NodeCells(sh.index, t) && NodeRight(u) == NodeRight(t)
    ensures NodeStored(sh, b, u)
  {
  }

  lemma BelowElsewhere(sh: Shape, a: PageFile, mid: PageFile, b: PageFile, t: Tree, e: Entry, n: nat)
    requires Insertable(sh, t, e, n) && t.Node? && SameElsewhere(a, mid, n, PagesOf(t))
    requires var kids, n' := MakeRoom(sh, t.kids, e, n), PagesAfterRoom(sh, t.kids, e, n);
      SameElsewhere(mid, b, n', PagesOf(KidAt(kids, KidPos(kids, e.key))))
    ensures SameElsewhere(a, b, n, PagesOf(t))
  {
    hide MakeRoom, CellFits, EntryCell, FreeSpace, RoomOnPath;
    var kids := MakeRoom(sh, t.kids, e, n);
    MakeRoomPages(sh, t.kids, e, n);
    KidPagesIn(kids, KidPos(kids, e.key));
  }

  // ---- the root --------------------------------------------------------------------------------------------

  // What chidb_Btree_insert asks for: room on the way down, after a root split if there is one.
  ghost predicate RootInsertable(sh: Shape, t: Tree, e: Entry, n: nat) {
    && Distinct(t) && PagesWithin(PagesOf(t), n) && n + 3 + Height(t) < 0x1_0000_0000
    && EntryFits(sh, e) && CellFits(EntryCell(sh.index, e))
    && (Full(sh, t, e) ==> RoomOnPath(sh, GrowRoot(t, n), e, n + 2))
    && (!Full(sh, t, e) ==> RoomOnPath(sh, t, e, n))
  }

  lemma RootWithin(t: Tree, n: nat)
    requires PagesWithin(PagesOf(t), n)
    ensures t.page in PagesOf(t) && 0 < t.page <= n && n + 1 !in PagesOf(t) && n + 2 !in PagesOf(t)
  {
  }

  // A moved root fits into a fresh page.
  lemma MovedFits(sh: Shape, pages: PageFile, t: Tree, newPage: nat)
    requires NodeStored(sh, pages, t) && 1 < newPage
    ensures var ty, cells := NodeType(sh.index, t.Leaf?), NodeCells(sh.index, t);
      && CellsOfType(ty, cells) && HasRoom(sh.pageSize, newPage, ty, cells)
      && NodeCells(sh.index, WithPage(t, newPage)) == cells && NodeRight(WithPage(t, newPage)) == NodeRight(t)
      && WithPage(t, newPage).page == newPage && WithPage(t, newPage).Leaf? == t.Leaf?
      && CellCount(WithPage(t, newPage)) == CellCount(t)
  {
    hide TotalSize, CellsOfType, NodeStored, HeaderSize;
    StoredCells(sh, pages, t);
  }

  lemma EmptyRoot(sh: Shape, nroot: nat, c: Tree)
    requires 112 + InternalCellSize(sh) + 2 <= sh.pageSize
    ensures var p := Node(nroot, Last(c));
      && NodeCells(sh.index, p) == [] && NodeRight(p) == c.page && p.page == nroot && p.Node?
      && CellsOfType(NodeType(sh.index, false), []) && HasRoom(sh.pageSize, nroot, NodeType(sh.index, false), [])
      && InternalCellSize(sh) + 2 <= FreeSpace(sh, p)
  {
  }

  // The moved root below the empty one.
  lemma MovedRep(sh: Shape, a: PageFile, b: PageFile, t: Tree, nroot: nat, nC: nat)
    requires Rep(sh, a, t) && Distinct(t) && t.page == nroot && nC !in PagesOf(t) && SameBut(a, b, {nroot, nC})
    requires NodeStored(sh, b, WithPage(t, nC)) && NodeStored(sh, b, Node(nroot, Last(WithPage(t, nC))))
    ensures Rep(sh, b, Node(nroot, Last(WithPage(t, nC))))
  {
    hide NodeStored;
    var c := WithPage(t, nC);
    if t.Node? {
      KidsRepFrame(sh, a, b, t.kids);
    }
    assert Rep(sh, b, c);
    assert KidsRep(sh, b, Last(c));
  }

  lemma RootParts(t: Tree, nroot: nat, nC: nat, newPage: nat)
    requires t.page == nroot && Distinct(t) && nC !in PagesOf(t) && newPage !in PagesOf(t) && newPage != nC
    ensures var p := Node(nroot, Last(WithPage(t, nC)));
      Distinct(p) && newPage !in PagesOf(p) && KidAt(p.kids, 0) == WithPage(t, nC) && PagesOf(p) <= PagesOf(t) + {nC}
  {
    var c := WithPage(t, nC);
    assert PagesOf(c) <= PagesOf(t) + {nC};
    assert Distinct(c);
  }

  lemma GrownIs(t: Tree, n: nat)
    requires 0 < CellCount(t)
    ensures var c := WithPage(t, n + 1);
      && 0 < CellCount(c)
      && var s := Trees.Split(c, n + 2);
         GrowRoot(t, n) == Node(t.page, AddKid(Last(c), 0, s.lower, s.sep, s.upper))
  {
    hide Trees.Split;
  }

  lemma GrownInsertable(sh: Shape, t: Tree, e: Entry, n: nat)
    requires RootInsertable(sh, t, e, n) && Full(sh, t, e)
    ensures 0 < CellCount(t) && Insertable(sh, GrowRoot(t, n), e, n + 2) && GrowRoot(t, n).page == t.page
  {
    hide RoomOnPath, CellFits, EntryCell;
    FullHasCells(sh, t, e);
    GrowRootPages(t, n);
    GrownHeight(t, n);
  }

  lemma GrownHeight(t: Tree, n: nat)
    requires 0 < CellCount(t)
    ensures Height(GrowRoot(t, n)) <= Height(t) + 1
  {
    var s := Trees.Split(WithPage(t, n + 1), n + 2);
    assert Height(WithPage(t, n + 1)) == Height(t);
    assert KidsHeight(Last(s.upper)) == Height(s.upper);
    assert KidsHeight(Cons(s.lower, s.sep, Last(s.upper))) <= Height(t);
  }

  lemma GrownElsewhere(a: PageFile, mid: PageFile, b: PageFile, t: Tree, n: nat)
    requires 0 < CellCount(t) && Distinct(t) && PagesWithin(PagesOf(t), n)
    requires SameElsewhere(a, mid, n, PagesOf(t)) && SameElsewhere(mid, b, n + 2, PagesOf(GrowRoot(t, n)))
    ensures SameElsewhere(a, b, n, PagesOf(t))
  {
    hide GrowRoot;
    GrowRootPages(t, n);
  }
}
