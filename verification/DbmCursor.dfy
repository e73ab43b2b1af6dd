// Opening and seeking cursors (dbm-cursor.c) on the pages of a file.
module DbmCursors {
  import opened Common
  import opened Trees
  import opened TreeContents
  import opened TreeSnapshot
  import opened TreePages
  import opened Machine
  import opened Pages
  import opened PageNodes
  import opened BtreeReps
  import opened Btrees
  import opened DbFiles

  // The growing arrays of collector_t.
  class Collector {
    var entries: seq<Entry>

    constructor ()
      ensures entries == []
    {
      entries := [];
    }

    method Push(key: nat, data: seq<byte>, pk: nat)
      modifies this
      ensures entries == old(entries) + [Entry(key, data, pk)]
    {
      entries := entries + [Entry(key, data, pk)];
    }
  }

  // The cells of an internal node from cell i on.
  function Drop(kids: Kids, i: nat): Kids
    requires i <= Count(kids)
  {
    if i == 0 then kids else Drop(kids.rest, i - 1)
  }

  function SepAt(kids: Kids, i: nat): Sep
    requires i < Count(kids)
  {
    if i == 0 then kids.sep else SepAt(kids.rest, i - 1)
  }

  lemma {:induction false} DropCell(index: bool, kids: Kids, i: nat)
    requires i < Count(kids)
    ensures Drop(kids, i) == Cons(KidAt(kids, i), SepAt(kids, i), Drop(kids, i + 1))
    ensures KidCells(index, kids)[i] == SepCell(index, SepAt(kids, i), KidAt(kids, i).page)
  {
    if i != 0 {
      DropCell(index, kids.rest, i - 1);
    }
  }

  lemma {:induction false} DropLast(kids: Kids)
    ensures Drop(kids, Count(kids)) == Last(KidAt(kids, Count(kids))) && RightOf(kids) == KidAt(kids, Count(kids)).page
  {
    if kids.Cons? {
      DropLast(kids.rest);
    }
  }

  lemma KidPlain(sh: Shape, kids: Kids, i: nat)
    requires i <= Count(kids) && Plain(sh, KidEntries(kids))
    ensures Plain(sh, Entries(KidAt(kids, i)))
  {
    hide PlainEntry;
    KidEntriesAround(kids, i);
  }

  // The in-order traversal that a cursor takes when it is opened.
  method CollectPage(bt: BTree, npage: nat, out: Collector, ghost sh: Shape, ghost t: Tree)
    requires bt.pager.Valid() && sh.pageSize == bt.pager.pageSize && Rep(sh, bt.pager.pages, t)
    requires npage == t.page && PagesWithin(PagesOf(t), bt.pager.nPages) && Plain(sh, Entries(t))
    modifies out
    ensures out.entries == old(out.entries) + Collect(sh.index, t)
    decreases Height(t), 2
  {
    hide Loaded, NodeStored, PagesWithin, Plain, Rep;
    RootWithin(t, bt.pager.nPages);
    StoredRoot(sh, bt.pager.pages, t);
    var btn := bt.LoadNode(sh, t, npage);
    LoadedFields(btn, sh, t);
    if btn.ptype == TABLE_LEAF || btn.ptype == INDEX_LEAF {
      CollectLeaf(btn, out, sh, t);
    } else {
      CollectInternal(bt, btn, out, sh, t);
    }
  }

  method CollectLeaf(btn: BTreeNode, out: Collector, ghost sh: Shape, ghost t: Tree)
    requires t.Leaf? && Loaded(btn, sh, t) && Plain(sh, t.cells)
    modifies out
    ensures out.entries == old(out.entries) + t.cells
  {
    hide Loaded, BTreeNode.Holds, LeafCells, EntryCell, PlainEntry, FreeSpace;
    LoadedFields(btn, sh, t);
    ghost var cells := LeafCells(sh.index, t.cells);
    for i := 0 to btn.nCells
      invariant btn.Holds(cells) && out.entries == old(out.entries) + t.cells[..i]
    {
      var c := btn.GetCell(i, cells);
      PlainBack(sh, t.cells, i);
      PushCell(c.value, out);
      assert t.cells[..i + 1] == t.cells[..i] + [t.cells[i]];
    }
    assert t.cells[..|t.cells|] == t.cells;
  }

  // The entry that a leaf cell is pushed as.
  function EntryOfCell(c: Cell): Entry {
    match c
    case TableLeaf(key, data) => Entry(key, data, 0)
    case IndexLeaf(key, pk) => Entry(key, [], pk)
    case IndexInternal(key, _, pk) => Entry(key, [], pk)
    case TableInternal(key, _) => Entry(key, [], 0)
  }

  lemma PlainBack(sh: Shape, es: seq<Entry>, i: nat)
    requires Plain(sh, es) && i < |es|
    ensures i < |LeafCells(sh.index, es)| && EntryOfCell(LeafCells(sh.index, es)[i]) == es[i]
  {
    assert PlainEntry(sh, es[i]);
  }

  method PushCell(c: Cell, out: Collector)
    modifies out
    ensures out.entries == old(out.entries) + [EntryOfCell(c)]
  {
    match c
    case TableLeaf(key, data) => out.Push(key, data, 0);
    case IndexLeaf(key, pk) => out.Push(key, [], pk);
    case IndexInternal(key, _, pk) => out.Push(key, [], pk);
    case TableInternal(key, _) => out.Push(key, [], 0);
  }

  method CollectInternal(bt: BTree, btn: BTreeNode, out: Collector, ghost sh: Shape, ghost t: Tree)
    requires bt.pager.Valid() && sh.pageSize == bt.pager.pageSize && Rep(sh, bt.pager.pages, t)
    requires t.Node? && Loaded(btn, sh, t) && PagesWithin(PagesOf(t), bt.pager.nPages) && Plain(sh, Entries(t))
    modifies out
    ensures out.entries == old(out.entries) + Collect(sh.index, t)
    decreases Height(t), 1
  {
    hide Loaded, NodeStored, PagesWithin, Plain, Rep, PagesOf, BTreeNode.Holds, KidCells, FreeSpace, EntryOfCell, CollectKids;
    LoadedFields(btn, sh, t);
    ghost var kids, cells, before := t.kids, KidCells(sh.index, t.kids), out.entries;
    var i := 0;
    while i < btn.nCells
      invariant i <= Count(kids) && btn.Holds(cells)
      invariant out.entries + CollectKids(sh.index, Drop(kids, i)) == before + CollectKids(sh.index, kids)
    {
      var c := btn.GetCell(i, cells);
      CollectStep(sh.index, kids, i);
      CollectChild(bt, ChildOf(c.value), out, sh, t, i);
      if c.value.IndexInternal? {
        PushCell(c.value, out);
      }
      i := i + 1;
    }
    CollectEnd(sh.index, kids);
    CollectChild(bt, btn.rightPage, out, sh, t, i);
  }

  // One cell of an internal node.
  lemma CollectStep(index: bool, kids: Kids, i: nat)
    requires i < Count(kids)
    ensures var c := KidCells(index, kids)[i];
      && ChildOf(c) == KidAt(kids, i).page && c.IndexInternal? == index
      && CollectKids(index, Drop(kids, i))
         == Collect(index, KidAt(kids, i)) + (if index then [EntryOfCell(c)] else []) + CollectKids(index, Drop(kids, i + 1))
  {
    DropCell(index, kids, i);
  }

  lemma CollectEnd(index: bool, kids: Kids)
    ensures CollectKids(index, Drop(kids, Count(kids))) == Collect(index, KidAt(kids, Count(kids)))
    ensures RightOf(kids) == KidAt(kids, Count(kids)).page
  {
    DropLast(kids);
  }

  method CollectChild(bt: BTree, child: nat, out: Collector, ghost sh: Shape, ghost t: Tree, ghost i: nat)
    requires bt.pager.Valid() && sh.pageSize == bt.pager.pageSize && Rep(sh, bt.pager.pages, t) && t.Node?
    requires i <= Count(t.kids) && child == KidAt(t.kids, i).page
    requires PagesWithin(PagesOf(t), bt.pager.nPages) && Plain(sh, Entries(t))
    modifies out
    ensures out.entries == old(out.entries) + Collect(sh.index, KidAt(t.kids, i))
    decreases Height(t), 0
  {
    hide NodeStored, Plain;
    KidRep(sh, bt.pager.pages, t.kids, i);
    KidWithin(t.kids, i, bt.pager.nPages);
    KidPlain(sh, t.kids, i);
    CollectPage(bt, child, out, sh, KidAt(t.kids, i));
  }

  // ---- seeks ------------------------------------------------------------------------------------------

  // chidb_Cursor_seekEq, seekGt and seekGe
  method SeekFirst(code: Opcode, s: seq<Entry>, key: nat) returns (r: Option<nat>)
    ensures r == SeekUp(code, s, key, 0)
  {
    for i := 0 to |s|
      invariant SeekUp(code, s, key, 0) == SeekUp(code, s, key, i)
    {
      if SeekMatches(code, s[i].key, key) {
        return Some(i);
      }
    }
    r := None;
  }

  // chidb_Cursor_seekLt and seekLe
  method SeekLast(code: Opcode, s: seq<Entry>, key: nat) returns (r: Option<nat>)
    ensures r == SeekDown(code, s, key, |s|)
  {
    for i := |s| downto 0
      invariant SeekDown(code, s, key, |s|) == SeekDown(code, s, key, i)
    {
      if SeekMatches(code, s[i].key, key) {
        return Some(i);
      }
    }
    r := None;
  }
}
