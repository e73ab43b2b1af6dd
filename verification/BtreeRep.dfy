// How the pages of a file stand for a tree.
module BtreeReps {
  import opened Common
  import opened Bytes
  import opened Trees
  import opened TreeContents
  import opened TreePages
  import opened Pages
  import opened PageNodes

  // ---- the cells of a node --------------------------------------------------------------------

  function EntryCell(index: bool, e: Entry): Cell {
    if index then IndexLeaf(e.key, e.pk) else TableLeaf(e.key, e.data)
  }

  function SepCell(index: bool, s: Sep, child: nat): Cell {
    if index then IndexInternal(s.key, child, s.pk) else TableInternal(s.key, child)
  }

  function LeafCells(index: bool, es: seq<Entry>): (r: seq<Cell>)
    ensures |r| == |es| && forall i :: 0 <= i < |es| ==> r[i] == EntryCell(index, es[i])
  {
    seq(|es|, i requires 0 <= i < |es| => EntryCell(index, es[i]))
  }

  function KidCells(index: bool, kids: Kids): (r: seq<Cell>)
    ensures |r| == Count(kids)
  {
    match kids
    case Last(_) => []
    case Cons(t, s, rest) => [SepCell(index, s, t.page)] + KidCells(index, rest)
  }

  function RightOf(kids: Kids): nat {
    match kids
    case Last(t) => t.page
    case Cons(_, _, rest) => RightOf(rest)
  }

  function NodeType(index: bool, leaf: bool): byte {
    if leaf then (if index then INDEX_LEAF else TABLE_LEAF) else if index then INDEX_INTERNAL else TABLE_INTERNAL
  }

  function NodeCells(index: bool, t: Tree): seq<Cell> {
    match t
    case Leaf(_, es) => LeafCells(index, es)
    case Node(_, kids) => KidCells(index, kids)
  }

  function NodeRight(t: Tree): nat {
    match t
    case Leaf(_, _) => 0
    case Node(_, kids) => RightOf(kids)
  }

  // ---- representation ---------------------------------------------------------------------------

  type PageFile = map<nat, seq<byte>>

  // The page of a node holds that node.
  ghost predicate NodeStored(sh: Shape, pages: PageFile, t: Tree) {
    && t.page in pages && |pages[t.page]| == sh.pageSize
    && PageHolds(Base(t.page), pages[t.page], NodeType(sh.index, t.Leaf?), NodeCells(sh.index, t), NodeRight(t))
  }

  // Every node of the tree is in its page.
  ghost predicate Rep(sh: Shape, pages: PageFile, t: Tree)
    decreases t
  {
    NodeStored(sh, pages, t) && (t.Node? ==> KidsRep(sh, pages, t.kids))
  }

  ghost predicate KidsRep(sh: Shape, pages: PageFile, kids: Kids)
    decreases kids
  {
    match kids
    case Last(t) => Rep(sh, pages, t)
    case Cons(t, _, rest) => Rep(sh, pages, t) && KidsRep(sh, pages, rest)
  }

  // Pages outside the tree do not matter.
  ghost predicate SamePages(a: PageFile, b: PageFile, s: set<nat>) {
    forall p :: p in s && p in a ==> p in b && b[p] == a[p]
  }

  lemma {:induction false} RepFrame(sh: Shape, a: PageFile, b: PageFile, t: Tree)
    requires Rep(sh, a, t) && SamePages(a, b, PagesOf(t))
    ensures Rep(sh, b, t)
    decreases t
  {
    hide PageHolds, NodeCells;
    assert t.page in PagesOf(t);
    if t.Node? {
      KidsRepFrame(sh, a, b, t.kids);
    }
  }

  lemma {:induction false} KidsRepFrame(sh: Shape, a: PageFile, b: PageFile, kids: Kids)
    requires KidsRep(sh, a, kids) && SamePages(a, b, KidsPages(kids))
    ensures KidsRep(sh, b, kids)
    decreases kids
  {
    match kids
    case Last(t) => RepFrame(sh, a, b, t);
    case Cons(t, _, rest) =>
      RepFrame(sh, a, b, t);
      KidsRepFrame(sh, a, b, rest);
  }

  lemma {:induction false} KidRep(sh: Shape, pages: PageFile, kids: Kids, i: nat)
    requires KidsRep(sh, pages, kids) && i <= Count(kids)
    ensures Rep(sh, pages, KidAt(kids, i))
  {
    hide NodeStored;
    if i != 0 {
      KidRep(sh, pages, kids.rest, i - 1);
    }
  }

  // ---- sizes ----------------------------------------------------------------------------------------

  lemma {:induction false} LeafTotal(sh: Shape, es: seq<Entry>)
    ensures TotalSize(LeafCells(sh.index, es)) + 2 * |es| == LeafCost(sh, es)
  {
    if es != [] {
      var front := es[..|es| - 1];
      LeafTotal(sh, front);
      assert LeafCells(sh.index, es)[..|es| - 1] == LeafCells(sh.index, front);
    }
  }

  lemma {:induction false} UniformTotal(cells: seq<Cell>, size: nat)
    requires forall i :: 0 <= i < |cells| ==> CellSize(cells[i]) == size
    ensures TotalSize(cells) + 2 * |cells| == |cells| * (size + 2)
  {
    if cells != [] {
      UniformTotal(cells[..|cells| - 1], size);
      assert |cells| * (size + 2) == (|cells| - 1) * (size + 2) + (size + 2);
    }
  }

  lemma {:induction false} KidCellSizes(sh: Shape, kids: Kids)
    ensures forall i :: 0 <= i < Count(kids) ==> CellSize(KidCells(sh.index, kids)[i]) == InternalCellSize(sh)
    ensures forall i :: 0 <= i < Count(kids) ==> TypeOf(KidCells(sh.index, kids)[i]) == NodeType(sh.index, false)
  {
    if kids.Cons? {
      KidCellSizes(sh, kids.rest);
    }
  }

  lemma NodeTotal(sh: Shape, t: Tree)
    ensures sh.pageSize - Base(t.page) - HeaderSize(NodeType(sh.index, t.Leaf?))
            - TotalSize(NodeCells(sh.index, t)) - 2 * |NodeCells(sh.index, t)| == FreeSpace(sh, t)
  {
    match t
    case Leaf(_, es) => LeafTotal(sh, es);
    case Node(_, kids) =>
      KidCellSizes(sh, kids);
      UniformTotal(KidCells(sh.index, kids), InternalCellSize(sh));
  }

  // The free space that a page header gives is the free space of the node.
  lemma HeaderSpace(sh: Shape, pages: PageFile, t: Tree)
    requires NodeStored(sh, pages, t)
    ensures var h := ReadInfo(Base(t.page), pages[t.page]);
      h.cellsOffset - h.freeOffset == FreeSpace(sh, t) && h.nCells == CellCount(t)
      && h.ptype == NodeType(sh.index, t.Leaf?)
  {
    hide SlotsHold, ExtentsApart, TotalSize, Get2, Get4;
    NodeTotal(sh, t);
  }

  // ---- positions --------------------------------------------------------------------------------------

  // First cell whose key is at least the given one.
  predicate IsPosition(cells: seq<Cell>, key: nat, p: nat) {
    && p <= |cells| && (forall i :: 0 <= i < p ==> cells[i].key < key)
    && (p < |cells| ==> key <= cells[p].key)
  }

  lemma {:induction false} KidPosition(index: bool, kids: Kids, key: nat, p: nat)
    requires IsPosition(KidCells(index, kids), key, p)
    ensures p == KidPos(kids, key)
  {
    match kids
    case Last(_) =>
    case Cons(t, s, rest) =>
      var cells := KidCells(index, kids);
      assert cells[0] == SepCell(index, s, t.page) && cells[1..] == KidCells(index, rest);
      if p != 0 {
        KidPosition(index, rest, key, p - 1);
      }
  }

  lemma LeafPosition(index: bool, es: seq<Entry>, key: nat, p: nat)
    requires IsPosition(LeafCells(index, es), key, p)
    ensures p == LeafPos(es, key)
  {
    var cells := LeafCells(index, es);
    forall i | 0 <= i < p ensures es[i].key < key {
      assert cells[i].key < key;
    }
    assert p < |es| ==> key <= cells[p].key;
    LeafPosUnique(es, key, p);
  }

  function ChildOf(c: Cell): nat {
    match c
    case TableInternal(_, child) => child
    case IndexInternal(_, child, _) => child
    case _ => 0
  }

  // The page that the cell at a position, or the right page, refers to.
  lemma {:induction false} KidPage(index: bool, kids: Kids, i: nat)
    requires i <= Count(kids)
    ensures i < Count(kids) ==>
      ChildOf(KidCells(index, kids)[i]) == KidAt(kids, i).page
    ensures i == Count(kids) ==> RightOf(kids) == KidAt(kids, i).page
  {
    if kids.Cons? && i != 0 {
      KidPage(index, kids.rest, i - 1);
    }
  }

  // ---- what the list operations do to the cells --------------------------------------------------------

  lemma {:induction false} AddKidCells(index: bool, kids: Kids, i: nat, lower: Tree, sep: Sep, upper: Tree)
    requires i <= Count(kids) && upper.page == KidAt(kids, i).page
    ensures KidCells(index, AddKid(kids, i, lower, sep, upper))
         == Inserted(KidCells(index, kids), i, SepCell(index, sep, lower.page))
    ensures RightOf(AddKid(kids, i, lower, sep, upper)) == RightOf(kids)
  {
    if kids.Cons? && i != 0 {
      AddKidCells(index, kids.rest, i - 1, lower, sep, upper);
    }
  }

  lemma {:induction false} SetKidCells(index: bool, kids: Kids, i: nat, t: Tree)
    requires i <= Count(kids) && t.page == KidAt(kids, i).page
    ensures KidCells(index, SetKid(kids, i, t)) == KidCells(index, kids) && RightOf(SetKid(kids, i, t)) == RightOf(kids)
  {
    if kids.Cons? && i != 0 {
      SetKidCells(index, kids.rest, i - 1, t);
    }
  }

  lemma {:induction false} SplitKidCells(index: bool, kids: Kids, m: nat)
    requires m < Count(kids)
    ensures var r, cells := SplitKids(kids, m), KidCells(index, kids);
      && KidCells(index, r.lower) == cells[..m] && KidCells(index, r.upper) == cells[m + 1..]
      && cells[m] == SepCell(index, r.sep, RightOf(r.lower)) && RightOf(r.upper) == RightOf(kids)
  {
    if m != 0 {
      SplitKidCells(index, kids.rest, m - 1);
    }
  }

  // The two halves of a split node, as cells.
  lemma SplitCells(index: bool, t: Tree, newPage: nat)
    requires 0 < CellCount(t)
    ensures var s, cells, m := Split(t, newPage), NodeCells(index, t), CellCount(t) / 2;
      && |cells| == CellCount(t) && s.lower.Leaf? == t.Leaf? && s.upper.Leaf? == t.Leaf?
      && NodeCells(index, s.lower) == (if t.Leaf? then cells[..m + 1] else cells[..m])
      && NodeCells(index, s.upper) == cells[m + 1..]
      && NodeRight(s.upper) == NodeRight(t)
      && (t.Node? ==> cells[m] == SepCell(index, s.sep, NodeRight(s.lower)))
      && (t.Leaf? ==> NodeRight(s.lower) == 0 && s.sep.key == cells[m].key && (index ==> cells[m] == IndexLeaf(s.sep.key, s.sep.pk)))
  {
    match t
    case Leaf(_, es) =>
      var m := |es| / 2;
      assert LeafCells(index, es[..m + 1]) == LeafCells(index, es)[..m + 1];
      assert LeafCells(index, es[m + 1..]) == LeafCells(index, es)[m + 1..];
    case Node(_, kids) => SplitKidCells(index, kids, Count(kids) / 2);
  }

  // Child i may have changed from c to t; the others are as they were.
  lemma {:induction false} SetKidRep(sh: Shape, a: PageFile, b: PageFile, kids: Kids, i: nat, t: Tree)
    requires KidsRep(sh, a, kids) && i <= Count(kids) && SamePages(a, b, OtherPages(kids, i)) && Rep(sh, b, t)
    ensures KidsRep(sh, b, SetKid(kids, i, t))
  {
    hide NodeStored;
    match kids
    case Last(_) =>
    case Cons(c, s, rest) =>
      if i == 0 {
        KidsRepFrame(sh, a, b, rest);
      } else {
        RepFrame(sh, a, b, c);
        SetKidRep(sh, a, b, rest, i - 1, t);
      }
  }

  // The other children around a child that was split.
  lemma {:induction false} SplitKidRep(sh: Shape, a: PageFile, b: PageFile, kids: Kids, i: nat, lower: Tree, sep: Sep, upper: Tree)
    requires KidsRep(sh, a, kids) && i <= Count(kids) && SamePages(a, b, OtherPages(kids, i))
    requires Rep(sh, b, lower) && Rep(sh, b, upper)
    ensures KidsRep(sh, b, AddKid(kids, i, lower, sep, upper))
  {
    hide NodeStored;
    match kids
    case Last(_) =>
    case Cons(c, s, rest) =>
      if i == 0 {
        KidsRepFrame(sh, a, b, rest);
      } else {
        RepFrame(sh, a, b, c);
        SplitKidRep(sh, a, b, rest, i - 1, lower, sep, upper);
      }
  }

  lemma {:induction false} SplitKidsRep(sh: Shape, pages: PageFile, kids: Kids, m: nat)
    requires KidsRep(sh, pages, kids) && m < Count(kids)
    ensures KidsRep(sh, pages, SplitKids(kids, m).lower) && KidsRep(sh, pages, SplitKids(kids, m).upper)
  {
    hide NodeStored;
    if m != 0 {
      SplitKidsRep(sh, pages, kids.rest, m - 1);
    }
  }
}
