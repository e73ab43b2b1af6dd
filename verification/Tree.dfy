// The abstract value of one B-Tree of the file, and the insertion algorithm of
// btree.c written on it.
module Trees {
  import opened Common


  // One (key, payload) entry: a table entry has pk == 0, an index entry has data == [].
  datatype Entry = Entry(key: nat, data: seq<byte>, pk: nat)

  // The key (and, in an index, the primary key) stored in an internal cell.
  datatype Sep = Sep(key: nat, pk: nat)

  // A node knows the page it lives in. An internal node is a list of
  // (child, separator) cells closed by the right page.
  datatype Tree =
    | Leaf(page: nat, cells: seq<Entry>)
    | Node(page: nat, kids: Kids)

  datatype Kids =
    | Last(right: Tree)
    | Cons(child: Tree, sep: Sep, rest: Kids)

  // What all pages of one tree have in common.
  datatype Shape = Shape(index: bool, pageSize: nat)

  // ---- contents -------------------------------------------------------

  // The entries in the leaves, from left to right.
  function Entries(t: Tree): seq<Entry> {
    match t
    case Leaf(_, cells) => cells
    case Node(_, kids) => KidEntries(kids)
  }

  function KidEntries(kids: Kids): seq<Entry> {
    match kids
    case Last(t) => Entries(t)
    case Cons(t, _, rest) => Entries(t) + KidEntries(rest)
  }

  ghost predicate Ascending(s: seq<Entry>) {
    forall i, j :: 0 <= i < j < |s| ==> s[i].key < s[j].key
  }

  ghost predicate HasKey(s: seq<Entry>, key: nat) {
    exists i :: 0 <= i < |s| && s[i].key == key
  }

  // ---- sizes ----------------------------------------------------------

  function Base(page: nat): nat {
    if page == 1 then 100 else 0
  }

  function LeafCellSize(sh: Shape, e: Entry): nat {
    if sh.index then 12 else 8 + |e.data|
  }

  function InternalCellSize(sh: Shape): nat {
    if sh.index then 16 else 8
  }

  // Page bytes taken by leaf cells: the cells and their two-byte slots.
  function LeafCost(sh: Shape, cells: seq<Entry>): nat {
    if cells == [] then 0
    else LeafCost(sh, cells[..|cells| - 1]) + LeafCellSize(sh, cells[|cells| - 1]) + 2
  }

  // Number of cells of an internal node (its right page is not one of them).
  function Count(kids: Kids): nat {
    match kids
    case Last(_) => 0
    case Cons(_, _, rest) => 1 + Count(rest)
  }

  function CellCount(t: Tree): nat {
    match t
    case Leaf(_, cells) => |cells|
    case Node(_, kids) => Count(kids)
  }

  // Free bytes between the slot array and the cells; negative if they overlap.
  function FreeSpace(sh: Shape, t: Tree): int {
    match t
    case Leaf(page, cells) => sh.pageSize - Base(page) - 8 - LeafCost(sh, cells)
    case Node(page, kids) => sh.pageSize - Base(page) - 12 - Count(kids) * (InternalCellSize(sh) + 2)
  }

  // Room a node asks for before it is descended into with e.
  function Needed(sh: Shape, t: Tree, e: Entry): nat {
    if t.Leaf? then LeafCellSize(sh, e) + 2 else InternalCellSize(sh) + 2
  }

  predicate Full(sh: Shape, t: Tree, e: Entry) {
    FreeSpace(sh, t) < Needed(sh, t, e)
  }

  // ---- positions ------------------------------------------------------

  // First index whose key is at least the given key.
  function LeafPos(cells: seq<Entry>, key: nat): (p: nat)
    ensures p <= |cells|
    ensures forall i :: 0 <= i < p ==> cells[i].key < key
    ensures p < |cells| ==> key <= cells[p].key
  {
    if cells == [] || key <= cells[0].key then 0 else 1 + LeafPos(cells[1..], key)
  }

  function KidPos(kids: Kids, key: nat): (p: nat)
    ensures p <= Count(kids)
  {
    match kids
    case Last(_) => 0
    case Cons(_, s, rest) => if key <= s.key then 0 else 1 + KidPos(rest, key)
  }

  function Height(t: Tree): nat {
    match t
    case Leaf(_, _) => 0
    case Node(_, kids) => 1 + KidsHeight(kids)
  }

  function Max(a: nat, b: nat): nat { if a < b then b else a }

  function KidsHeight(kids: Kids): nat {
    match kids
    case Last(t) => Height(t)
    case Cons(t, _, rest) => Max(Height(t), KidsHeight(rest))
  }

  // The child covered by cell i, or the right page when i is the cell count.
  function KidAt(kids: Kids, i: nat): (t: Tree)
    requires i <= Count(kids)
    ensures Height(t) <= KidsHeight(kids)
  {
    match kids
    case Last(t) => t
    case Cons(t, _, rest) => if i == 0 then t else KidAt(rest, i - 1)
  }

  function SetKid(kids: Kids, i: nat, t: Tree): (r: Kids)
    requires i <= Count(kids)
    ensures Count(r) == Count(kids)
  {
    match kids
    case Last(_) => Last(t)
    case Cons(c, s, rest) => if i == 0 then Cons(t, s, rest) else Cons(c, s, SetKid(rest, i - 1, t))
  }

  // A new cell (lower, sep) at position i; the page already referenced there becomes upper.
  function AddKid(kids: Kids, i: nat, lower: Tree, sep: Sep, upper: Tree): (r: Kids)
    requires i <= Count(kids)
    ensures Count(r) == Count(kids) + 1
    ensures KidsHeight(r) <= Max(KidsHeight(kids), Max(Height(lower), Height(upper)))
  {
    match kids
    case Last(_) => Cons(lower, sep, Last(upper))
    case Cons(c, s, rest) =>
      if i == 0 then Cons(lower, sep, Cons(upper, s, rest))
      else Cons(c, s, AddKid(rest, i - 1, lower, sep, upper))
  }

  // ---- splitting ------------------------------------------------------

  datatype KidSplit = KidSplit(lower: Kids, sep: Sep, upper: Kids)

  // Cell m leaves the node; its child becomes the right page of the lower half.
  function SplitKids(kids: Kids, m: nat): (r: KidSplit)
    requires m < Count(kids)
    ensures Count(r.lower) == m && Count(r.upper) == Count(kids) - m - 1
    ensures KidsHeight(r.lower) <= KidsHeight(kids) && KidsHeight(r.upper) <= KidsHeight(kids)
    ensures KidEntries(r.lower) + KidEntries(r.upper) == KidEntries(kids)
  {
    var Cons(c, s, rest) := kids;
    if m == 0 then KidSplit(Last(c), s, rest)
    else
      var r := SplitKids(rest, m - 1);
      KidSplit(Cons(c, s, r.lower), r.sep, r.upper)
  }

  datatype TreeSplit = TreeSplit(lower: Tree, sep: Sep, upper: Tree)

  // The lower half goes to page newPage, the upper half keeps the page. A leaf
  // keeps the median in its lower half and promotes a copy of its key.
  function Split(t: Tree, newPage: nat): (r: TreeSplit)
    requires 0 < CellCount(t)
    ensures Height(r.lower) <= Height(t) && Height(r.upper) <= Height(t)
    ensures Entries(r.lower) + Entries(r.upper) == Entries(t)
  {
    var m := CellCount(t) / 2;
    match t
    case Leaf(page, cells) =>
      TreeSplit(Leaf(newPage, cells[..m + 1]), Sep(cells[m].key, cells[m].pk), Leaf(page, cells[m + 1..]))
    case Node(page, kids) =>
      var r := SplitKids(kids, m);
      TreeSplit(Node(newPage, r.lower), r.sep, Node(page, r.upper))
  }

  // ---- insertion ------------------------------------------------------

  // Size limits under which a full node always has a cell to split at.
  predicate EntryFits(sh: Shape, e: Entry) {
    && 100 + 12 + InternalCellSize(sh) + 2 <= sh.pageSize
    && 100 + 8 + LeafCellSize(sh, e) + 2 <= sh.pageSize
  }

  // Outcome: whether the key was already there, the tree afterwards, and the
  // number of pages of the file afterwards.
  datatype Outcome = Outcome(duplicate: bool, tree: Tree, pages: nat)

  function InsertLeaf(t: Tree, e: Entry, pages: nat): Outcome
    requires t.Leaf?
  {
    var p := LeafPos(t.cells, e.key);
    if p < |t.cells| && t.cells[p].key == e.key then Outcome(true, t, pages)
    else Outcome(false, Leaf(t.page, t.cells[..p] + [e] + t.cells[p..]), pages)
  }

  // The internal node after making room in the child that covers e.
  function MakeRoom(sh: Shape, kids: Kids, e: Entry, pages: nat): (r: Kids)
    requires EntryFits(sh, e)
    ensures KidsHeight(r) <= KidsHeight(kids)
  {
    var pos := KidPos(kids, e.key);
    var child := KidAt(kids, pos);
    if Full(sh, child, e) then
      var s := Split(child, pages + 1);
      AddKid(kids, pos, s.lower, s.sep, s.upper)
    else kids
  }

  function PagesAfterRoom(sh: Shape, kids: Kids, e: Entry, pages: nat): nat {
    if Full(sh, KidAt(kids, KidPos(kids, e.key)), e) then pages + 1 else pages
  }

  function InsertNonFull(sh: Shape, t: Tree, e: Entry, pages: nat): Outcome
    requires EntryFits(sh, e)
    decreases Height(t)
  {
    match t
    case Leaf(_, _) => InsertLeaf(t, e, pages)
    case Node(page, kids) =>
      var kids' := MakeRoom(sh, kids, e, pages);
      var pos := KidPos(kids', e.key);
      var r := InsertNonFull(sh, KidAt(kids', pos), e, PagesAfterRoom(sh, kids, e, pages));
      Outcome(r.duplicate, Node(page, SetKid(kids', pos, r.tree)), r.pages)
  }

  function WithPage(t: Tree, page: nat): Tree {
    match t
    case Leaf(_, cells) => Leaf(page, cells)
    case Node(_, kids) => Node(page, kids)
  }

  // A full root moves to a fresh page and is split there, below a new root in the old page.
  function GrowRoot(t: Tree, pages: nat): Tree
    requires 0 < CellCount(t)
  {
    var s := Split(WithPage(t, pages + 1), pages + 2);
    Node(t.page, Cons(s.lower, s.sep, Last(s.upper)))
  }

  function Insert(sh: Shape, t: Tree, e: Entry, pages: nat): Outcome
    requires EntryFits(sh, e)
  {
    if Full(sh, t, e) then InsertNonFull(sh, GrowRoot(t, pages), e, pages + 2)
    else InsertNonFull(sh, t, e, pages)
  }
}
