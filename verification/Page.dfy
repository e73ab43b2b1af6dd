// The slotted page of a B-Tree node (btree.c): a header, an array of two-byte slots that
// grows upwards, and cells that grow downwards from the end of the page.
module Pages {
  import opened Common
  import opened Bytes

  const TABLE_INTERNAL: byte := 0x05
  const TABLE_LEAF: byte := 0x0D
  const INDEX_INTERNAL: byte := 0x02
  const INDEX_LEAF: byte := 0x0A

  predicate IsType(t: byte) {
    t == TABLE_INTERNAL || t == TABLE_LEAF || t == INDEX_INTERNAL || t == INDEX_LEAF
  }

  predicate IsInternal(t: byte) {
    t == TABLE_INTERNAL || t == INDEX_INTERNAL
  }

  function HeaderSize(t: byte): nat {
    if IsInternal(t) then 12 else 8
  }

  // ---- cells -----------------------------------------------------------------------------------

  datatype Cell =
    | TableInternal(key: nat, child: nat)
    | TableLeaf(key: nat, data: seq<byte>)
    | IndexInternal(key: nat, child: nat, pk: nat)
    | IndexLeaf(key: nat, pk: nat)

  function TypeOf(c: Cell): byte {
    match c
    case TableInternal(_, _) => TABLE_INTERNAL
    case TableLeaf(_, _) => TABLE_LEAF
    case IndexInternal(_, _, _) => INDEX_INTERNAL
    case IndexLeaf(_, _) => INDEX_LEAF
  }

  function CellSize(c: Cell): nat {
    match c
    case TableInternal(_, _) => 8
    case TableLeaf(_, data) => 8 + |data|
    case IndexInternal(_, _, _) => 16
    case IndexLeaf(_, _) => 12
  }

  // Table keys and data sizes go through 28-bit varints; the other numbers have 32 bits.
  predicate CellFits(c: Cell) {
    match c
    case TableInternal(key, child) => key < 0x1000_0000 && child < 0x1_0000_0000
    case TableLeaf(key, data) => key < 0x1000_0000 && |data| < 0x1000_0000
    case IndexInternal(key, child, pk) => key < 0x1_0000_0000 && child < 0x1_0000_0000 && pk < 0x1_0000_0000
    case IndexLeaf(key, pk) => key < 0x1_0000_0000 && pk < 0x1_0000_0000
  }

  // What is left of a cell on a page.
  function Kept(c: Cell): Cell {
    match c
    case TableInternal(key, child) => TableInternal(key % 0x1000_0000, child % 0x1_0000_0000)
    case TableLeaf(key, data) => TableLeaf(key % 0x1000_0000, data)
    case IndexInternal(key, child, pk) => IndexInternal(key % 0x1_0000_0000, child % 0x1_0000_0000, pk % 0x1_0000_0000)
    case IndexLeaf(key, pk) => IndexLeaf(key % 0x1_0000_0000, pk % 0x1_0000_0000)
  }

  // A cell of page size is kept if and only if its numbers have no more bits than are written: a
  // table key of 2^28 or more becomes another key.
  lemma KeptIff(c: Cell)
    requires CellSize(c) < 0x1_0000
    ensures Kept(c) == c <==> CellFits(c)
  {
    match c
    case TableInternal(key, child) =>
      KeptNumber(key, 0x1000_0000);
      KeptNumber(child, 0x1_0000_0000);
    case TableLeaf(key, _) =>
      KeptNumber(key, 0x1000_0000);
    case IndexInternal(key, child, pk) =>
      KeptNumber(key, 0x1_0000_0000);
      KeptNumber(child, 0x1_0000_0000);
      KeptNumber(pk, 0x1_0000_0000);
    case IndexLeaf(key, pk) =>
      KeptNumber(key, 0x1_0000_0000);
      KeptNumber(pk, 0x1_0000_0000);
  }

  lemma KeptNumber(n: nat, bound: nat)
    requires 0 < bound
    ensures n % bound == n <==> n < bound
  {
  }

  function Get2At(d: seq<byte>, i: nat): nat
    requires i + 2 <= |d|
  {
    Get2(d[i], d[i + 1])
  }

  function Get4At(d: seq<byte>, i: nat): nat
    requires i + 4 <= |d|
  {
    Get4(d[i], d[i + 1], d[i + 2], d[i + 3])
  }

  function VarintAt(d: seq<byte>, i: nat): nat
    requires i + 4 <= |d|
  {
    GetVarint(d[i], d[i + 1], d[i + 2], d[i + 3])
  }

  // Reading a cell of c's type at offset off of a page gives c. The first four bytes of an
  // index leaf cell, and four bytes of an index internal cell, are not looked at.
  predicate CellAt(d: seq<byte>, off: nat, c: Cell) {
    off + CellSize(c) <= |d| &&
    match c
    case TableInternal(key, child) => Get4At(d, off) == child && VarintAt(d, off + 4) == key
    case TableLeaf(key, data) =>
      VarintAt(d, off) == |data| && VarintAt(d, off + 4) == key && d[off + 8..off + 8 + |data|] == data
    case IndexInternal(key, child, pk) => Get4At(d, off) == child && Get4At(d, off + 8) == key && Get4At(d, off + 12) == pk
    case IndexLeaf(key, pk) => Get4At(d, off + 4) == key && Get4At(d, off + 8) == pk
  }

  // A page holds at most one cell of a type at an offset.
  lemma CellAtUnique(d: seq<byte>, off: nat, a: Cell, b: Cell)
    requires TypeOf(a) == TypeOf(b) && CellAt(d, off, a) && CellAt(d, off, b)
    ensures a == b
  {
    hide Get4, GetVarint;
  }

  lemma CellInside(d: seq<byte>, off: nat, c: Cell)
    requires CellAt(d, off, c)
    ensures off + CellSize(c) <= |d|
  {
  }

  // A cell only depends on its own bytes.
  lemma CellAtFrame(d: seq<byte>, e: seq<byte>, off: nat, c: Cell)
    requires CellAt(d, off, c) && |e| == |d|
    requires forall i :: off <= i < off + CellSize(c) ==> e[i] == d[i]
    ensures CellAt(e, off, c)
  {
    hide Get4, GetVarint;
    if c.TableLeaf? {
      assert e[off + 8..off + 8 + |c.data|] == d[off + 8..off + 8 + |c.data|];
    }
  }

  // ---- layout ------------------------------------------------------------------------------------

  // The fields of a node header.
  datatype NodeInfo = NodeInfo(ptype: byte, freeOffset: nat, nCells: nat, cellsOffset: nat, rightPage: nat)

  function ArrayStart(base: nat, ptype: byte): nat {
    base + HeaderSize(ptype)
  }

  function Slot(base: nat, ptype: byte, d: seq<byte>, i: nat): nat
    requires ArrayStart(base, ptype) + 2 * i + 2 <= |d|
  {
    Get2At(d, ArrayStart(base, ptype) + 2 * i)
  }

  function TotalSize(cells: seq<Cell>): nat {
    if cells == [] then 0 else TotalSize(cells[..|cells| - 1]) + CellSize(cells[|cells| - 1])
  }

  predicate Apart(a: nat, aSize: nat, b: nat, bSize: nat) {
    a + aSize <= b || b + bSize <= a
  }

  // The slots end where the free space starts, and the cells fill the rest of the page.
  predicate Bounds(base: nat, h: NodeInfo, d: seq<byte>, n: nat) {
    && IsType(h.ptype) && h.nCells == n && |d| < 0x1_0000
    && h.freeOffset == ArrayStart(base, h.ptype) + 2 * n
    && h.freeOffset <= h.cellsOffset <= |d|
  }

  predicate SlotsHold(base: nat, h: NodeInfo, d: seq<byte>, cells: seq<Cell>)
    requires Bounds(base, h, d, |cells|)
  {
    forall i :: 0 <= i < |cells| ==>
      && TypeOf(cells[i]) == h.ptype && CellFits(cells[i]) && h.cellsOffset <= Slot(base, h.ptype, d, i)
      && CellAt(d, Slot(base, h.ptype, d, i), cells[i])
  }

  predicate ExtentsApart(base: nat, h: NodeInfo, d: seq<byte>, cells: seq<Cell>)
    requires Bounds(base, h, d, |cells|)
  {
    forall i, j :: 0 <= i < j < |cells| ==>
      Apart(Slot(base, h.ptype, d, i), CellSize(cells[i]), Slot(base, h.ptype, d, j), CellSize(cells[j]))
  }

  // A page with these header fields and bytes holds exactly these cells, in order.
  predicate Layout(base: nat, h: NodeInfo, d: seq<byte>, cells: seq<Cell>) {
    && Bounds(base, h, d, |cells|) && h.cellsOffset + TotalSize(cells) == |d|
    && SlotsHold(base, h, d, cells) && ExtentsApart(base, h, d, cells)
  }

  // The bytes and the header determine the cells.
  lemma LayoutUnique(base: nat, h: NodeInfo, d: seq<byte>, a: seq<Cell>, b: seq<Cell>)
    requires Layout(base, h, d, a) && Layout(base, h, d, b)
    ensures a == b
  {
    hide CellAt;
    forall i | 0 <= i < |a| ensures a[i] == b[i] {
      CellAtUnique(d, Slot(base, h.ptype, d, i), a[i], b[i]);
    }
  }

  // ---- inserting a cell --------------------------------------------------------------------------

  function Inserted<T>(s: seq<T>, p: nat, x: T): (r: seq<T>)
    requires p <= |s|
    ensures |r| == |s| + 1 && r[p] == x
    ensures forall i :: 0 <= i < p ==> r[i] == s[i]
    ensures forall i :: p < i < |r| ==> r[i] == s[i - 1]
  {
    s[..p] + [x] + s[p..]
  }

  function AfterInsert(h: NodeInfo, size: nat): NodeInfo
    requires size <= h.cellsOffset
  {
    h.(freeOffset := h.freeOffset + 2, nCells := h.nCells + 1, cellsOffset := h.cellsOffset - size)
  }

  // What insertCell does to the bytes of a page: the cell goes below the lowest one, the
  // slots from p on move up by one, and the header and all other cells stay.
  ghost predicate CellInserted(base: nat, h: NodeInfo, d: seq<byte>, p: nat, c: Cell, e: seq<byte>) {
    && |e| == |d| && p <= h.nCells && CellSize(c) <= h.cellsOffset
    && ArrayStart(base, h.ptype) + 2 * h.nCells + 2 <= h.cellsOffset - CellSize(c) && h.cellsOffset <= |d|
    && CellAt(e, h.cellsOffset - CellSize(c), c)
    && (forall i :: h.cellsOffset <= i < |d| ==> e[i] == d[i])
    && (forall i :: 0 <= i < ArrayStart(base, h.ptype) ==> e[i] == d[i])
    && (forall i :: 0 <= i < p ==> Slot(base, h.ptype, e, i) == Slot(base, h.ptype, d, i))
    && Slot(base, h.ptype, e, p) == h.cellsOffset - CellSize(c)
    && (forall i :: p < i <= h.nCells ==> Slot(base, h.ptype, e, i) == Slot(base, h.ptype, d, i - 1))
  }

  lemma TotalAppend(a: seq<Cell>, b: seq<Cell>)
    ensures TotalSize(a + b) == TotalSize(a) + TotalSize(b)
    decreases |b|
  {
    if b == [] {
      assert a + b == a;
    } else {
      TotalAppend(a, b[..|b| - 1]);
      assert (a + b)[..|a + b| - 1] == a + b[..|b| - 1];
    }
  }

  lemma TotalInserted(cells: seq<Cell>, p: nat, c: Cell)
    requires p <= |cells|
    ensures TotalSize(Inserted(cells, p, c)) == TotalSize(cells) + CellSize(c)
  {
    assert cells == cells[..p] + cells[p..];
    TotalAppend(cells[..p], cells[p..]);
    TotalAppend(cells[..p], [c]);
    TotalAppend(cells[..p] + [c], cells[p..]);
    assert [c][..0] == [];
  }

  // An old cell is still there, bit for bit, behind its possibly shifted slot.
  lemma OldCell(base: nat, h: NodeInfo, d: seq<byte>, cells: seq<Cell>, p: nat, c: Cell, e: seq<byte>, i: nat)
    requires Layout(base, h, d, cells) && CellInserted(base, h, d, p, c, e) && i < |cells|
    ensures var k := if i < p then i else i + 1;
      Slot(base, h.ptype, e, k) == Slot(base, h.ptype, d, i) && CellAt(e, Slot(base, h.ptype, e, k), cells[i])
  {
    hide CellAt, TotalSize, Get2;
    CellInside(d, Slot(base, h.ptype, d, i), cells[i]);
    CellAtFrame(d, e, Slot(base, h.ptype, d, i), cells[i]);
  }

  // insertCell refines sequence insertion.
  lemma InsertedLayout(base: nat, h: NodeInfo, d: seq<byte>, cells: seq<Cell>, p: nat, c: Cell, e: seq<byte>)
    requires Layout(base, h, d, cells) && CellInserted(base, h, d, p, c, e) && TypeOf(c) == h.ptype && CellFits(c)
    ensures Layout(base, AfterInsert(h, CellSize(c)), e, Inserted(cells, p, c))
  {
    hide CellAt, TotalSize, Get2, Inserted;
    TotalInserted(cells, p, c);
    var h', r := AfterInsert(h, CellSize(c)), Inserted(cells, p, c);
    forall i | 0 <= i < |cells|
      ensures var k := if i < p then i else i + 1;
        && Slot(base, h.ptype, e, k) == Slot(base, h.ptype, d, i)
        && CellAt(e, Slot(base, h.ptype, e, k), cells[i]) && r[k] == cells[i]
    {
      OldCell(base, h, d, cells, p, c, e, i);
    }
    InsertedSlots(base, h, d, cells, p, c, e);
    InsertedApart(base, h, d, cells, p, c, e);
  }

  lemma InsertedSlots(base: nat, h: NodeInfo, d: seq<byte>, cells: seq<Cell>, p: nat, c: Cell, e: seq<byte>)
    requires Layout(base, h, d, cells) && CellInserted(base, h, d, p, c, e) && TypeOf(c) == h.ptype && CellFits(c)
    ensures var h' := AfterInsert(h, CellSize(c));
      Bounds(base, h', e, |cells| + 1) && SlotsHold(base, h', e, Inserted(cells, p, c))
  {
    hide CellAt, TotalSize, Get2, Inserted, CellFits, TypeOf;
    var h', r := AfterInsert(h, CellSize(c)), Inserted(cells, p, c);
    forall k | 0 <= k < |r|
      ensures TypeOf(r[k]) == h'.ptype && CellFits(r[k]) && h'.cellsOffset <= Slot(base, h'.ptype, e, k)
      ensures CellAt(e, Slot(base, h'.ptype, e, k), r[k])
    {
      if k != p {
        OldCell(base, h, d, cells, p, c, e, if k < p then k else k - 1);
      }
    }
  }

  lemma InsertedApart(base: nat, h: NodeInfo, d: seq<byte>, cells: seq<Cell>, p: nat, c: Cell, e: seq<byte>)
    requires Layout(base, h, d, cells) && CellInserted(base, h, d, p, c, e)
    ensures var h' := AfterInsert(h, CellSize(c));
      Bounds(base, h', e, |cells| + 1) && ExtentsApart(base, h', e, Inserted(cells, p, c))
  {
    hide CellAt, TotalSize, Get2, Inserted;
    var r := Inserted(cells, p, c);
    forall i, j | 0 <= i < j < |r|
      ensures Apart(Slot(base, h.ptype, e, i), CellSize(r[i]), Slot(base, h.ptype, e, j), CellSize(r[j]))
    {
      var i', j' := if i < p then i else i - 1, if j < p then j else j - 1;
      if i != p && j != p {
        assert Apart(Slot(base, h.ptype, d, i'), CellSize(cells[i']), Slot(base, h.ptype, d, j'), CellSize(cells[j']));
      }
    }
  }

  // ---- empty pages ---------------------------------------------------------------------------------

  function EmptyInfo(base: nat, ptype: byte, pageSize: nat): NodeInfo {
    NodeInfo(ptype, base + HeaderSize(ptype), 0, pageSize, 0)
  }

  lemma EmptyLayout(base: nat, ptype: byte, d: seq<byte>)
    requires IsType(ptype) && base + 12 <= |d| < 0x1_0000
    ensures Layout(base, EmptyInfo(base, ptype, |d|), d, [])
  {
  }

  // ---- headers -------------------------------------------------------------------------------------

  function ReadInfo(base: nat, d: seq<byte>): NodeInfo
    requires base + 12 <= |d|
  {
    NodeInfo(d[base], Get2At(d, base + 1), Get2At(d, base + 3), Get2At(d, base + 5),
             if IsInternal(d[base]) then Get4At(d, base + 8) else 0)
  }

  // A page whose bytes alone stand for a node of this type with these cells and right page.
  ghost predicate PageHolds(base: nat, d: seq<byte>, ptype: byte, cells: seq<Cell>, rightPage: nat) {
    && base + 12 <= |d|
    && ReadInfo(base, d).ptype == ptype && (IsInternal(ptype) ==> ReadInfo(base, d).rightPage == rightPage)
    && Layout(base, ReadInfo(base, d), d, cells)
  }

  // Layout does not look at the header bytes.
  lemma LayoutAfterHeader(base: nat, h: NodeInfo, d: seq<byte>, e: seq<byte>, cells: seq<Cell>)
    requires Layout(base, h, d, cells) && |e| == |d|
    requires forall i :: ArrayStart(base, h.ptype) <= i < |d| ==> e[i] == d[i]
    ensures Layout(base, h, e, cells)
  {
    hide CellAt, TotalSize, Get2;
    forall i | 0 <= i < |cells| ensures CellAt(e, Slot(base, h.ptype, e, i), cells[i]) {
      CellInside(d, Slot(base, h.ptype, d, i), cells[i]);
      CellAtFrame(d, e, Slot(base, h.ptype, d, i), cells[i]);
    }
  }
}
