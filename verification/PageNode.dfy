// In-memory B-Tree nodes: the byte buffer of a page, updated in place (btree.c).
module PageNodes {
  import opened Common
  import opened Bytes
  import opened Pages
  import opened Trees

  // ---- writing numbers -------------------------------------------------------------------------

  method Put2At(a: array<byte>, i: nat, v: nat)
    requires i + 2 <= a.Length && v < 0x1_0000
    modifies a
    ensures Get2(a[i], a[i + 1]) == v
    ensures forall k :: 0 <= k < a.Length && !(i <= k < i + 2) ==> a[k] == old(a[k])
  {
    a[i], a[i + 1] := Put2(v)[0], Put2(v)[1];
    Get2Put2(v);
  }

  method Put4At(a: array<byte>, i: nat, v: nat)
    requires i + 4 <= a.Length
    modifies a
    ensures Get4(a[i], a[i + 1], a[i + 2], a[i + 3]) == v % 0x1_0000_0000
    ensures forall k :: 0 <= k < a.Length && !(i <= k < i + 4) ==> a[k] == old(a[k])
  {
    hide Get4, Put4;
    a[i], a[i + 1], a[i + 2], a[i + 3] := Put4(v)[0], Put4(v)[1], Put4(v)[2], Put4(v)[3];
    Get4Put4(v);
  }

  method PutVarintAt(a: array<byte>, i: nat, v: nat)
    requires i + 4 <= a.Length
    modifies a
    ensures GetVarint(a[i], a[i + 1], a[i + 2], a[i + 3]) == v % 0x1000_0000
    ensures forall k :: 0 <= k < a.Length && !(i <= k < i + 4) ==> a[k] == old(a[k])
  {
    hide GetVarint, PutVarint;
    a[i], a[i + 1], a[i + 2], a[i + 3] := PutVarint(v)[0], PutVarint(v)[1], PutVarint(v)[2], PutVarint(v)[3];
    GetVarintPutVarint(v);
  }

  method CopyInto(a: array<byte>, i: nat, s: seq<byte>)
    requires i + |s| <= a.Length
    modifies a
    ensures a[i..i + |s|] == s
    ensures forall k :: 0 <= k < a.Length && !(i <= k < i + |s|) ==> a[k] == old(a[k])
  {
    for j := 0 to |s|
      invariant forall k :: 0 <= k < j ==> a[i + k] == s[k]
      invariant forall k :: 0 <= k < a.Length && !(i <= k < i + j) ==> a[k] == old(a[k])
    {
      a[i + j] := s[j];
    }
    assert a[i..i + |s|] == s;
  }

  // The bytes of one cell.
  method WriteCell(a: array<byte>, off: nat, c: Cell)
    requires off + CellSize(c) <= a.Length < 0x1_0000
    modifies a
    ensures CellAt(a[..], off, Kept(c)) && SameOutside(old(a[..]), a[..], off, off + CellSize(c))
  {
    hide Get4, GetVarint;
    match c
    case TableInternal(key, child) =>
      Put4At(a, off, child);
      PutVarintAt(a, off + 4, key);
    case TableLeaf(key, data) =>
      PutVarintAt(a, off, |data|);
      PutVarintAt(a, off + 4, key);
      CopyInto(a, off + 8, data);
      assert a[..][off + 8..off + 8 + |data|] == a[off + 8..off + 8 + |data|];
    case IndexInternal(key, child, pk) =>
      Put4At(a, off, child);
      Put4At(a, off + 8, key);
      Put4At(a, off + 12, pk);
    case IndexLeaf(key, pk) =>
      Put4At(a, off + 4, key);
      Put4At(a, off + 8, pk);
  }

  // Reading a cell of a type.
  method ReadCell(a: array<byte>, off: nat, ptype: byte, ghost c: Cell) returns (r: Cell)
    requires IsType(ptype) && TypeOf(c) == ptype && CellAt(a[..], off, c)
    ensures r == c
  {
    hide Get4, GetVarint;
    if ptype == TABLE_INTERNAL {
      r := TableInternal(GetVarint(a[off + 4], a[off + 5], a[off + 6], a[off + 7]),
                         Get4(a[off], a[off + 1], a[off + 2], a[off + 3]));
    } else if ptype == TABLE_LEAF {
      var size := GetVarint(a[off], a[off + 1], a[off + 2], a[off + 3]);
      r := TableLeaf(GetVarint(a[off + 4], a[off + 5], a[off + 6], a[off + 7]), a[off + 8..off + 8 + size]);
      assert a[..][off + 8..off + 8 + size] == a[off + 8..off + 8 + size];
    } else if ptype == INDEX_INTERNAL {
      r := IndexInternal(Get4(a[off + 8], a[off + 9], a[off + 10], a[off + 11]),
                         Get4(a[off], a[off + 1], a[off + 2], a[off + 3]),
                         Get4(a[off + 12], a[off + 13], a[off + 14], a[off + 15]));
    } else {
      r := IndexLeaf(Get4(a[off + 4], a[off + 5], a[off + 6], a[off + 7]),
                     Get4(a[off + 8], a[off + 9], a[off + 10], a[off + 11]));
    }
  }

  ghost predicate SameOutside(d: seq<byte>, e: seq<byte>, lo: nat, hi: nat) {
    |e| == |d| && forall k :: 0 <= k < |d| && !(lo <= k < hi) ==> e[k] == d[k]
  }

  // The number in slot q of a slot array at byte start.
  function SlotAt(d: seq<byte>, start: nat, q: nat): nat
    requires start + 2 * q + 2 <= |d|
  {
    Get2At(d, start + 2 * q)
  }

  // The slots p, ..., n - 1 have moved up by one.
  ghost predicate SlotsShifted(d: seq<byte>, e: seq<byte>, start: nat, p: nat, n: nat) {
    && |d| == |e| && start + 2 * n + 2 <= |d|
    && forall q :: p < q <= n ==> SlotAt(e, start, q) == SlotAt(d, start, q - 1)
  }

  lemma ShiftOne(d: seq<byte>, e: seq<byte>, f: seq<byte>, start: nat, i: nat, n: nat)
    requires 0 < i <= n && SlotsShifted(d, e, start, i, n) && SameOutside(d, e, start + 2 * i + 2, start + 2 * n + 2)
    requires SameOutside(e, f, start + 2 * i, start + 2 * i + 2) && SlotAt(f, start, i) == SlotAt(e, start, i - 1)
    ensures SlotsShifted(d, f, start, i - 1, n) && SameOutside(d, f, start + 2 * (i - 1) + 2, start + 2 * n + 2)
  {
    hide Get2;
    assert SlotAt(e, start, i - 1) == SlotAt(d, start, i - 1);
    forall q | i - 1 < q <= n ensures SlotAt(f, start, q) == SlotAt(d, start, q - 1) {
      assert i < q ==> SlotAt(f, start, q) == SlotAt(e, start, q);
    }
  }

  // Moves the slots p, ..., n - 1 up by one.
  method ShiftSlots(a: array<byte>, start: nat, p: nat, n: nat)
    requires p <= n && start + 2 * n + 2 <= a.Length
    modifies a
    ensures SlotsShifted(old(a[..]), a[..], start, p, n)
    ensures SameOutside(old(a[..]), a[..], start + 2 * p + 2, start + 2 * n + 2)
  {
    hide Get2, SlotsShifted, SameOutside, SlotAt;
    ghost var d := a[..];
    var i := n;
    ShiftNone(d, start, n);
    while i > p
      invariant p <= i <= n
      invariant SlotsShifted(d, a[..], start, i, n) && SameOutside(d, a[..], start + 2 * i + 2, start + 2 * n + 2)
    {
      ghost var e := a[..];
      var from := start + 2 * (i - 1);
      PutSlot(a, start + 2 * i, Get2(a[from], a[from + 1]));
      SlotIs(a[..], start, i);
      SlotIs(e, start, i - 1);
      ShiftOne(d, e, a[..], start, i, n);
      i := i - 1;
    }
  }

  lemma SlotIs(d: seq<byte>, start: nat, q: nat)
    requires start + 2 * q + 2 <= |d|
    ensures SlotAt(d, start, q) == Get2At(d, start + 2 * q)
  {
  }

  lemma ShiftNone(d: seq<byte>, start: nat, n: nat)
    requires start + 2 * n + 2 <= |d|
    ensures SlotsShifted(d, d, start, n, n) && SameOutside(d, d, start + 2 * n + 2, start + 2 * n + 2)
  {
  }

  method PutSlot(a: array<byte>, at: nat, off: nat)
    requires at + 2 <= a.Length && off < 0x1_0000
    modifies a
    ensures Get2At(a[..], at) == off && SameOutside(old(a[..]), a[..], at, at + 2)
  {
    hide Get2;
    Put2At(a, at, off);
  }

  // The writes of insertCell: the cell at off, the moved slots, the new slot.
  method PlaceCell(a: array<byte>, base: nat, h: NodeInfo, p: nat, c: Cell, off: nat)
    requires off + CellSize(c) == h.cellsOffset <= a.Length < 0x1_0000 && CellFits(c)
    requires p <= h.nCells && ArrayStart(base, h.ptype) + 2 * h.nCells + 2 <= off
    modifies a
    ensures CellInserted(base, h, old(a[..]), p, c, a[..])
  {
    hide Get2, CellAt, SlotsShifted, SameOutside, CellInserted;
    ghost var d := a[..];
    var start := ArrayStart(base, h.ptype);
    WriteCell(a, off, c);
    KeptIff(c);
    ghost var d1 := a[..];
    ShiftSlots(a, start, p, h.nCells);
    ghost var d2 := a[..];
    PutSlot(a, start + 2 * p, off);
    SameLength(d, d1, off, h.cellsOffset);
    SlotsMoved(base, h, d, d1, d2, a[..], p, c);
  }

  lemma SameLength(d: seq<byte>, e: seq<byte>, lo: nat, hi: nat)
    requires SameOutside(d, e, lo, hi)
    ensures |e| == |d|
  {
  }

  // ---- nodes -------------------------------------------------------------------------------------

  class BTreeNode {
    const npage: nat
    const data: array<byte>
    var ptype: byte
    var freeOffset: nat
    var nCells: nat
    var cellsOffset: nat
    var rightPage: nat

    // chidb_Btree_getNodeByPage: a private copy of the page, and its header fields.
    constructor (npage: nat, page: seq<byte>)
      requires Base(npage) + 12 <= |page|
      ensures this.npage == npage && fresh(data) && data[..] == page && Info() == ReadInfo(Base(npage), page)
    {
      this.npage := npage;
      var base := Base(npage);
      var copy := new byte[|page|](i requires 0 <= i < |page| => page[i]);
      this.data := copy;
      this.ptype := page[base];
      this.freeOffset := Get2(page[base + 1], page[base + 2]);
      this.nCells := Get2(page[base + 3], page[base + 4]);
      this.cellsOffset := Get2(page[base + 5], page[base + 6]);
      this.rightPage := if IsInternal(page[base]) then Get4(page[base + 8], page[base + 9], page[base + 10], page[base + 11]) else 0;
      new;
      assert data[..] == page;
    }

    function Info(): NodeInfo
      reads this
    {
      NodeInfo(ptype, freeOffset, nCells, cellsOffset, rightPage)
    }

    // The page holds these cells, in order.
    ghost predicate Holds(cells: seq<Cell>)
      reads this, data
    {
      Layout(Base(npage), Info(), data[..], cells)
    }

    // chidb_Btree_getCell; None is CHIDB_ECELLNO.
    method GetCell(i: nat, ghost cells: seq<Cell>) returns (r: Option<Cell>)
      requires Holds(cells)
      ensures r == if i < |cells| then Some(cells[i]) else None
    {
      hide Get2, CellAt, ExtentsApart, TotalSize;
      if nCells <= i {
        return None;
      }
      var at := ArrayStart(Base(npage), ptype) + 2 * i;
      var off := Get2(data[at], data[at + 1]);
      assert off == Slot(Base(npage), ptype, data[..], i);
      var c := ReadCell(data, off, ptype, cells[i]);
      r := Some(c);
    }

    // chidb_Btree_insertCell, given room for the cell and its slot.
    method InsertCell(p: nat, c: Cell, ghost cells: seq<Cell>) returns (ok: bool)
      requires Holds(cells) && TypeOf(c) == ptype && CellFits(c)
      requires freeOffset + CellSize(c) + 2 <= cellsOffset
      modifies this, data
      ensures ok <==> p <= |cells|
      ensures ok ==> Info() == AfterInsert(old(Info()), CellSize(c)) && Holds(Inserted(cells, p, c))
      ensures !ok ==> Info() == old(Info()) && data[..] == old(data[..])
    {
      hide Get2, CellAt, ExtentsApart, TotalSize, SlotsHold, Inserted;
      if nCells < p {
        return false;
      }
      var size, off := CellSize(c), cellsOffset - CellSize(c);
      PlaceCell(data, Base(npage), Info(), p, c, off);
      InsertedLayout(Base(npage), Info(), old(data[..]), cells, p, c, data[..]);
      cellsOffset := off;
      nCells := nCells + 1;
      freeOffset := freeOffset + 2;
      ok := true;
    }

    // chidb_Btree_initEmptyNode, up to writing the page.
    method MakeEmpty(t: byte)
      requires IsType(t) && Base(npage) + 12 <= data.Length < 0x1_0000
      modifies this
      ensures Info() == EmptyInfo(Base(npage), t, data.Length) && Holds([])
    {
      ptype := t;
      nCells := 0;
      cellsOffset := data.Length;
      freeOffset := Base(npage) + HeaderSize(t);
      rightPage := 0;
      EmptyLayout(Base(npage), t, data[..]);
    }

    // The header fields go into the page (chidb_Btree_writeNode).
    method PutHeader(ghost cells: seq<Cell>)
      requires Holds(cells) && Base(npage) + 12 <= data.Length && rightPage < 0x1_0000_0000
      modifies data
      ensures PageHolds(Base(npage), data[..], ptype, cells, rightPage) && Holds(cells)
    {
      hide Get2, Get4, CellAt, ExtentsApart, TotalSize, SlotsHold;
      ghost var d, h := data[..], Info();
      var base := Base(npage);
      data[base] := ptype;
      Put2At(data, base + 1, freeOffset);
      Put2At(data, base + 3, nCells);
      Put2At(data, base + 5, cellsOffset);
      data[base + 7] := 0;
      if IsInternal(ptype) {
        Put4At(data, base + 8, rightPage);
      }
      LayoutAfterHeader(base, h, d, data[..], cells);
      LayoutIgnoresRight(base, h, ReadInfo(base, data[..]), data[..], cells);
    }
  }

  lemma LayoutIgnoresRight(base: nat, h: NodeInfo, h': NodeInfo, d: seq<byte>, cells: seq<Cell>)
    requires Layout(base, h, d, cells) && h' == h.(rightPage := h'.rightPage)
    ensures Layout(base, h', d, cells)
  {
    hide CellAt, Get2, TotalSize;
  }

  // The three writes of insertCell to the page, seen through the slots.
  lemma SlotsMoved(base: nat, h: NodeInfo, d: seq<byte>, d1: seq<byte>, d2: seq<byte>, e: seq<byte>, p: nat, c: Cell)
    requires p <= h.nCells && CellSize(c) <= h.cellsOffset <= |d| == |e|
    requires ArrayStart(base, h.ptype) + 2 * h.nCells + 2 <= h.cellsOffset - CellSize(c)
    requires SameOutside(d, d1, h.cellsOffset - CellSize(c), h.cellsOffset) && CellAt(d1, h.cellsOffset - CellSize(c), c)
    requires var start := ArrayStart(base, h.ptype);
      && SlotsShifted(d1, d2, start, p, h.nCells) && SameOutside(d1, d2, start + 2 * p + 2, start + 2 * h.nCells + 2)
      && SameOutside(d2, e, start + 2 * p, start + 2 * p + 2)
      && Get2At(e, start + 2 * p) == h.cellsOffset - CellSize(c)
    ensures CellInserted(base, h, d, p, c, e)
  {
    hide Get2, CellAt;
    CellAtFrame(d1, e, h.cellsOffset - CellSize(c), c);
    var start := ArrayStart(base, h.ptype);
    forall i | p < i <= h.nCells ensures Slot(base, h.ptype, e, i) == Slot(base, h.ptype, d, i - 1) {
      assert SlotAt(d2, start, i) == SlotAt(d1, start, i - 1);
    }
  }
}
