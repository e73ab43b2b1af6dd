// The doubly linked list of simclist.c: sentinels at both ends, a cached pointer to the
// middle element, and a small pool of spare nodes.
module SimcLists {
  import opened Common
  import opened ListOrders

  class ListEntry<T(0)> {
    var data: T
    var next: ListEntry?<T>
    var prev: ListEntry?<T>

    constructor ()
      ensures next == null && prev == null
    {
      next, prev := null, null;
    }
  }

  const MAX_SPARE_ELEMS: nat := 5
  const MIN_QUICKSORT_ELEMS: nat := 24

  // Consecutive entries point at each other.
  ghost predicate Chain<T(0)>(nodes: seq<ListEntry<T>>)
    reads nodes`next, nodes`prev
  {
    && (forall i, j :: 0 <= i < j < |nodes| ==> nodes[i] != nodes[j])
    && (forall i :: 0 <= i < |nodes| - 1 ==> nodes[i].next == nodes[i + 1])
    && (forall i :: 0 <= i < |nodes| - 1 ==> nodes[i + 1].prev == nodes[i])
  }

  ghost function Data<T(0)>(nodes: seq<ListEntry<T>>): (s: seq<T>)
    reads nodes`data
    ensures |s| == |nodes| && forall i :: 0 <= i < |nodes| ==> s[i] == nodes[i].data
  {
    if nodes == [] then [] else Data(nodes[..|nodes| - 1]) + [nodes[|nodes| - 1].data]
  }

  class List<T(0, !new)> {
    var head: ListEntry<T>
    var tail: ListEntry<T>
    var mid: ListEntry?<T>
    var numels: nat
    var spares: seq<ListEntry<T>>
    var iterActive: bool
    // All entries in order, with the two sentinels.
    ghost var nodes: seq<ListEntry<T>>

    // list_repOk
    ghost predicate Valid()
      reads this, nodes`next, nodes`prev
    {
      Linked() && MidRight() && Pooled()
    }

    ghost predicate Linked()
      reads this`head, this`tail, this`numels, this`nodes, nodes`next, nodes`prev
    {
      && |nodes| == numels + 2 && nodes[0] == head && nodes[numels + 1] == tail
      && head.prev == null && tail.next == null && Chain(nodes)
    }

    // The middle pointer is at index (n - 1) / 2.
    ghost predicate MidRight()
      reads this`mid, this`numels, this`nodes
    {
      |nodes| == numels + 2 && if numels == 0 then mid == null else mid == nodes[1 + (numels - 1) / 2]
    }

    ghost predicate Pooled()
      reads this`spares, this`nodes
    {
      && |spares| <= MAX_SPARE_ELEMS
      && (forall i, j :: 0 <= i < j < |spares| ==> spares[i] != spares[j])
      && (forall i :: 0 <= i < |spares| ==> spares[i] !in nodes)
    }

    ghost function Elements(): (s: seq<T>)
      requires |nodes| == numels + 2
      reads this`numels, this`nodes, nodes`data
      ensures |s| == numels && forall i :: 0 <= i < numels ==> s[i] == nodes[i + 1].data
    {
      Data(nodes[1..numels + 1])
    }

    constructor ()
      ensures Valid() && numels == 0 && !iterActive && fresh(head) && fresh(tail) && spares == []
      ensures nodes == [head, tail] && head != tail
    {
      var h := new ListEntry<T>();
      var t := new ListEntry<T>();
      head, tail, mid, numels, spares, iterActive := h, t, null, 0, [], false;
      nodes := [h, t];
      new;
      head.next := tail;
      tail.prev := head;
    }

    // list_findpos: from the head, from the middle in either direction, or from the tail,
    // by the quarter of the list that the position lies in.
    method FindPos(pos: int) returns (r: ListEntry?<T>)
      requires Valid()
      ensures r == if -1 <= pos <= numels then nodes[pos + 1] else null
    {
      if pos < -1 || pos > numels {
        return null;
      }
      if numels != 0 && 4 * (pos + 1) <= numels {
        r := Forward(head, 0, pos + 1);
      } else if numels != 0 && 2 * (pos + 1) < numels {
        r := Backward(mid, 1 + (numels - 1) / 2, pos + 1);
      } else if numels != 0 && 4 * (pos + 1) <= 3 * numels {
        r := Forward(mid, 1 + (numels - 1) / 2, pos + 1);
      } else {
        r := Backward(tail, numels + 1, pos + 1);
      }
    }

    method Forward(start: ListEntry<T>, from: nat, to: nat) returns (r: ListEntry<T>)
      requires Linked() && from <= to < |nodes| && nodes[from] == start
      ensures r == nodes[to]
    {
      r := start;
      var i := from;
      while i < to
        invariant from <= i <= to && r == nodes[i]
      {
        assert nodes[i].next == nodes[i + 1];
        r := r.next;
        i := i + 1;
      }
    }

    method Backward(start: ListEntry<T>, from: nat, to: nat) returns (r: ListEntry<T>)
      requires Linked() && to <= from < |nodes| && nodes[from] == start
      ensures r == nodes[to]
    {
      r := start;
      var i := from;
      while i > to
        invariant to <= i <= from && r == nodes[i]
      {
        assert nodes[(i - 1) + 1].prev == nodes[i - 1];
        r := r.prev;
        i := i - 1;
      }
    }

    // ---- insertion ---------------------------------------------------------------------------------

    // A spare entry if there is one, a new one otherwise.
    method TakeEntry(x: T) returns (e: ListEntry<T>)
      requires Valid()
      modifies this`spares, spares
      ensures Valid() && e !in nodes && e !in spares && (fresh(e) || e in old(spares)) && e.data == x
      ensures |spares| <= |old(spares)| && forall s :: s in spares ==> s in old(spares)
    {
      if |spares| > 0 {
        e := spares[|spares| - 1];
        spares := spares[..|spares| - 1];
      } else {
        e := new ListEntry<T>();
      }
      e.data := x;
    }

    // The middle after an entry joined at position pos; mid is the middle before that.
    method FixMidInserted(entry: ListEntry<T>, pos: nat)
      requires 0 < numels && |nodes| == numels + 2 && Chain(nodes) && pos < numels && nodes[pos + 1] == entry
      requires numels > 1 ==> mid == nodes[1 + (numels - 2) / 2 + if pos <= (numels - 2) / 2 then 1 else 0]
      modifies this`mid
      ensures mid == nodes[1 + (numels - 1) / 2]
    {
      if numels == 1 {
        mid := entry;
      } else if numels % 2 == 1 {
        if pos >= (numels - 1) / 2 {
          assert nodes[(numels - 1) / 2].next == nodes[(numels - 1) / 2 + 1];
          mid := mid.next;
        }
      } else {
        if pos <= (numels - 1) / 2 {
          assert nodes[1 + (numels - 1) / 2 + 1].prev == nodes[1 + (numels - 1) / 2];
          mid := mid.prev;
        }
      }
    }

    // Links an entry in behind position pos and corrects the middle.
    method Splice(prec: ListEntry<T>, entry: ListEntry<T>, pos: nat)
      requires Linked() && MidRight() && pos <= numels && nodes[pos] == prec && entry !in nodes
      modifies this`nodes, this`numels, this`mid, nodes, entry
      ensures Linked() && MidRight() && nodes == Joined(old(nodes), pos, entry) && numels == old(numels) + 1
      ensures forall e :: e in old(nodes) || e == entry ==> e.data == old(e.data)
    {
      hide Chain;
      ghost var was := nodes;
      LinkAfter(prec, entry, nodes, pos);
      nodes := Joined(nodes, pos, entry);
      numels := numels + 1;
      FixMidInserted(entry, pos);
    }

    // list_insert_at; false is the error answer.
    method InsertAt(x: T, pos: nat) returns (ok: bool)
      requires Valid()
      modifies this, nodes, spares
      ensures Valid() && iterActive == old(iterActive) && head == old(head) && tail == old(tail)
      ensures ok <==> !old(iterActive) && pos <= old(numels)
      ensures Elements() == if ok then old(Elements()[..pos] + [x] + Elements()[pos..]) else old(Elements())
      ensures forall e :: e in nodes || e in spares ==> e in old(nodes) || e in old(spares) || fresh(e)
    {
      hide Chain, Joined, Elements, MidRight, Linked;
      if iterActive || pos > numels {
        return false;
      }
      PoolAndEnds();
      var entry := TakeEntry(x);
      var prec := FindPos(pos - 1);
      ghost var was, before := nodes, Elements();
      Splice(prec, entry, pos);
      JoinedIndex(was, pos, entry);
      JoinedElements(was, before, pos, entry);
      ok := true;
    }

    // ---- removal -----------------------------------------------------------------------------------

    // Puts count entries from node position a on into the pool as long as there is room, and
    // answers the entry behind them.
    method SpareEntries(first: ListEntry<T>, a: nat, count: nat) returns (after: ListEntry<T>)
      requires Linked() && Pooled() && 0 < a && a + count < |nodes| && nodes[a] == first
      modifies this`spares
      ensures after == nodes[a + count]
      ensures |spares| <= MAX_SPARE_ELEMS && (forall i, j :: 0 <= i < j < |spares| ==> spares[i] != spares[j])
      ensures forall i :: 0 <= i < |spares| ==>
        spares[i] in old(spares) || exists k :: a <= k < a + count && nodes[k] == spares[i]
    {
      after := first;
      var i := 0;
      while i < count
        invariant i <= count && after == nodes[a + i]
        invariant |spares| <= MAX_SPARE_ELEMS && (forall j, k :: 0 <= j < k < |spares| ==> spares[j] != spares[k])
        invariant forall j :: 0 <= j < |spares| ==>
          spares[j] in old(spares) || exists k :: a <= k < a + i && nodes[k] == spares[j]
      {
        assert nodes[a + i].next == nodes[a + i + 1];
        assert nodes[a + i] !in spares by {
          assert forall j :: 0 <= j < |spares| ==> spares[j] != nodes[a + i];
        }
        if |spares| < MAX_SPARE_ELEMS {
          spares := spares + [after];
        }
        after := after.next;
        i := i + 1;
      }
    }

    // Entries a .. b - 1 leave the chain.
    method Unsplice(prec: ListEntry<T>, succ: ListEntry<T>, ghost a: nat, ghost b: nat)
      requires Linked() && 0 < a <= b < |nodes| && nodes[a - 1] == prec && nodes[b] == succ
      modifies this`nodes, nodes
      ensures |nodes| + (b - a) == |old(nodes)| && nodes == Cut(old(nodes), a, b)
      ensures Chain(nodes) && nodes[0] == head && nodes[|nodes| - 1] == tail && head.prev == null && tail.next == null
      ensures forall e :: e in old(nodes) ==> e.data == old(e.data)
    {
      hide Chain;
      LinkAcross(prec, succ, nodes, a, b);
      nodes := Cut(nodes, a, b);
    }

    // Entries a .. b - 1 leave the list, whose middle becomes the given one.
    method CutOut(prec: ListEntry<T>, succ: ListEntry<T>, a: nat, b: nat, middle: ListEntry?<T>)
      requires Linked() && 0 < a <= b < |nodes| && nodes[a - 1] == prec && nodes[b] == succ && middle == MidAfter(nodes, a, b)
      modifies this`mid, this`numels, this`nodes, nodes
      ensures Linked() && MidRight() && nodes == Cut(old(nodes), a, b)
      ensures Elements() == old(Elements()[..a - 1]) + old(Elements()[b - 1..]) && numels + (b - a) == old(numels)
      ensures forall e :: e in old(nodes) ==> e.data == old(e.data)
    {
      hide Elements, Chain, Cut, MidAfter;
      ghost var was, data := nodes, Elements();
      mid := middle;
      Unsplice(prec, succ, a, b);
      numels := numels - (b - a);
      LinkedAfterCut(was, a, b);
      CutElements(was, data, a, b);
    }

    // list_drop_elem, with the count of its callers.
    method DropElem(entry: ListEntry<T>, pos: nat)
      requires Valid() && pos < numels && nodes[pos + 1] == entry
      modifies this, nodes
      ensures Valid() && iterActive == old(iterActive) && head == old(head) && tail == old(tail)
      ensures Elements() == old(Elements()[..pos]) + old(Elements()[pos + 1..]) && numels == old(numels) - 1
      ensures forall e :: e in nodes || e in spares ==> e in old(nodes) || e in old(spares)
      ensures entry.data == old(entry.data)
    {
      hide Elements, Chain, Cut, MidAfter, Linked, MidRight;
      ghost var was, pool := nodes, spares;
      LinkedParts();
      ChainApart(was);
      FixMidDropped(pos);
      var prec, succ := EntriesAround(entry, pos);
      CutOut(prec, succ, pos + 1, pos + 2, mid);
      if |spares| < MAX_SPARE_ELEMS {
        spares := spares + [entry];
      }
      CutApart(was, pos + 1, pos + 2);
      CutPool(was, pool, spares, pos + 1, pos + 2);
    }

    method EntriesAround(entry: ListEntry<T>, ghost pos: nat) returns (prec: ListEntry<T>, succ: ListEntry<T>)
      requires Linked() && pos < numels && nodes[pos + 1] == entry
      ensures prec == nodes[pos] && succ == nodes[pos + 2]
    {
      assert nodes[pos + 1].next == nodes[pos + 2] && nodes[pos + 1].prev == nodes[pos];
      prec, succ := entry.prev, entry.next;
    }

    method FixMidDropped(pos: nat)
      requires Linked() && MidRight() && pos < numels
      modifies this`mid
      ensures mid == MidAfter(nodes, pos + 1, pos + 2)
    {
      if numels % 2 == 1 {
        if numels == 1 {
          mid := null;
        } else if pos >= numels / 2 {
          assert nodes[numels / 2 + 1].prev == nodes[numels / 2];
          mid := mid.prev;
        }
      } else if pos < numels / 2 {
        assert nodes[numels / 2].next == nodes[numels / 2 + 1];
        mid := mid.next;
      }
    }

    // list_delete_at
    method DeleteAt(pos: nat) returns (ok: bool)
      requires Valid()
      modifies this, nodes
      ensures Valid() && iterActive == old(iterActive)
      ensures ok <==> !old(iterActive) && pos < old(numels)
      ensures Elements() == if ok then old(Elements()[..pos] + Elements()[pos + 1..]) else old(Elements())
    {
      if iterActive || pos >= numels {
        return false;
      }
      var entry := FindPos(pos);
      DropElem(entry, pos);
      ok := true;
    }

    // list_extract_at
    method ExtractAt(pos: nat) returns (r: Option<T>)
      requires Valid()
      modifies this, nodes
      ensures Valid() && iterActive == old(iterActive)
      ensures r == if !old(iterActive) && pos < old(numels) then Some(old(Elements()[pos])) else None
      ensures Elements() == if r.Some? then old(Elements()[..pos] + Elements()[pos + 1..]) else old(Elements())
    {
      if iterActive || pos >= numels {
        return None;
      }
      var entry := FindPos(pos);
      r := Some(entry.data);
      DropElem(entry, pos);
    }

    // count entries from node position a on leave the list for the pool.
    method DropRange(prec: ListEntry<T>, first: ListEntry<T>, a: nat, count: nat, middle: ListEntry?<T>)
      requires Valid() && 0 < a && a + count < |nodes| && nodes[a - 1] == prec && nodes[a] == first
      requires middle == MidAfter(nodes, a, a + count)
      modifies this`mid, this`numels, this`nodes, this`spares, nodes
      ensures Valid() && numels + count == old(numels)
      ensures Elements() == old(Elements()[..a - 1]) + old(Elements()[a + count - 1..])
    {
      hide Elements, Chain, Cut, MidAfter, Linked, MidRight;
      ghost var was, pool := nodes, spares;
      LinkedParts();
      ChainApart(was);
      var after := SpareEntries(first, a, count);
      CutOut(prec, after, a, a + count, middle);
      CutPool(was, pool, spares, a, a + count);
    }

    // list_clear; None is the error answer.
    method Clear() returns (count: Option<nat>)
      requires Valid()
      modifies this, nodes
      ensures Valid() && iterActive == old(iterActive)
      ensures count == if old(iterActive) then None else Some(old(numels))
      ensures Elements() == if count.Some? then [] else old(Elements())
    {
      hide Chain, Cut, MidAfter, Elements;
      if iterActive {
        return None;
      }
      count := Some(numels);
      MidOfCut(nodes, 1, numels + 1);
      var first := FindPos(0);
      DropRange(head, first, 1, numels, null);
      assert |Elements()| == 0;
    }

    // list_delete_range; None is the error answer.
    method DeleteRange(posstart: nat, posend: nat) returns (count: Option<nat>)
      requires Valid()
      modifies this, nodes
      ensures Valid() && iterActive == old(iterActive)
      ensures count == if !old(iterActive) && posstart <= posend < old(numels) then Some(posend - posstart + 1) else None
      ensures Elements() == if count.Some? then old(Elements()[..posstart] + Elements()[posend + 1..]) else old(Elements())
    {
      if iterActive || posend < posstart || posend >= numels {
        return None;
      }
      var numdel := posend - posstart + 1;
      if numdel == numels {
        count := Clear();
        return;
      }
      CutRange(posstart, numdel);
      count := Some(numdel);
    }

    // The middle of what a range deletion leaves, reached from the present middle.
    method MiddleWithout(posstart: nat, numdel: nat) returns (middle: ListEntry<T>)
      requires Valid() && 0 < numdel < numels && posstart + numdel <= numels
      ensures middle == MidAfter(nodes, posstart + 1, posstart + numdel + 1)
    {
      var half := (numels - 1 - numdel) / 2;
      var target := if half < posstart then half else half + numdel;
      if target > (numels - 1) / 2 {
        middle := Forward(mid, 1 + (numels - 1) / 2, 1 + target);
      } else {
        middle := Backward(mid, 1 + (numels - 1) / 2, 1 + target);
      }
    }

    // The part of list_delete_range that leaves some elements.
    method CutRange(posstart: nat, numdel: nat)
      requires Valid() && 0 < numdel < numels && posstart + numdel <= numels
      modifies this, nodes
      ensures Valid() && iterActive == old(iterActive)
      ensures Elements() == old(Elements()[..posstart] + Elements()[posstart + numdel..])
    {
      hide Elements, Chain, Cut, MidAfter, Linked, MidRight, Pooled;
      LinkedParts();
      var first := FindPos(posstart);
      var prec := FindPos(posstart - 1);
      var middle := MiddleWithout(posstart, numdel);
      DropRange(prec, first, posstart + 1, numdel, middle);
    }

    // ---- sorting -----------------------------------------------------------------------------------

    // Two elements change places.
    method SwapData(a: ListEntry<T>, b: ListEntry<T>, ghost i: nat, ghost j: nat)
      requires Linked() && i < numels && j < numels && nodes[i + 1] == a && nodes[j + 1] == b
      modifies nodes`data
      ensures Elements() == old(Elements()[i := Elements()[j]][j := Elements()[i]])
    {
      ChainApart(nodes);
      a.data, b.data := b.data, a.data;
    }

    // list_sort_selectionsort
    method SelectionSort(compare: (T, T) -> int, versus: int, first: nat, fel: ListEntry<T>, last: nat, lel: ListEntry<T>)
      requires Linked() && first <= last < numels && nodes[first + 1] == fel && nodes[last + 1] == lel
      requires TotalPreorder(compare) && versus != 0
      modifies nodes`data
      ensures Shuffled(old(Elements()), Elements(), first, last + 1)
      ensures SortedBetween(compare, versus, Elements(), first, last + 1)
    {
      hide Linked, Shuffled, InOrder, TotalPreorder, SortedBetween, Elements, Selected;
      LinkedLength();
      ShuffledSame(Elements(), first, last + 1);
      if last <= first {
        OneSorted(compare, versus, Elements(), first);
        return;
      }
      ghost var s := Elements();
      var firstUnsorted := fel;
      ghost var f := first;
      SelectedNone(compare, versus, s, first, last + 1);
      while firstUnsorted != lel
        invariant first <= f <= last && firstUnsorted == nodes[f + 1]
        invariant Shuffled(s, Elements(), first, last + 1) && Selected(compare, versus, Elements(), first, f, last + 1)
        decreases last - f
      {
        ghost var before := Elements();
        SelectOne(compare, versus, firstUnsorted, first, f, lel, last);
        ShuffledTwice(s, before, Elements(), first, last + 1);
        NextEntry(f + 1);
        firstUnsorted := firstUnsorted.next;
        f := f + 1;
      }
      DifferentEntries(f + 1, last + 1);
      SelectedAll(compare, versus, Elements(), first, last + 1);
    }

    // One turn of the selection sort: the first of the remaining elements comes to f.
    method SelectOne(compare: (T, T) -> int, versus: int, start: ListEntry<T>, ghost first: nat, ghost f: nat,
                     lel: ListEntry<T>, ghost last: nat)
      requires Linked() && f <= last < numels && nodes[f + 1] == start && nodes[last + 1] == lel
      requires TotalPreorder(compare) && versus != 0 && Selected(compare, versus, Elements(), first, f, last + 1)
      modifies nodes`data
      ensures Shuffled(old(Elements()), Elements(), first, last + 1)
      ensures Selected(compare, versus, Elements(), first, f + 1, last + 1)
    {
      hide Linked, Shuffled, InOrder, TotalPreorder, Elements, Selected;
      LinkedLength();
      ghost var before := Elements();
      var toSwap, t := FindFirst(compare, versus, start, f, lel, last);
      DifferentEntries(f + 1, t + 1);
      if toSwap != start {
        SwapData(start, toSwap, f, t);
      } else {
        assert before == before[f := before[t]][t := before[f]];
      }
      SelectedNext(compare, versus, before, Elements(), first, f, t, last + 1);
    }

    // The entry of an element that may stand before all elements from f to last.
    method FindFirst(compare: (T, T) -> int, versus: int, start: ListEntry<T>, ghost f: nat, lel: ListEntry<T>, ghost last: nat)
      returns (toSwap: ListEntry<T>, ghost t: nat)
      requires Linked() && f <= last < numels && nodes[f + 1] == start && nodes[last + 1] == lel
      requires TotalPreorder(compare) && versus != 0
      ensures f <= t <= last && toSwap == nodes[t + 1]
      ensures forall k :: f <= k <= last ==> InOrder(compare, versus, Elements()[t], Elements()[k])
    {
      hide InOrder, TotalPreorder, Elements, Linked;
      LinkedLength();
      ghost var s := Elements();
      OrderFacts(compare, versus, s[f], s[f]);
      NextEntry(f + 1);
      NextEntry(last + 1);
      toSwap, t := start, f;
      var cursor := start.next;
      ghost var c := f + 1;
      while cursor != lel.next
        invariant f < c <= last + 1 && cursor == nodes[c + 1] && f <= t < c && toSwap == nodes[t + 1]
        invariant forall k :: f <= k < c ==> InOrder(compare, versus, s[t], s[k])
        decreases last + 1 - c
      {
        DifferentEntries(c + 1, last + 2);
        OutOfOrder(compare, versus, s[t], s[c]);
        DataAt(t);
        DataAt(c);
        if compare(toSwap.data, cursor.data) * -versus > 0 {
          forall k | f <= k <= c ensures InOrder(compare, versus, s[c], s[k]) {
            if k < c {
              OrderChains(compare, versus, s[c], s[t], s[k]);
            } else {
              OrderFacts(compare, versus, s[c], s[c]);
            }
          }
          toSwap, t := cursor, c;
        }
        NextEntry(c + 1);
        cursor := cursor.next;
        c := c + 1;
      }
      DifferentEntries(c + 1, last + 2);
    }

    // The data of two elements and the pivot between them go round.
    method RotateLeft(left: ListEntry<T>, pivot: ListEntry<T>, ghost l: nat, ghost p: nat)
      requires Linked() && l < p < numels && nodes[l + 1] == left && nodes[p + 1] == pivot
      modifies nodes`data
      ensures Elements() == RotatedLeft(old(Elements()), l, p)
    {
      ChainApart(nodes);
      NextEntry(p);
      var tmp := left.data;
      left.data := pivot.prev.data;
      pivot.prev.data := pivot.data;
      pivot.data := tmp;
    }

    method RotateRight(pivot: ListEntry<T>, right: ListEntry<T>, ghost p: nat, ghost r: nat)
      requires Linked() && p < r < numels && nodes[p + 1] == pivot && nodes[r + 1] == right
      modifies nodes`data
      ensures Elements() == RotatedRight(old(Elements()), p, r)
    {
      ChainApart(nodes);
      NextEntry(p + 1);
      var tmp := right.data;
      right.data := pivot.next.data;
      pivot.next.data := pivot.data;
      pivot.data := tmp;
    }

    // The two ends approach the pivot until one of them reaches it.
    method Meet(compare: (T, T) -> int, versus: int, fel: ListEntry<T>, pivot: ListEntry<T>, lel: ListEntry<T>,
                ghost first: nat, ghost p: nat, ghost last: nat)
      returns (left: ListEntry<T>, right: ListEntry<T>, ghost l: nat, ghost r: nat)
      requires Linked() && first <= p <= last < numels
      requires nodes[first + 1] == fel && nodes[p + 1] == pivot && nodes[last + 1] == lel
      requires TotalPreorder(compare) && versus != 0
      modifies nodes`data
      ensures Meeting(compare, versus, Elements(), first, l, p, r, last + 1) && Shuffled(old(Elements()), Elements(), first, last + 1)
      ensures l < numels && r < numels && left == nodes[l + 1] && right == nodes[r + 1] && (l == p || r == p)
    {
      hide Linked, Shuffled, InOrder, TotalPreorder, Elements, Meeting;
      LinkedLength();
      left, right, l, r := fel, lel, first, last;
      ghost var s := Elements();
      MeetingStarts(compare, versus, s, first, p, last + 1);
      ShuffledSame(s, first, last + 1);
      while left != pivot && right != pivot
        invariant l < numels && r < numels && left == nodes[l + 1] && right == nodes[r + 1]
        invariant Meeting(compare, versus, Elements(), first, l, p, r, last + 1)
        invariant Shuffled(s, Elements(), first, last + 1)
        decreases r - l
      {
        ghost var before := Elements();
        left, right, l, r := MeetOnce(compare, versus, left, pivot, right, first, l, p, r, last);
        ShuffledTwice(s, before, Elements(), first, last + 1);
      }
      MeetingBounds(compare, versus, Elements(), first, l, p, r, last + 1);
      DifferentEntries(l + 1, p + 1);
      DifferentEntries(r + 1, p + 1);
    }

    // One turn: both ends move to an element of the wrong side, which are exchanged.
    method MeetOnce(compare: (T, T) -> int, versus: int, left0: ListEntry<T>, pivot: ListEntry<T>, right0: ListEntry<T>,
                    ghost first: nat, ghost l0: nat, ghost p: nat, ghost r0: nat, ghost last: nat)
      returns (left: ListEntry<T>, right: ListEntry<T>, ghost l: nat, ghost r: nat)
      requires Linked() && last < numels && l0 < numels && r0 < numels && p < numels
      requires nodes[l0 + 1] == left0 != pivot && nodes[p + 1] == pivot && nodes[r0 + 1] == right0 != pivot
      requires TotalPreorder(compare) && versus != 0 && Meeting(compare, versus, Elements(), first, l0, p, r0, last + 1)
      modifies nodes`data
      ensures Meeting(compare, versus, Elements(), first, l, p, r, last + 1) && Shuffled(old(Elements()), Elements(), first, last + 1)
      ensures l < numels && r < numels && left == nodes[l + 1] && right == nodes[r + 1]
      ensures l0 <= r0 && 0 <= r - l < r0 - l0
    {
      hide Linked, Shuffled, InOrder, TotalPreorder, Elements, Meeting;
      LinkedLength();
      ghost var s := Elements();
      MeetingBounds(compare, versus, s, first, l0, p, r0, last + 1);
      ShuffledSame(s, first, last + 1);
      left, l := ScanLeft(compare, versus, left0, pivot, first, l0, p, r0, last);
      right, r := ScanRight(compare, versus, right0, pivot, first, l, p, r0, last);
      MeetingBounds(compare, versus, s, first, l, p, r, last + 1);
      DifferentEntries(l0 + 1, p + 1);
      DifferentEntries(r0 + 1, p + 1);
      DifferentEntries(l + 1, p + 1);
      DifferentEntries(r + 1, p + 1);
      if left != pivot && right != pivot {
        SwapData(left, right, l, r);
        MeetingSwap(compare, versus, s, Elements(), first, l, p, r, last + 1);
        NextEntry(l + 1);
        NextEntry(r);
        left, right, l, r := left.next, right.prev, l + 1, r - 1;
      }
    }

    method ScanLeft(compare: (T, T) -> int, versus: int, left0: ListEntry<T>, pivot: ListEntry<T>,
                    ghost first: nat, ghost l0: nat, ghost p: nat, ghost r: nat, ghost last: nat)
      returns (left: ListEntry<T>, ghost l: nat)
      requires Linked() && last < numels && l0 < numels && p < numels && nodes[l0 + 1] == left0 && nodes[p + 1] == pivot
      requires TotalPreorder(compare) && versus != 0 && Meeting(compare, versus, Elements(), first, l0, p, r, last + 1)
      ensures Meeting(compare, versus, Elements(), first, l, p, r, last + 1) && l0 <= l < numels && left == nodes[l + 1]
      ensures left != pivot ==> InOrder(compare, versus, Elements()[p], Elements()[l])
    {
      hide Linked, InOrder, TotalPreorder, Elements, Meeting;
      LinkedLength();
      ghost var s := Elements();
      left, l := left0, l0;
      while left != pivot && compare(left.data, pivot.data) * -versus <= 0
        invariant l0 <= l < numels && left == nodes[l + 1] && Meeting(compare, versus, s, first, l, p, r, last + 1)
        decreases p - l
      {
        DataAt(l);
        DataAt(p);
        MeetingBounds(compare, versus, s, first, l, p, r, last + 1);
        DifferentEntries(l + 1, p + 1);
        OutOfOrder(compare, versus, s[l], s[p]);
        MeetingLeft(compare, versus, s, first, l, p, r, last + 1);
        NextEntry(l + 1);
        left, l := left.next, l + 1;
      }
      DataAt(l);
      DataAt(p);
      OutOfOrder(compare, versus, s[l], s[p]);
    }

    method ScanRight(compare: (T, T) -> int, versus: int, right0: ListEntry<T>, pivot: ListEntry<T>,
                     ghost first: nat, ghost l: nat, ghost p: nat, ghost r0: nat, ghost last: nat)
      returns (right: ListEntry<T>, ghost r: nat)
      requires Linked() && last < numels && r0 < numels && p < numels && nodes[r0 + 1] == right0 && nodes[p + 1] == pivot
      requires TotalPreorder(compare) && versus != 0 && Meeting(compare, versus, Elements(), first, l, p, r0, last + 1)
      ensures Meeting(compare, versus, Elements(), first, l, p, r, last + 1) && r <= r0 && right == nodes[r + 1]
      ensures right != pivot ==> InOrder(compare, versus, Elements()[r], Elements()[p])
    {
      hide Linked, InOrder, TotalPreorder, Elements, Meeting;
      LinkedLength();
      ghost var s := Elements();
      right, r := right0, r0;
      while right != pivot && compare(right.data, pivot.data) * -versus >= 0
        invariant r <= r0 && right == nodes[r + 1] && Meeting(compare, versus, s, first, l, p, r, last + 1)
        decreases r
      {
        DataAt(r);
        DataAt(p);
        MeetingBounds(compare, versus, s, first, l, p, r, last + 1);
        DifferentEntries(r + 1, p + 1);
        OrderFacts(compare, versus, s[r], s[p]);
        MeetingRight(compare, versus, s, first, l, p, r, last + 1);
        NextEntry(r);
        right, r := right.prev, r - 1;
      }
      DataAt(r);
      DataAt(p);
      OrderFacts(compare, versus, s[r], s[p]);
    }

    // One turn of the loops below.
    method DrainLeftOnce(compare: (T, T) -> int, versus: int, left0: ListEntry<T>, pivot0: ListEntry<T>, pivotid0: nat,
                         first: nat, ghost l0: nat, ghost last: nat)
      returns (left: ListEntry<T>, pivot: ListEntry<T>, pivotid: nat, ghost l: nat)
      requires Linked() && last < numels && l0 < numels && first + pivotid0 < numels
      requires nodes[l0 + 1] == left0 && nodes[first + pivotid0 + 1] == pivot0 && left0 != pivot0
      requires TotalPreorder(compare) && versus != 0
      requires Meeting(compare, versus, Elements(), first, l0, first + pivotid0, first + pivotid0, last + 1)
      modifies nodes`data
      ensures l < numels && left == nodes[l + 1] && first + pivotid < numels && pivot == nodes[first + pivotid + 1]
      ensures Meeting(compare, versus, Elements(), first, l, first + pivotid, first + pivotid, last + 1)
      ensures Shuffled(old(Elements()), Elements(), first, last + 1) && 0 <= first + pivotid - l < first + pivotid0 - l0
    {
      hide Linked, Shuffled, InOrder, TotalPreorder, Elements, Meeting;
      LinkedLength();
      ghost var now, p := Elements(), first + pivotid0;
      left, pivot, pivotid, l := left0, pivot0, pivotid0, l0;
      MeetingBounds(compare, versus, now, first, l, p, p, last + 1);
      DifferentEntries(l + 1, p + 1);
      DataAt(l);
      DataAt(p);
      OutOfOrder(compare, versus, now[l], now[p]);
      if compare(left.data, pivot.data) * -versus > 0 {
        RotateLeft(left, pivot, l, p);
        MeetingRotateLeft(compare, versus, now, first, l, p, last + 1);
        MeetingBounds(compare, versus, Elements(), first, l, p - 1, p - 1, last + 1);
        NextEntry(p);
        pivot, pivotid := pivot.prev, pivotid - 1;
      } else {
        ShuffledSame(now, first, last + 1);
        MeetingLeft(compare, versus, now, first, l, p, p, last + 1);
        NextEntry(l + 1);
        left, l := left.next, l + 1;
      }
    }

    method DrainRightOnce(compare: (T, T) -> int, versus: int, pivot0: ListEntry<T>, right0: ListEntry<T>, pivotid0: nat,
                          first: nat, ghost r0: nat, ghost last: nat)
      returns (pivot: ListEntry<T>, right: ListEntry<T>, pivotid: nat, ghost r: nat)
      requires Linked() && last < numels && r0 < numels && first + pivotid0 < numels
      requires nodes[r0 + 1] == right0 && nodes[first + pivotid0 + 1] == pivot0 && right0 != pivot0
      requires TotalPreorder(compare) && versus != 0
      requires Meeting(compare, versus, Elements(), first, first + pivotid0, first + pivotid0, r0, last + 1)
      modifies nodes`data
      ensures r < numels && right == nodes[r + 1] && first + pivotid < numels && pivot == nodes[first + pivotid + 1]
      ensures Meeting(compare, versus, Elements(), first, first + pivotid, first + pivotid, r, last + 1)
      ensures Shuffled(old(Elements()), Elements(), first, last + 1) && 0 <= r - (first + pivotid) < r0 - (first + pivotid0)
    {
      hide Linked, Shuffled, InOrder, TotalPreorder, Elements, Meeting;
      LinkedLength();
      ghost var now, p := Elements(), first + pivotid0;
      pivot, right, pivotid, r := pivot0, right0, pivotid0, r0;
      MeetingBounds(compare, versus, now, first, p, p, r, last + 1);
      DifferentEntries(r + 1, p + 1);
      DataAt(r);
      DataAt(p);
      OrderFacts(compare, versus, now[r], now[p]);
      OutOfOrder(compare, versus, now[r], now[p]);
      if compare(right.data, pivot.data) * -versus < 0 {
        RotateRight(pivot, right, p, r);
        MeetingRotateRight(compare, versus, now, first, p, r, last + 1);
        MeetingBounds(compare, versus, Elements(), first, p + 1, p + 1, r, last + 1);
        NextEntry(p + 1);
        pivot, pivotid := pivot.next, pivotid + 1;
      } else {
        ShuffledSame(now, first, last + 1);
        MeetingRight(compare, versus, now, first, p, p, r, last + 1);
        NextEntry(r);
        right, r := right.prev, r - 1;
      }
    }

    // The right end has reached the pivot: elements of the left part that belong behind it
    // go round until the left end reaches it too.
    method DrainLeft(compare: (T, T) -> int, versus: int, left0: ListEntry<T>, pivot0: ListEntry<T>, pivotid0: nat,
                     first: nat, ghost l0: nat, ghost last: nat) returns (pivot: ListEntry<T>, pivotid: nat)
      requires Linked() && last < numels && l0 < numels && first + pivotid0 < numels
      requires nodes[l0 + 1] == left0 && nodes[first + pivotid0 + 1] == pivot0
      requires TotalPreorder(compare) && versus != 0
      requires Meeting(compare, versus, Elements(), first, l0, first + pivotid0, first + pivotid0, last + 1)
      modifies nodes`data
      ensures first + pivotid <= last && pivot == nodes[first + pivotid + 1]
      ensures Partitioned(compare, versus, Elements(), first, first + pivotid, last + 1)
      ensures Shuffled(old(Elements()), Elements(), first, last + 1)
    {
      hide Linked, Shuffled, InOrder, TotalPreorder, Elements, Meeting, Partitioned;
      LinkedLength();
      var left := left0;
      ghost var s := Elements();
      ghost var l: nat := l0;
      pivot, pivotid := pivot0, pivotid0;
      MeetingBounds(compare, versus, s, first, l, first + pivotid, first + pivotid, last + 1);
      ShuffledSame(s, first, last + 1);
      while left != pivot
        invariant l < numels && left == nodes[l + 1] && first + pivotid < numels && pivot == nodes[first + pivotid + 1]
        invariant Meeting(compare, versus, Elements(), first, l, first + pivotid, first + pivotid, last + 1)
        invariant Shuffled(s, Elements(), first, last + 1)
        decreases first + pivotid - l
      {
        ghost var now := Elements();
        left, pivot, pivotid, l := DrainLeftOnce(compare, versus, left, pivot, pivotid, first, l, last);
        ShuffledTwice(s, now, Elements(), first, last + 1);
      }
      MeetingBounds(compare, versus, Elements(), first, l, first + pivotid, first + pivotid, last + 1);
      DifferentEntries(l + 1, first + pivotid + 1);
      MeetingEnds(compare, versus, Elements(), first, first + pivotid, last + 1);
    }

    // The left end has reached the pivot.
    method DrainRight(compare: (T, T) -> int, versus: int, pivot0: ListEntry<T>, right0: ListEntry<T>, pivotid0: nat,
                      first: nat, ghost r0: nat, ghost last: nat) returns (pivot: ListEntry<T>, pivotid: nat)
      requires Linked() && last < numels && r0 < numels && first + pivotid0 < numels
      requires nodes[r0 + 1] == right0 && nodes[first + pivotid0 + 1] == pivot0
      requires TotalPreorder(compare) && versus != 0
      requires Meeting(compare, versus, Elements(), first, first + pivotid0, first + pivotid0, r0, last + 1)
      modifies nodes`data
      ensures first + pivotid <= last && pivot == nodes[first + pivotid + 1]
      ensures Partitioned(compare, versus, Elements(), first, first + pivotid, last + 1)
      ensures Shuffled(old(Elements()), Elements(), first, last + 1)
    {
      hide Linked, Shuffled, InOrder, TotalPreorder, Elements, Meeting, Partitioned;
      LinkedLength();
      var right := right0;
      ghost var s := Elements();
      ghost var r: nat := r0;
      pivot, pivotid := pivot0, pivotid0;
      MeetingBounds(compare, versus, s, first, first + pivotid, first + pivotid, r, last + 1);
      ShuffledSame(s, first, last + 1);
      while right != pivot
        invariant r < numels && right == nodes[r + 1] && first + pivotid < numels && pivot == nodes[first + pivotid + 1]
        invariant Meeting(compare, versus, Elements(), first, first + pivotid, first + pivotid, r, last + 1)
        invariant Shuffled(s, Elements(), first, last + 1)
        decreases r - (first + pivotid)
      {
        ghost var now := Elements();
        pivot, right, pivotid, r := DrainRightOnce(compare, versus, pivot, right, pivotid, first, r, last);
        ShuffledTwice(s, now, Elements(), first, last + 1);
      }
      MeetingBounds(compare, versus, Elements(), first, first + pivotid, first + pivotid, r, last + 1);
      DifferentEntries(r + 1, first + pivotid + 1);
      MeetingEnds(compare, versus, Elements(), first, first + pivotid, last + 1);
    }

    // A random entry, reached from the nearer end.
    method ChoosePivot(first: nat, fel: ListEntry<T>, last: nat, lel: ListEntry<T>) returns (pivot: ListEntry<T>, pivotid: nat)
      requires Linked() && first < last < numels && nodes[first + 1] == fel && nodes[last + 1] == lel
      ensures first + pivotid <= last && pivot == nodes[first + pivotid + 1]
    {
      var random: nat := *;
      pivotid := random % (last - first + 1);
      if pivotid < (last - first + 1) / 2 {
        pivot := Forward(fel, first + 1, first + pivotid + 1);
      } else {
        pivot := Backward(lel, last + 1, first + pivotid + 1);
      }
    }

    // The pivot's data finds its place.
    method Partition(compare: (T, T) -> int, versus: int, first: nat, fel: ListEntry<T>, last: nat, lel: ListEntry<T>)
      returns (pivot: ListEntry<T>, pivotid: nat)
      requires Linked() && first < last < numels && nodes[first + 1] == fel && nodes[last + 1] == lel
      requires TotalPreorder(compare) && versus != 0
      modifies nodes`data
      ensures first + pivotid <= last && pivot == nodes[first + pivotid + 1]
      ensures Partitioned(compare, versus, Elements(), first, first + pivotid, last + 1)
      ensures Shuffled(old(Elements()), Elements(), first, last + 1)
    {
      hide Linked, Shuffled, InOrder, TotalPreorder, Elements, Meeting, Partitioned;
      LinkedLength();
      pivot, pivotid := ChoosePivot(first, fel, last, lel);
      ghost var s, p := Elements(), first + pivotid;
      var left, right, l, r := Meet(compare, versus, fel, pivot, lel, first, p, last);
      ghost var mid := Elements();
      MeetingBounds(compare, versus, mid, first, l, p, r, last + 1);
      DifferentEntries(r + 1, p + 1);
      if right == pivot {
        pivot, pivotid := DrainLeft(compare, versus, left, pivot, pivotid, first, l, last);
      } else {
        pivot, pivotid := DrainRight(compare, versus, pivot, right, pivotid, first, r, last);
      }
      ShuffledTwice(s, mid, Elements(), first, last + 1);
    }

    // list_sort_quicksort
    method QuickSort(compare: (T, T) -> int, versus: int, first: nat, fel: ListEntry<T>, last: nat, lel: ListEntry<T>)
      requires Linked() && first <= last < numels && nodes[first + 1] == fel && nodes[last + 1] == lel
      requires TotalPreorder(compare) && versus != 0
      modifies nodes`data
      ensures Shuffled(old(Elements()), Elements(), first, last + 1)
      ensures SortedBetween(compare, versus, Elements(), first, last + 1)
      decreases last - first
    {
      hide Linked, Shuffled, InOrder, TotalPreorder, Elements, Partitioned, SortedBetween;
      LinkedLength();
      ghost var s := Elements();
      ShuffledSame(s, first, last + 1);
      OneSorted(compare, versus, s, first);
      if last <= first {
        return;
      }
      if last - first + 1 <= MIN_QUICKSORT_ELEMS {
        SelectionSort(compare, versus, first, fel, last, lel);
        return;
      }
      var pivot, pivotid := Partition(compare, versus, first, fel, last, lel);
      ghost var p, parted := first + pivotid, Elements();
      if pivotid > 0 {
        NextEntry(p);
        QuickSort(compare, versus, first, fel, first + pivotid - 1, pivot.prev);
      } else {
        EmptySorted(compare, versus, parted, first);
      }
      ghost var half := Elements();
      if first + pivotid < last {
        NextEntry(p + 1);
        QuickSort(compare, versus, first + pivotid + 1, pivot.next, last, lel);
      } else {
        EmptySorted(compare, versus, half, p + 1);
      }
      QuickSorted(compare, versus, s, parted, half, Elements(), first, p, last + 1);
    }

    // list_sort; false is the error answer.
    method Sort(comparator: Option<(T, T) -> int>, versus: int) returns (ok: bool)
      requires Valid() && versus != 0 && (comparator.Some? ==> TotalPreorder(comparator.value))
      modifies nodes`data
      ensures Valid() && (ok <==> !iterActive && comparator.Some?)
      ensures multiset(Elements()) == multiset(old(Elements()))
      ensures if ok then SortedBetween(comparator.value, versus, Elements(), 0, numels) else Elements() == old(Elements())
    {
      hide Chain, TotalPreorder, InOrder, Elements;
      if iterActive || comparator.None? {
        return false;
      }
      ok := true;
      if numels <= 1 {
        return;
      }
      NextEntry(0);
      NextEntry(numels);
      ghost var s := Elements();
      QuickSort(comparator.value, versus, 0, head.next, numels - 1, tail.prev);
      WholeShuffled(s, Elements());
    }

    // A chain built behind the head becomes the list.
    method Adopt(middle: ListEntry<T>, end: ListEntry<T>, ghost built: seq<ListEntry<T>>, n1: nat, n2: nat, ghost s: seq<T>)
      requires Chain(built) && HoldsData(built, 1, s) && |built| == 1 + n1 + n2 > 1 && built[0] == head && tail !in built
      requires middle == built[n1] && end == built[|built| - 1] && head.prev == null && tail.next == null && Pooled() && spares == []
      modifies this`nodes, this`numels, this`mid, end`next, tail`prev
      ensures Valid() && Elements() == s
    {
      hide Chain, Elements, HoldsData;
      LinkTail(end, tail, built);
      nodes := built + [tail];
      numels := n1 + n2;
      mid := middle;
      FixMidConcat(n1, n2);
      ConcatElements(this, built, tail, s);
    }

    // The middle of a concatenation, from the last entry of its first part.
    method FixMidConcat(n1: nat, n2: nat)
      requires Linked() && numels == n1 + n2 > 0 && mid == nodes[n1]
      modifies this`mid
      ensures MidRight()
    {
      var err: int := n2 - n1;
      if 0 < err && (err + 1) / 2 > 0 {
        mid := Forward(mid, n1, n1 + (err + 1) / 2);
      } else if TowardZero(err) < 0 {
        mid := Backward(mid, n1, n1 + TowardZero(err));
      }
    }

    lemma LinkedLength()
      requires Linked()
      ensures |nodes| == numels + 2
    {
    }

    lemma DataAt(i: nat)
      requires |nodes| == numels + 2 && i < numels
      ensures Elements()[i] == nodes[i + 1].data
    {
    }

    lemma NextEntry(i: nat)
      requires Linked() && i + 1 < |nodes|
      ensures nodes[i].next == nodes[i + 1] && nodes[i + 1].prev == nodes[i]
    {
    }

    lemma DifferentEntries(i: nat, j: nat)
      requires Linked() && i < |nodes| && j < |nodes|
      ensures nodes[i] == nodes[j] <==> i == j
    {
      ChainApart(nodes);
    }

    lemma LinkedParts()
      requires Linked() && MidRight()
      ensures |nodes| == numels + 2 && Chain(nodes)
    {
    }

    // Rebuilding the invariant once entries a .. b - 1 are gone.
    lemma LinkedAfterCut(was: seq<ListEntry<T>>, a: nat, b: nat)
      requires 0 < a <= b < |was| && nodes == Cut(was, a, b) && numels + 2 == |nodes| && Chain(nodes)
      requires nodes[0] == head && nodes[numels + 1] == tail && head.prev == null && tail.next == null
      requires mid == MidAfter(was, a, b)
      ensures Linked() && MidRight()
    {
      hide Chain;
      MidOfCut(was, a, b);
    }

    lemma CutElements(was: seq<ListEntry<T>>, data: seq<T>, a: nat, b: nat)
      requires Linked() && 0 < a <= b < |was| && nodes == Cut(was, a, b) && |data| + 2 == |was|
      requires forall i :: 0 <= i < |data| ==> was[i + 1].data == data[i]
      ensures Elements() == data[..a - 1] + data[b - 1..]
    {
      hide Chain;
    }

    lemma PoolAndEnds()
      requires Linked()
      ensures |nodes| == numels + 2 && nodes[0] == head && nodes[numels + 1] == tail
    {
    }

    lemma JoinedElements(was: seq<ListEntry<T>>, data: seq<T>, pos: nat, entry: ListEntry<T>)
      requires Linked() && pos < |was| - 1 && nodes == Joined(was, pos, entry) && |data| + 2 == |was|
      requires forall i :: 0 <= i < |data| ==> was[i + 1].data == data[i]
      ensures Elements() == data[..pos] + [entry.data] + data[pos..]
    {
      hide Chain;
    }
  }

  // Without entries a .. b - 1.
  ghost function Cut<T(0)>(nodes: seq<ListEntry<T>>, a: nat, b: nat): (r: seq<ListEntry<T>>)
    requires a <= b <= |nodes|
    ensures |r| + (b - a) == |nodes|
    ensures forall i :: 0 <= i < |r| ==> r[i] == if i < a then nodes[i] else nodes[i + (b - a)]
  {
    nodes[..a] + nodes[b..]
  }

  // Where the middle will be once entries a .. b - 1 are gone.
  ghost function MidAfter<T(0)>(nodes: seq<ListEntry<T>>, a: nat, b: nat): ListEntry?<T>
    requires 0 < a <= b < |nodes|
  {
    var n := |nodes| - 2 - (b - a);
    if n <= 0 then null
    else
      var k := 1 + (n - 1) / 2;
      if k < a then nodes[k] else nodes[k + (b - a)]
  }

  lemma MidOfCut<T(0)>(nodes: seq<ListEntry<T>>, a: nat, b: nat)
    requires 0 < a <= b < |nodes|
    ensures var n := |nodes| - 2 - (b - a);
      MidAfter(nodes, a, b) == if n <= 0 then null else Cut(nodes, a, b)[1 + (n - 1) / 2]
  {
  }

  lemma ChainApart<T(0)>(nodes: seq<ListEntry<T>>)
    requires Chain(nodes)
    ensures forall i, j :: 0 <= i < j < |nodes| ==> nodes[i] != nodes[j]
  {
  }

  lemma CutApart<T(0)>(nodes: seq<ListEntry<T>>, a: nat, b: nat)
    requires a <= b <= |nodes| && forall i, j :: 0 <= i < j < |nodes| ==> nodes[i] != nodes[j]
    ensures forall e :: e in Cut(nodes, a, b) ==> e in nodes
    ensures forall i :: a <= i < b ==> nodes[i] !in Cut(nodes, a, b)
  {
  }

  // Pooled entries that were cut are not in the chain any more.
  lemma CutPool<T(0)>(nodes: seq<ListEntry<T>>, was: seq<ListEntry<T>>, spares: seq<ListEntry<T>>, a: nat, b: nat)
    requires a <= b <= |nodes| && forall i, j :: 0 <= i < j < |nodes| ==> nodes[i] != nodes[j]
    requires forall i :: 0 <= i < |was| ==> was[i] !in nodes
    requires forall i :: 0 <= i < |spares| ==> spares[i] in was || exists k :: a <= k < b && nodes[k] == spares[i]
    ensures forall i :: 0 <= i < |spares| ==> spares[i] !in Cut(nodes, a, b)
  {
    CutApart(nodes, a, b);
  }

  ghost function Joined<T(0)>(nodes: seq<ListEntry<T>>, pos: nat, entry: ListEntry<T>): (r: seq<ListEntry<T>>)
    requires pos < |nodes|
    ensures |r| == |nodes| + 1
    ensures forall i :: 0 <= i < |r| ==> r[i] == if i <= pos then nodes[i] else if i == pos + 1 then entry else nodes[i - 1]
  {
    nodes[..pos + 1] + [entry] + nodes[pos + 1..]
  }

  lemma JoinedIndex<T(0)>(nodes: seq<ListEntry<T>>, pos: nat, entry: ListEntry<T>)
    requires pos < |nodes|
    ensures forall e :: e in Joined(nodes, pos, entry) <==> e in nodes || e == entry
    ensures forall i :: 0 <= i < |nodes| ==> Joined(nodes, pos, entry)[if i <= pos then i else i + 1] == nodes[i]
  {
    var r := Joined(nodes, pos, entry);
    forall e | e in nodes || e == entry ensures e in r {
      if e in nodes {
        var i :| 0 <= i < |nodes| && nodes[i] == e;
        assert r[if i <= pos then i else i + 1] == e;
      } else {
        assert r[pos + 1] == e;
      }
    }
  }

  // The entry before position a and the one at position b of a chain become neighbours.
  method LinkAcross<T(0)>(prec: ListEntry<T>, succ: ListEntry<T>, ghost nodes: seq<ListEntry<T>>, ghost a: nat, ghost b: nat)
    requires Chain(nodes) && 0 < a <= b < |nodes| && nodes[a - 1] == prec && nodes[b] == succ
    modifies prec, succ
    ensures Chain(Cut(nodes, a, b))
    ensures forall e :: e in nodes ==> e.data == old(e.data)
    ensures nodes[0].prev == old(nodes[0].prev) && nodes[|nodes| - 1].next == old(nodes[|nodes| - 1].next)
  {
    ChainApart(nodes);
    prec.next := succ;
    succ.prev := prec;
    ghost var r := Cut(nodes, a, b);
    forall i, j | 0 <= i < j < |r| ensures r[i] != r[j] {
    }
    forall i | 0 <= i < |r| - 1 ensures r[i].next == r[i + 1] && r[i + 1].prev == r[i] {
      assert i < a - 1 ==> nodes[i].next == nodes[i + 1] && nodes[i + 1].prev == nodes[i];
      assert a <= i ==> nodes[i + (b - a)].next == nodes[i + (b - a) + 1];
      assert a <= i ==> nodes[i + (b - a) + 1].prev == nodes[i + (b - a)];
    }
  }

  // An entry is linked in behind position pos of a chain.
  method LinkAfter<T(0)>(prec: ListEntry<T>, entry: ListEntry<T>, ghost nodes: seq<ListEntry<T>>, ghost pos: nat)
    requires Chain(nodes) && pos + 1 < |nodes| && nodes[pos] == prec && entry !in nodes
    modifies prec, entry, nodes[pos + 1]
    ensures Chain(Joined(nodes, pos, entry))
    ensures forall e :: e in nodes || e == entry ==> e.data == old(e.data)
    ensures nodes[0].prev == old(nodes[0].prev) && nodes[|nodes| - 1].next == old(nodes[|nodes| - 1].next)
  {
    assert nodes[pos].next == nodes[pos + 1];
    var succ := prec.next;
    prec.next := entry;
    entry.prev := prec;
    entry.next := succ;
    succ.prev := entry;
  }

  // ---- concatenation -----------------------------------------------------------------------------

  // A new last entry of a chain.
  method LinkLast<T(0)>(last: ListEntry<T>, x: T, ghost nodes: seq<ListEntry<T>>) returns (entry: ListEntry<T>)
    requires Chain(nodes) && nodes != [] && nodes[|nodes| - 1] == last
    modifies last`next
    ensures fresh(entry) && entry.data == x && Chain(nodes + [entry])
  {
    entry := new ListEntry<T>();
    entry.data := x;
    last.next := entry;
    entry.prev := last;
  }

  // The entries behind the first k hold the first elements of s.
  ghost predicate HoldsData<T(0)>(nodes: seq<ListEntry<T>>, k: nat, s: seq<T>)
    reads nodes`data
  {
    |nodes| == k + |s| && forall i :: 0 <= i < |s| ==> nodes[k + i].data == s[i]
  }

  // Copies of a list's entries, linked in behind the last entry of a chain.
  method CopyBehind<T(0, !new)>(last: ListEntry<T>, source: List<T>, ghost built: seq<ListEntry<T>>, ghost k: nat, ghost s: seq<T>)
    returns (end: ListEntry<T>, ghost longer: seq<ListEntry<T>>)
    requires source.Valid() && Chain(built) && built != [] && built[|built| - 1] == last && last !in source.nodes
    requires HoldsData(built, k, s)
    modifies last`next
    ensures Chain(longer) && |longer| == |built| + source.numels && end == longer[|longer| - 1] && longer[..|built|] == built
    ensures HoldsData(longer, k, s + source.Elements())
    ensures forall e :: e in longer ==> e in built || fresh(e)
    ensures longer[0].prev == old(built[0].prev)
  {
    hide Chain, source.Elements;
    ghost var data := source.Elements();
    end, longer := last, built;
    var from := source.head.next;
    ghost var i := 0;
    source.NextEntry(0);
    assert data[..0] == [] && s + [] == s;
    while from != source.tail
      invariant 0 <= i <= source.numels && from == source.nodes[i + 1]
      invariant source.Valid() && source.Elements() == data
      invariant Chain(longer) && |longer| == |built| + i && end == longer[|longer| - 1] && longer[..|built|] == built
      invariant HoldsData(longer, k, s + data[..i])
      invariant forall e :: e in longer ==> e in built || fresh(e)
      invariant longer[0].prev == old(built[0].prev)
      invariant end == last || fresh(end)
      decreases source.numels - i
    {
      source.DataAt(i);
      assert s + data[..i + 1] == s + data[..i] + [data[i]];
      var copy := LinkLast(end, from.data, longer);
      end, longer := copy, longer + [copy];
      source.NextEntry(i + 1);
      from := from.next;
      i := i + 1;
    }
    source.DifferentEntries(i + 1, source.numels + 1);
    assert data[..i] == data;
  }

  // x / 2 as C divides.
  function TowardZero(x: int): int {
    if 0 <= x then x / 2 else -(-x / 2)
  }

  // list_concat, into a new list.
  method Concat<T(0, !new)>(l1: List<T>, l2: List<T>) returns (dest: List<T>)
    requires l1.Valid() && l2.Valid()
    ensures fresh(dest) && dest.Valid() && dest.Elements() == l1.Elements() + l2.Elements()
  {
    hide Chain, List.Elements;
    dest := new List<T>();
    if l1.numels + l2.numels == 0 {
      assert |l1.Elements()| == 0 && |l2.Elements()| == 0 && |dest.Elements()| == 0;
      return;
    }
    ghost var s := l1.Elements() + l2.Elements();
    var middle, end, built := CopyBoth(dest.head, l1, l2);
    assert end in built;
    dest.Adopt(middle, end, built, l1.numels, l2.numels, s);
  }

  // Both lists' elements behind a head, and the last entry of the first part.
  method CopyBoth<T(0, !new)>(head: ListEntry<T>, l1: List<T>, l2: List<T>)
    returns (middle: ListEntry<T>, end: ListEntry<T>, ghost built: seq<ListEntry<T>>)
    requires l1.Valid() && l2.Valid() && head !in l1.nodes && head !in l2.nodes
    modifies head`next
    ensures Chain(built) && HoldsData(built, 1, l1.Elements() + l2.Elements())
    ensures |built| == 1 + l1.numels + l2.numels && built[0] == head
    ensures middle == built[l1.numels] && end == built[|built| - 1] && head.prev == old(head.prev)
    ensures forall e :: e in built ==> e == head || fresh(e)
  {
    hide Chain, List.Elements, HoldsData, List.Pooled;
    ghost var s1 := l1.Elements();
    JustHead(head);
    ghost var half;
    middle, half := CopyBehind(head, l1, [head], 1, []);
    assert [] + s1 == s1;
    assert half[0] == half[..1][0] && middle in half;
    end, built := CopyBehind(middle, l2, half, 1, s1);
    assert built[0] == built[..|half|][0] && built[|half| - 1] == built[..|half|][|half| - 1];
  }

  lemma JustHead<T(0)>(head: ListEntry<T>)
    ensures Chain([head]) && HoldsData([head], 1, [])
  {
  }

  method LinkTail<T(0)>(end: ListEntry<T>, tail: ListEntry<T>, ghost nodes: seq<ListEntry<T>>)
    requires Chain(nodes) && nodes != [] && nodes[|nodes| - 1] == end && tail !in nodes
    modifies end`next, tail`prev
    ensures Chain(nodes + [tail])
  {
    end.next := tail;
    tail.prev := end;
  }

  lemma ConcatElements<T(0, !new)>(l: List<T>, built: seq<ListEntry<T>>, tail: ListEntry<T>, s: seq<T>)
    requires |l.nodes| == l.numels + 2 && l.nodes == built + [tail] && HoldsData(built, 1, s)
    ensures l.Elements() == s
  {
  }
}
