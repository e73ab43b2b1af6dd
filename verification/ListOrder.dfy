// Orders given by a comparator, and what sorting steps do to a sequence (simclist.c).
module ListOrders {

  // A comparator answers negative, zero or positive; a total preorder answers consistently.
  ghost predicate TotalPreorder<T(!new)>(compare: (T, T) -> int) {
    && (forall x, y :: compare(x, y) < 0 <==> compare(y, x) > 0)
    && (forall x, y, z :: compare(x, y) <= 0 && compare(y, z) <= 0 ==> compare(x, z) <= 0)
  }

  // x may stand before y, in the direction of versus.
  predicate InOrder<T>(compare: (T, T) -> int, versus: int, x: T, y: T) {
    compare(x, y) * -versus <= 0
  }

  lemma Sign(a: int, v: int)
    requires v != 0
    ensures a * -v <= 0 <==> if 0 < v then 0 <= a else a <= 0
    ensures a * -v >= 0 <==> if 0 < v then a <= 0 else 0 <= a
  {
  }

  lemma OrderFacts<T(!new)>(compare: (T, T) -> int, versus: int, x: T, y: T)
    requires TotalPreorder(compare) && versus != 0
    ensures InOrder(compare, versus, x, y) || InOrder(compare, versus, y, x)
    ensures compare(x, y) * -versus >= 0 <==> InOrder(compare, versus, y, x)
  {
    Sign(compare(x, y), versus);
    Sign(compare(y, x), versus);
  }

  lemma OrderChains<T(!new)>(compare: (T, T) -> int, versus: int, x: T, y: T, z: T)
    requires TotalPreorder(compare) && versus != 0
    requires InOrder(compare, versus, x, y) && InOrder(compare, versus, y, z)
    ensures InOrder(compare, versus, x, z)
  {
    Sign(compare(x, y), versus);
    Sign(compare(y, z), versus);
    Sign(compare(x, z), versus);
    assert compare(z, y) <= 0 && compare(y, x) <= 0 ==> compare(z, x) <= 0;
  }

  // ---- segments of a sequence -------------------------------------------------------------------

  ghost predicate SortedBetween<T>(compare: (T, T) -> int, versus: int, s: seq<T>, lo: nat, hi: nat)
    requires hi <= |s|
  {
    forall i, j :: lo <= i < j < hi ==> InOrder(compare, versus, s[i], s[j])
  }

  // The elements of lo..hi are permuted and the others are left alone.
  ghost predicate Shuffled<T>(a: seq<T>, b: seq<T>, lo: nat, hi: nat) {
    && lo <= hi <= |a| == |b| && a[..lo] == b[..lo] && a[hi..] == b[hi..]
    && multiset(a[lo..hi]) == multiset(b[lo..hi])
  }

  lemma ShuffledSame<T>(a: seq<T>, lo: nat, hi: nat)
    requires lo <= hi <= |a|
    ensures Shuffled(a, a, lo, hi)
  {
  }

  lemma ShuffledTwice<T>(a: seq<T>, b: seq<T>, c: seq<T>, lo: nat, hi: nat)
    requires Shuffled(a, b, lo, hi) && Shuffled(b, c, lo, hi)
    ensures Shuffled(a, c, lo, hi)
  {
  }

  // A shuffle of a part is a shuffle of the whole.
  lemma ShuffledWider<T>(a: seq<T>, b: seq<T>, lo: nat, hi: nat, lo': nat, hi': nat)
    requires Shuffled(a, b, lo, hi) && lo' <= lo && hi <= hi' <= |a|
    ensures Shuffled(a, b, lo', hi')
  {
    assert a[..lo'] == a[..lo][..lo'] && b[..lo'] == b[..lo][..lo'];
    assert a[hi'..] == a[hi..][hi' - hi..] && b[hi'..] == b[hi..][hi' - hi..];
    assert a[lo'..hi'] == a[..lo][lo'..] + a[lo..hi] + a[hi..][..hi' - hi];
    assert b[lo'..hi'] == b[..lo][lo'..] + b[lo..hi] + b[hi..][..hi' - hi];
  }

  lemma SwapShuffles<T>(a: seq<T>, b: seq<T>, i: nat, j: nat)
    requires i < j < |a| && b == a[i := a[j]][j := a[i]]
    ensures Shuffled(a, b, i, j + 1)
  {
    assert a[i..j + 1] == [a[i]] + a[i + 1..j] + [a[j]];
    assert b[i..j + 1] == [a[j]] + a[i + 1..j] + [a[i]];
  }

  // Every element of the segment was in the segment before.
  lemma ShuffledElement<T>(a: seq<T>, b: seq<T>, lo: nat, hi: nat, k: nat) returns (i: nat)
    requires Shuffled(a, b, lo, hi) && lo <= k < hi
    ensures lo <= i < hi && a[i] == b[k]
  {
    assert b[k] == b[lo..hi][k - lo];
    assert b[k] in multiset(b[lo..hi]);
    assert b[k] in a[lo..hi];
    var m :| 0 <= m < |a[lo..hi]| && a[lo..hi][m] == b[k];
    i := lo + m;
  }

  // ---- partition -----------------------------------------------------------------------------------

  // Everything in lo..p stands before s[p], everything in p + 1..hi behind it.
  ghost predicate Partitioned<T>(compare: (T, T) -> int, versus: int, s: seq<T>, lo: nat, p: nat, hi: nat)
    requires lo <= p < hi <= |s|
  {
    && (forall i :: lo <= i < p ==> InOrder(compare, versus, s[i], s[p]))
    && (forall i :: p < i < hi ==> InOrder(compare, versus, s[p], s[i]))
  }

  // Shuffling the two sides keeps the partition.
  lemma PartitionKept<T>(compare: (T, T) -> int, versus: int, a: seq<T>, b: seq<T>, lo: nat, p: nat, hi: nat)
    requires lo <= p < hi <= |a| && Partitioned(compare, versus, a, lo, p, hi)
    requires Shuffled(a, b, lo, p) || Shuffled(a, b, p + 1, hi)
    ensures Partitioned(compare, versus, b, lo, p, hi) && b[p] == a[p]
  {
    if Shuffled(a, b, lo, p) {
      assert b[p] == b[p..][0] && a[p] == a[p..][0];
      forall i | lo <= i < p ensures InOrder(compare, versus, b[i], b[p]) {
        var j := ShuffledElement(a, b, lo, p, i);
      }
      forall i | p < i < hi ensures InOrder(compare, versus, b[p], b[i]) {
        assert b[i] == b[p..][i - p] && a[i] == a[p..][i - p];
      }
    } else {
      assert b[p] == b[..p + 1][p] && a[p] == a[..p + 1][p];
      forall i | lo <= i < p ensures InOrder(compare, versus, b[i], b[p]) {
        assert b[i] == b[..p + 1][i] && a[i] == a[..p + 1][i];
      }
      forall i | p < i < hi ensures InOrder(compare, versus, b[p], b[i]) {
        var j := ShuffledElement(a, b, p + 1, hi, i);
      }
    }
  }

  // Two sorted sides around a pivot make a sorted segment.
  lemma SidesSorted<T(!new)>(compare: (T, T) -> int, versus: int, s: seq<T>, lo: nat, p: nat, hi: nat)
    requires TotalPreorder(compare) && versus != 0 && lo <= p < hi <= |s| && Partitioned(compare, versus, s, lo, p, hi)
    requires SortedBetween(compare, versus, s, lo, p) && SortedBetween(compare, versus, s, p + 1, hi)
    ensures SortedBetween(compare, versus, s, lo, hi)
  {
    forall i, j | lo <= i < j < hi ensures InOrder(compare, versus, s[i], s[j]) {
      if i < p && p < j {
        OrderChains(compare, versus, s[i], s[p], s[j]);
      }
    }
  }

  lemma SortedKept<T>(compare: (T, T) -> int, versus: int, a: seq<T>, b: seq<T>, lo: nat, hi: nat, lo': nat, hi': nat)
    requires Shuffled(a, b, lo', hi') && lo <= hi <= |a| && SortedBetween(compare, versus, a, lo, hi)
    requires hi <= lo' || hi' <= lo
    ensures SortedBetween(compare, versus, b, lo, hi)
  {
    forall i, j | lo <= i < j < hi ensures InOrder(compare, versus, b[i], b[j]) {
      if hi <= lo' {
        assert b[i] == b[..lo'][i] && b[j] == b[..lo'][j] && a[i] == a[..lo'][i] && a[j] == a[..lo'][j];
      } else {
        assert b[i] == b[hi'..][i - hi'] && b[j] == b[hi'..][j - hi'] && a[i] == a[hi'..][i - hi'] && a[j] == a[hi'..][j - hi'];
      }
    }
  }

  // Two quicksort calls on the sides of a partition.
  lemma QuickSorted<T(!new)>(compare: (T, T) -> int, versus: int, a: seq<T>, b: seq<T>, c: seq<T>, d: seq<T>,
                             lo: nat, p: nat, hi: nat)
    requires TotalPreorder(compare) && versus != 0 && lo <= p < hi <= |b|
    requires Shuffled(a, b, lo, hi) && Partitioned(compare, versus, b, lo, p, hi)
    requires Shuffled(b, c, lo, p) && SortedBetween(compare, versus, c, lo, p)
    requires Shuffled(c, d, p + 1, hi) && SortedBetween(compare, versus, d, p + 1, hi)
    ensures Shuffled(a, d, lo, hi) && SortedBetween(compare, versus, d, lo, hi)
  {
    hide InOrder, TotalPreorder, Shuffled, SortedBetween, Partitioned;
    ShuffledLength(a, b, lo, hi);
    ShuffledLength(b, c, lo, p);
    ShuffledLength(c, d, p + 1, hi);
    PartitionKept(compare, versus, b, c, lo, p, hi);
    PartitionKept(compare, versus, c, d, lo, p, hi);
    SortedKept(compare, versus, c, d, lo, p, p + 1, hi);
    SidesSorted(compare, versus, d, lo, p, hi);
    ShuffledWider(b, c, lo, p, lo, hi);
    ShuffledWider(c, d, p + 1, hi, lo, hi);
    ShuffledTwice(a, b, c, lo, hi);
    ShuffledTwice(a, c, d, lo, hi);
  }

  lemma ShuffledLength<T>(a: seq<T>, b: seq<T>, lo: nat, hi: nat)
    requires Shuffled(a, b, lo, hi)
    ensures lo <= hi <= |a| == |b|
  {
  }

  lemma OutOfOrder<T(!new)>(compare: (T, T) -> int, versus: int, x: T, y: T)
    requires TotalPreorder(compare) && versus != 0
    ensures compare(x, y) * -versus > 0 ==> InOrder(compare, versus, y, x)
    ensures compare(x, y) * -versus <= 0 ==> InOrder(compare, versus, x, y)
  {
    OrderFacts(compare, versus, x, y);
  }

  lemma OneSorted<T>(compare: (T, T) -> int, versus: int, s: seq<T>, lo: nat)
    requires lo < |s|
    ensures SortedBetween(compare, versus, s, lo, lo + 1)
  {
  }

  // ---- selection ---------------------------------------------------------------------------------

  // The elements from lo to f are in their final order.
  ghost predicate Selected<T>(compare: (T, T) -> int, versus: int, s: seq<T>, lo: nat, f: nat, hi: nat) {
    lo <= f <= hi <= |s| && forall i, j :: lo <= i < f && i < j < hi ==> InOrder(compare, versus, s[i], s[j])
  }

  lemma SelectedNone<T>(compare: (T, T) -> int, versus: int, s: seq<T>, lo: nat, hi: nat)
    requires lo <= hi <= |s|
    ensures Selected(compare, versus, s, lo, lo, hi)
  {
  }

  lemma SelectedAll<T>(compare: (T, T) -> int, versus: int, s: seq<T>, lo: nat, hi: nat)
    requires lo < hi && Selected(compare, versus, s, lo, hi - 1, hi)
    ensures SortedBetween(compare, versus, s, lo, hi)
  {
  }

  // The first of the remaining elements comes to position f.
  lemma SelectedNext<T>(compare: (T, T) -> int, versus: int, a: seq<T>, b: seq<T>, lo: nat, f: nat, t: nat, hi: nat)
    requires Selected(compare, versus, a, lo, f, hi) && f <= t < hi && b == a[f := a[t]][t := a[f]]
    requires forall k :: f <= k < hi ==> InOrder(compare, versus, a[t], a[k])
    ensures Selected(compare, versus, b, lo, f + 1, hi) && Shuffled(a, b, lo, hi)
  {
    hide InOrder, Shuffled;
    if f < t {
      SwapShuffles(a, b, f, t);
      ShuffledWider(a, b, f, t + 1, lo, hi);
    } else {
      assert b == a;
      ShuffledSame(a, lo, hi);
    }
  }

  // ---- the two ends of a partition ------------------------------------------------------------------

  // What is left of l may stand before the pivot s[p], what is right of r behind it.
  ghost predicate Meeting<T>(compare: (T, T) -> int, versus: int, s: seq<T>, lo: nat, l: nat, p: nat, r: nat, hi: nat) {
    && lo <= l <= p <= r < hi <= |s|
    && (forall i :: lo <= i < l ==> InOrder(compare, versus, s[i], s[p]))
    && (forall i :: r < i < hi ==> InOrder(compare, versus, s[p], s[i]))
  }

  lemma MeetingStarts<T>(compare: (T, T) -> int, versus: int, s: seq<T>, lo: nat, p: nat, hi: nat)
    requires lo <= p < hi <= |s|
    ensures Meeting(compare, versus, s, lo, lo, p, hi - 1, hi)
  {
  }

  lemma MeetingBounds<T>(compare: (T, T) -> int, versus: int, s: seq<T>, lo: nat, l: nat, p: nat, r: nat, hi: nat)
    requires Meeting(compare, versus, s, lo, l, p, r, hi)
    ensures lo <= l <= p <= r < hi <= |s|
  {
  }

  lemma MeetingLeft<T>(compare: (T, T) -> int, versus: int, s: seq<T>, lo: nat, l: nat, p: nat, r: nat, hi: nat)
    requires Meeting(compare, versus, s, lo, l, p, r, hi) && l < p && InOrder(compare, versus, s[l], s[p])
    ensures Meeting(compare, versus, s, lo, l + 1, p, r, hi)
  {
  }

  lemma MeetingRight<T>(compare: (T, T) -> int, versus: int, s: seq<T>, lo: nat, l: nat, p: nat, r: nat, hi: nat)
    requires Meeting(compare, versus, s, lo, l, p, r, hi) && p < r && InOrder(compare, versus, s[p], s[r])
    ensures Meeting(compare, versus, s, lo, l, p, r - 1, hi)
  {
  }

  lemma MeetingSwap<T>(compare: (T, T) -> int, versus: int, s: seq<T>, b: seq<T>, lo: nat, l: nat, p: nat, r: nat, hi: nat)
    requires Meeting(compare, versus, s, lo, l, p, r, hi) && l < p < r && b == s[l := s[r]][r := s[l]]
    requires InOrder(compare, versus, s[p], s[l]) && InOrder(compare, versus, s[r], s[p])
    ensures Meeting(compare, versus, b, lo, l + 1, p, r - 1, hi) && Shuffled(s, b, lo, hi)
  {
    hide InOrder;
    SwapShuffles(s, b, l, r);
    ShuffledWider(s, b, l, r + 1, lo, hi);
  }

  // s[l] goes to the pivot's place p, which moves to p - 1.
  function Swapped<T>(s: seq<T>, i: nat, j: nat): (b: seq<T>)
    requires i < j < |s|
    ensures |b| == |s| && b[i] == s[j] && b[j] == s[i]
    ensures forall k :: 0 <= k < |s| && k != i && k != j ==> b[k] == s[k]
  {
    s[i := s[j]][j := s[i]]
  }

  // The element at l goes to p, the one at p one back, and the one before p to l.
  function RotatedLeft<T>(s: seq<T>, l: nat, p: nat): (b: seq<T>)
    requires l < p < |s|
    ensures |b| == |s| && b[p] == s[l] && b[p - 1] == s[p] && (l < p - 1 ==> b[l] == s[p - 1])
    ensures forall i :: 0 <= i < |s| && i != l && i != p - 1 && i != p ==> b[i] == s[i]
  {
    if l < p - 1 then Swapped(Swapped(s, p - 1, p), l, p) else Swapped(s, p - 1, p)
  }

  // The element at r goes to p, the one at p one on, and the one after p to r.
  function RotatedRight<T>(s: seq<T>, p: nat, r: nat): (b: seq<T>)
    requires p < r < |s|
    ensures |b| == |s| && b[p] == s[r] && b[p + 1] == s[p] && (p + 1 < r ==> b[r] == s[p + 1])
    ensures forall i :: 0 <= i < |s| && i != r && i != p + 1 && i != p ==> b[i] == s[i]
  {
    if p + 1 < r then Swapped(Swapped(s, p, p + 1), p, r) else Swapped(s, p, p + 1)
  }

  lemma RotatedLeftShuffles<T>(s: seq<T>, l: nat, p: nat)
    requires l < p < |s|
    ensures Shuffled(s, RotatedLeft(s, l, p), l, p + 1)
  {
    hide Shuffled, Swapped;
    var c := Swapped(s, p - 1, p);
    SwappedShuffles(s, p - 1, p);
    ShuffledWider(s, c, p - 1, p + 1, l, p + 1);
    if l < p - 1 {
      SwappedShuffles(c, l, p);
      ShuffledTwice(s, c, Swapped(c, l, p), l, p + 1);
    }
  }

  lemma RotatedRightShuffles<T>(s: seq<T>, p: nat, r: nat)
    requires p < r < |s|
    ensures Shuffled(s, RotatedRight(s, p, r), p, r + 1)
  {
    hide Shuffled, Swapped;
    var c := Swapped(s, p, p + 1);
    SwappedShuffles(s, p, p + 1);
    ShuffledWider(s, c, p, p + 2, p, r + 1);
    if p + 1 < r {
      SwappedShuffles(c, p, r);
      ShuffledTwice(s, c, Swapped(c, p, r), p, r + 1);
    }
  }

  lemma SwappedShuffles<T>(s: seq<T>, i: nat, j: nat)
    requires i < j < |s|
    ensures Shuffled(s, Swapped(s, i, j), i, j + 1)
  {
    hide Shuffled;
    SwapShuffles(s, Swapped(s, i, j), i, j);
  }

  lemma MeetingRotateLeft<T>(compare: (T, T) -> int, versus: int, s: seq<T>, lo: nat, l: nat, p: nat, hi: nat)
    requires Meeting(compare, versus, s, lo, l, p, p, hi) && l < p && InOrder(compare, versus, s[p], s[l])
    ensures Meeting(compare, versus, RotatedLeft(s, l, p), lo, l, p - 1, p - 1, hi)
    ensures Shuffled(s, RotatedLeft(s, l, p), lo, hi)
  {
    hide InOrder, RotatedLeft, Shuffled;
    RotatedLeftShuffles(s, l, p);
    ShuffledWider(s, RotatedLeft(s, l, p), l, p + 1, lo, hi);
  }

  lemma MeetingRotateRight<T>(compare: (T, T) -> int, versus: int, s: seq<T>, lo: nat, p: nat, r: nat, hi: nat)
    requires Meeting(compare, versus, s, lo, p, p, r, hi) && p < r && InOrder(compare, versus, s[r], s[p])
    ensures Meeting(compare, versus, RotatedRight(s, p, r), lo, p + 1, p + 1, r, hi)
    ensures Shuffled(s, RotatedRight(s, p, r), lo, hi)
  {
    hide InOrder, RotatedRight, Shuffled;
    RotatedRightShuffles(s, p, r);
    ShuffledWider(s, RotatedRight(s, p, r), p, r + 1, lo, hi);
  }

  lemma MeetingEnds<T>(compare: (T, T) -> int, versus: int, s: seq<T>, lo: nat, p: nat, hi: nat)
    requires Meeting(compare, versus, s, lo, p, p, p, hi)
    ensures Partitioned(compare, versus, s, lo, p, hi)
  {
  }

  lemma EmptySorted<T>(compare: (T, T) -> int, versus: int, s: seq<T>, at: nat)
    requires at <= |s|
    ensures Shuffled(s, s, at, at) && SortedBetween(compare, versus, s, at, at)
  {
  }

  lemma WholeShuffled<T>(a: seq<T>, b: seq<T>)
    requires Shuffled(a, b, 0, |a|)
    ensures multiset(a) == multiset(b)
  {
    assert a[0..|a|] == a && b[0..|b|] == b;
  }
}
