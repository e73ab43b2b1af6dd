// How high trees grow: logarithmically in their entries, so never beyond 32 levels, and an
// insertion allocates at most two pages more than that.
module TreeHeight {
  import opened Trees
  import opened TreeContents
  import Btrees

  function Power(h: nat): (p: nat)
    ensures 0 < p
  {
    if h == 0 then 1 else 2 * Power(h - 1)
  }

  lemma {:induction false} PowerGrows(a: nat, b: nat)
    requires a <= b
    ensures Power(a) <= Power(b)
  {
    if a < b {
      PowerGrows(a, b - 1);
    }
  }

  // Every level at least doubles the number of entries.
  lemma {:induction false} HeightIsLogarithmic(t: Tree, h: nat)
    requires Wf(t, h) && Entries(t) != []
    ensures Height(t) == h && Power(h) <= |Entries(t)|
    decreases t
  {
    match t
    case Leaf(_, _) =>
    case Node(_, kids) =>
      KidsMultiply(kids, h - 1);
      assert 2 * Power(h - 1) <= (Count(kids) + 1) * Power(h - 1);
  }

  lemma {:induction false} KidsMultiply(kids: Kids, h: nat)
    requires KidsWf(kids, h)
    ensures KidsHeight(kids) == h && (Count(kids) + 1) * Power(h) <= |KidEntries(kids)|
    decreases kids
  {
    match kids
    case Last(t) => HeightIsLogarithmic(t, h);
    case Cons(t, _, rest) =>
      HeightIsLogarithmic(t, h);
      KidsMultiply(rest, h);
      assert (Count(rest) + 2) * Power(h) == (Count(rest) + 1) * Power(h) + Power(h);
  }

  lemma {:induction false} AscendingRoom(s: seq<Entry>, n: nat)
    requires Ascending(s) && forall i :: 0 <= i < |s| ==> s[i].key < n
    ensures |s| <= n
  {
    if s != [] {
      AscendingRoom(s[..|s| - 1], s[|s| - 1].key);
    }
  }

  // Keys are 32-bit numbers.
  lemma HeightAtMost32(t: Tree, h: nat)
    requires Wf(t, h) && Ascending(Entries(t)) && forall i :: 0 <= i < |Entries(t)| ==> Entries(t)[i].key < 0x1_0000_0000
    ensures Height(t) == h <= 32
  {
    if Entries(t) == [] {
      match t
      case Leaf(_, _) =>
      case Node(_, kids) => KidsNonEmpty(kids, h - 1);
    } else {
      HeightIsLogarithmic(t, h);
      AscendingRoom(Entries(t), 0x1_0000_0000);
      Power33();
      if 33 <= h {
        PowerGrows(33, h);
      }
    }
  }

  lemma Power33()
    ensures Power(33) == 0x2_0000_0000
  {
    assert Power(11) == 0x800;
    PowerAdds(11, 11);
    PowerAdds(22, 11);
  }

  lemma {:induction false} PowerAdds(a: nat, b: nat)
    ensures Power(a + b) == Power(a) * Power(b)
  {
    if b != 0 {
      PowerAdds(a, b - 1);
      assert Power(a + b) == 2 * Power(a + b - 1);
    }
  }

  // One page for each level that is split, and one more for the root that moves.
  lemma {:induction false} NonFullPageCount(sh: Shape, t: Tree, e: Entry, pages: nat)
    requires EntryFits(sh, e)
    ensures pages <= InsertNonFull(sh, t, e, pages).pages <= pages + Height(t)
    decreases Height(t)
  {
    match t
    case Leaf(_, _) =>
    case Node(page, kids) =>
      var kids' := MakeRoom(sh, kids, e, pages);
      NonFullPageCount(sh, KidAt(kids', KidPos(kids', e.key)), e, PagesAfterRoom(sh, kids, e, pages));
  }

  lemma PageCount(sh: Shape, t: Tree, e: Entry, pages: nat)
    requires EntryFits(sh, e)
    ensures pages <= Insert(sh, t, e, pages).pages <= pages + Height(t) + 3
  {
    hide GrowRoot, InsertNonFull;
    if Full(sh, t, e) {
      NonFullPageCount(sh, GrowRoot(t, pages), e, pages + 2);
      Btrees.GrownHeight(t, pages);
    } else {
      NonFullPageCount(sh, t, e, pages);
    }
  }
}
