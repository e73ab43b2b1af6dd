// Which pages of the file a tree owns, and how an insertion changes them.
module TreePages {
  import opened Trees

  function PagesOf(t: Tree): set<nat> {
    match t
    case Leaf(page, _) => {page}
    case Node(page, kids) => {page} + KidsPages(kids)
  }

  function KidsPages(kids: Kids): set<nat> {
    match kids
    case Last(t) => PagesOf(t)
    case Cons(t, _, rest) => PagesOf(t) + KidsPages(rest)
  }

  // No page belongs to two nodes.
  ghost predicate Distinct(t: Tree) {
    t.Node? ==> t.page !in KidsPages(t.kids) && KidsDistinct(t.kids)
  }

  ghost predicate KidsDistinct(kids: Kids) {
    match kids
    case Last(t) => Distinct(t)
    case Cons(t, _, rest) => Distinct(t) && KidsDistinct(rest) && PagesOf(t) !! KidsPages(rest)
  }

  // The pages allocated while the page count grew from a to b.
  function Allocated(a: nat, b: nat): (s: set<nat>)
    ensures forall p :: p in s <==> a < p <= b
  {
    if b <= a then {} else Allocated(a, b - 1) + {b}
  }

  ghost predicate UpTo(s: set<nat>, n: nat) {
    forall p :: p in s ==> p <= n
  }

  // ---- the node list operations ------------------------------------------------

  // Pages of the children other than child i.
  function OtherPages(kids: Kids, i: nat): set<nat>
    requires i <= Count(kids)
  {
    match kids
    case Last(_) => {}
    case Cons(t, _, rest) => if i == 0 then KidsPages(rest) else PagesOf(t) + OtherPages(rest, i - 1)
  }

  lemma {:induction false} KidPagesAround(kids: Kids, i: nat)
    requires KidsDistinct(kids) && i <= Count(kids)
    ensures KidsPages(kids) == PagesOf(KidAt(kids, i)) + OtherPages(kids, i)
    ensures PagesOf(KidAt(kids, i)) !! OtherPages(kids, i)
    ensures Distinct(KidAt(kids, i))
  {
    if i != 0 {
      KidPagesAround(kids.rest, i - 1);
    }
  }

  lemma {:induction false} SetKidPages(kids: Kids, i: nat, t: Tree)
    requires KidsDistinct(kids) && i <= Count(kids)
    requires Distinct(t) && PagesOf(t) !! OtherPages(kids, i)
    ensures KidsPages(SetKid(kids, i, t)) == PagesOf(t) + OtherPages(kids, i)
    ensures KidsDistinct(SetKid(kids, i, t))
  {
    if i != 0 {
      KidPagesAround(kids.rest, i - 1);
      SetKidPages(kids.rest, i - 1, t);
    }
  }

  lemma {:induction false} AddKidPages(kids: Kids, i: nat, lower: Tree, s: Sep, upper: Tree)
    requires KidsDistinct(kids) && i <= Count(kids)
    requires Distinct(lower) && Distinct(upper) && PagesOf(lower) !! PagesOf(upper)
    requires PagesOf(lower) + PagesOf(upper) !! OtherPages(kids, i)
    ensures KidsPages(AddKid(kids, i, lower, s, upper)) == PagesOf(lower) + PagesOf(upper) + OtherPages(kids, i)
    ensures KidsDistinct(AddKid(kids, i, lower, s, upper))
  {
    if i != 0 {
      KidPagesAround(kids.rest, i - 1);
      AddKidPages(kids.rest, i - 1, lower, s, upper);
    }
  }

  lemma {:induction false} SplitKidsPages(kids: Kids, m: nat)
    requires KidsDistinct(kids) && m < Count(kids)
    ensures var r := SplitKids(kids, m);
      && KidsDistinct(r.lower) && KidsDistinct(r.upper)
      && KidsPages(r.lower) !! KidsPages(r.upper)
      && KidsPages(r.lower) + KidsPages(r.upper) == KidsPages(kids)
  {
    if m != 0 {
      SplitKidsPages(kids.rest, m - 1);
    }
  }

  lemma SplitPages(t: Tree, newPage: nat)
    requires 0 < CellCount(t) && Distinct(t) && newPage !in PagesOf(t)
    ensures var s := Split(t, newPage);
      && Distinct(s.lower) && Distinct(s.upper) && PagesOf(s.lower) !! PagesOf(s.upper)
      && PagesOf(s.lower) + PagesOf(s.upper) == PagesOf(t) + {newPage}
      && s.lower.page == newPage && s.upper.page == t.page
  {
    match t
    case Leaf(_, _) =>
    case Node(_, kids) => SplitKidsPages(kids, Count(kids) / 2);
  }

  // ---- insertion -------------------------------------------------------------------

  lemma MakeRoomPages(sh: Shape, kids: Kids, e: Entry, pages: nat)
    requires EntryFits(sh, e) && KidsDistinct(kids) && UpTo(KidsPages(kids), pages)
    ensures var n := PagesAfterRoom(sh, kids, e, pages);
      && pages <= n
      && KidsPages(MakeRoom(sh, kids, e, pages)) == KidsPages(kids) + Allocated(pages, n)
      && KidsDistinct(MakeRoom(sh, kids, e, pages))
  {
    var pos := KidPos(kids, e.key);
    var child := KidAt(kids, pos);
    KidPagesAround(kids, pos);
    if Full(sh, child, e) {
      var s := Split(child, pages + 1);
      SplitPages(child, pages + 1);
      AddKidPages(kids, pos, s.lower, s.sep, s.upper);
      assert Allocated(pages, pages + 1) == {pages + 1};
    }
  }

  // The tree keeps its root page and its pages, and adds exactly the allocated ones.
  ghost predicate GrowsBy(t: Tree, pages: nat, r: Outcome) {
    && pages <= r.pages
    && r.tree.page == t.page
    && Distinct(r.tree)
    && PagesOf(r.tree) == PagesOf(t) + Allocated(pages, r.pages)
  }

  lemma {:induction false} InsertNonFullPages(sh: Shape, t: Tree, e: Entry, pages: nat)
    requires EntryFits(sh, e) && Distinct(t) && UpTo(PagesOf(t), pages)
    ensures GrowsBy(t, pages, InsertNonFull(sh, t, e, pages))
    decreases Height(t), 0
  {
    match t
    case Leaf(_, _) =>
    case Node(page, kids) =>
      var n := PagesAfterRoom(sh, kids, e, pages);
      MakeRoomPages(sh, kids, e, pages);
      assert UpTo(KidsPages(MakeRoom(sh, kids, e, pages)), n);
      InsertBelowPages(sh, MakeRoom(sh, kids, e, pages), e, n);
      var r := InsertNonFull(sh, t, e, pages);
      assert Allocated(pages, n) + Allocated(n, r.pages) == Allocated(pages, r.pages);
  }

  // One internal node, once its covering child has room.
  lemma {:induction false} InsertBelowPages(sh: Shape, kids: Kids, e: Entry, pages: nat)
    requires EntryFits(sh, e) && KidsDistinct(kids) && UpTo(KidsPages(kids), pages)
    ensures var pos := KidPos(kids, e.key);
      var r := InsertNonFull(sh, KidAt(kids, pos), e, pages);
      && pages <= r.pages
      && KidsDistinct(SetKid(kids, pos, r.tree))
      && KidsPages(SetKid(kids, pos, r.tree)) == KidsPages(kids) + Allocated(pages, r.pages)
    decreases KidsHeight(kids), 1
  {
    var pos := KidPos(kids, e.key);
    var child := KidAt(kids, pos);
    KidPagesAround(kids, pos);
    InsertNonFullPages(sh, child, e, pages);
    SetKidPages(kids, pos, InsertNonFull(sh, child, e, pages).tree);
  }

  lemma GrowsTwice(t: Tree, pages: nat, mid: Outcome, r: Outcome)
    requires GrowsBy(t, pages, mid) && GrowsBy(mid.tree, mid.pages, r)
    ensures GrowsBy(t, pages, r)
  {
    assert Allocated(pages, mid.pages) + Allocated(mid.pages, r.pages) == Allocated(pages, r.pages);
  }

  lemma GrowRootPages(t: Tree, pages: nat)
    requires 0 < CellCount(t) && Distinct(t) && UpTo(PagesOf(t), pages)
    ensures GrowsBy(t, pages, Outcome(false, GrowRoot(t, pages), pages + 2))
  {
    var c := WithPage(t, pages + 1);
    SplitPages(c, pages + 2);
    assert Allocated(pages, pages + 2) == {pages + 1, pages + 2};
    var s := Split(c, pages + 2);
    var kids := Cons(s.lower, s.sep, Last(s.upper));
    assert KidsPages(kids) == PagesOf(s.lower) + PagesOf(s.upper);
    assert KidsDistinct(kids.rest);
  }

  // An insertion touches the tree's own pages and pages that did not exist before.
  lemma InsertPages(sh: Shape, t: Tree, e: Entry, pages: nat)
    requires EntryFits(sh, e) && Distinct(t) && UpTo(PagesOf(t), pages)
    ensures GrowsBy(t, pages, Insert(sh, t, e, pages))
  {
    if Full(sh, t, e) {
      GrowRootPages(t, pages);
      InsertGrownPages(sh, t, GrowRoot(t, pages), e, pages);
    } else {
      InsertNonFullPages(sh, t, e, pages);
    }
  }

  lemma InsertGrownPages(sh: Shape, t: Tree, g: Tree, e: Entry, pages: nat)
    requires EntryFits(sh, e) && UpTo(PagesOf(t), pages)
    requires GrowsBy(t, pages, Outcome(false, g, pages + 2))
    ensures GrowsBy(t, pages, InsertNonFull(sh, g, e, pages + 2))
  {
    InsertNonFullPages(sh, g, e, pages + 2);
    GrowsTwice(t, pages, Outcome(false, g, pages + 2), InsertNonFull(sh, g, e, pages + 2));
  }
}
