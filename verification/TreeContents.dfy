// What an insertion does to the contents of a tree.
module TreeContents {
  import opened Trees

  function SepOf(e: Entry): Sep {
    Sep(e.key, e.pk)
  }

  function LastOf(s: seq<Entry>): Entry
    requires s != []
  {
    s[|s| - 1]
  }

  // Shape invariant: all leaves at depth h, no empty subtree below the root, at least one
  // separator in every internal node, and every separator is the largest entry of the subtree
  // on its left.
  ghost predicate Wf(t: Tree, h: nat)
    decreases t
  {
    match t
    case Leaf(_, _) => h == 0
    case Node(_, kids) => 0 < h && 0 < Count(kids) && KidsWf(kids, h - 1)
  }

  ghost predicate KidsWf(kids: Kids, h: nat)
    decreases kids
  {
    match kids
    case Last(t) => Wf(t, h) && Entries(t) != []
    case Cons(t, s, rest) =>
      Wf(t, h) && Entries(t) != [] && SepOf(LastOf(Entries(t))) == s && KidsWf(rest, h)
  }

  // ---- sorted sequences -------------------------------------------------

  function InsertSorted(s: seq<Entry>, e: Entry): seq<Entry> {
    var p := LeafPos(s, e.key);
    s[..p] + [e] + s[p..]
  }

  ghost predicate Below(s: seq<Entry>, key: nat) {
    forall i :: 0 <= i < |s| ==> s[i].key < key
  }

  ghost predicate Above(s: seq<Entry>, key: nat) {
    forall i :: 0 <= i < |s| ==> key < s[i].key
  }

  lemma LeafPosUnique(s: seq<Entry>, key: nat, p: nat)
    requires p <= |s| && Below(s[..p], key)
    requires p < |s| ==> key <= s[p].key
    ensures LeafPos(s, key) == p
  {
    forall i | 0 <= i < p ensures s[i].key < key {
      assert s[..p][i] == s[i];
    }
  }

  lemma CutMiddle(a: seq<Entry>, b: seq<Entry>, c: seq<Entry>, p: nat)
    requires p <= |b|
    ensures (a + b + c)[..|a| + p] == a + b[..p] && (a + b + c)[|a| + p..] == b[p..] + c
  {
  }

  lemma Regroup(a: seq<Entry>, x: seq<Entry>, e: Entry, y: seq<Entry>, c: seq<Entry>)
    ensures (a + x) + [e] + (y + c) == a + (x + [e] + y) + c
  {
  }

  lemma BelowBoth(a: seq<Entry>, b: seq<Entry>, key: nat)
    requires Below(a, key) && Below(b, key)
    ensures Below(a + b, key)
  {
  }

  lemma InsertMiddle(a: seq<Entry>, b: seq<Entry>, c: seq<Entry>, e: Entry)
    requires Below(a, e.key) && Above(c, e.key)
    ensures InsertSorted(a + b + c, e) == a + InsertSorted(b, e) + c
  {
    hide LeafPos, Below;
    var p, s := LeafPos(b, e.key), a + b + c;
    CutMiddle(a, b, c, p);
    assert Below(b[..p], e.key) by { UpToPos(b, e.key); }
    BelowBoth(a, b[..p], e.key);
    if |a| + p < |s| {
      assert s[|a| + p] == (b[p..] + c)[0];
    }
    LeafPosUnique(s, e.key, |a| + p);
    Regroup(a, b[..p], e, b[p..], c);
  }

  lemma UpToPos(s: seq<Entry>, key: nat)
    ensures Below(s[..LeafPos(s, key)], key)
  {
  }

  lemma HasKeyMiddle(a: seq<Entry>, b: seq<Entry>, c: seq<Entry>, key: nat)
    requires Below(a, key) && Above(c, key)
    ensures HasKey(a + b + c, key) <==> HasKey(b, key)
  {
    var s := a + b + c;
    forall i | 0 <= i < |s|
      ensures s[i] == if i < |a| then a[i] else if i < |a| + |b| then b[i - |a|] else c[i - |a| - |b|]
    {
    }
    if HasKey(b, key) {
      var i :| 0 <= i < |b| && b[i].key == key;
      assert s[|a| + i].key == key;
    }
    if HasKey(s, key) {
      var i :| 0 <= i < |s| && s[i].key == key;
      assert |a| <= i < |a| + |b|;
      assert b[i - |a|].key == key;
    }
  }

  lemma InsertSortedAscending(s: seq<Entry>, e: Entry)
    requires Ascending(s) && !HasKey(s, e.key)
    ensures Ascending(InsertSorted(s, e))
  {
    var p := LeafPos(s, e.key);
    var r := InsertSorted(s, e);
    forall i, j | 0 <= i < j < |r|
      ensures r[i].key < r[j].key
    {
      assert p <= j - 1 < |s| ==> s[p].key <= s[j - 1].key;
      assert p < |s| ==> e.key < s[p].key by { assert !HasKey(s, e.key); }
    }
  }

  lemma LeafHasKey(s: seq<Entry>, key: nat)
    requires Ascending(s)
    ensures HasKey(s, key) <==> LeafPos(s, key) < |s| && s[LeafPos(s, key)].key == key
  {
  }

  // An insertion below the largest key keeps the largest entry.
  lemma InsertKeepsLast(s: seq<Entry>, e: Entry)
    requires s != [] && e.key <= LastOf(s).key && !HasKey(s, e.key) && Ascending(s)
    ensures LastOf(InsertSorted(s, e)) == LastOf(s)
  {
    assert LastOf(s).key != e.key;
    assert LeafPos(s, e.key) < |s|;
  }

  // ---- entries around a child -------------------------------------------

  function Before(kids: Kids, i: nat): seq<Entry>
    requires i <= Count(kids)
  {
    if i == 0 then [] else Entries(kids.child) + Before(kids.rest, i - 1)
  }

  function After(kids: Kids, i: nat): seq<Entry>
    requires i <= Count(kids)
  {
    match kids
    case Last(_) => []
    case Cons(_, _, rest) => if i == 0 then KidEntries(rest) else After(rest, i - 1)
  }

  lemma {:induction false} KidEntriesAround(kids: Kids, i: nat)
    requires i <= Count(kids)
    ensures KidEntries(kids) == Before(kids, i) + Entries(KidAt(kids, i)) + After(kids, i)
  {
    if i != 0 {
      KidEntriesAround(kids.rest, i - 1);
    }
  }

  lemma {:induction false} SetKidEntries(kids: Kids, i: nat, t: Tree)
    requires i <= Count(kids)
    ensures KidEntries(SetKid(kids, i, t)) == Before(kids, i) + Entries(t) + After(kids, i)
  {
    if i != 0 {
      SetKidEntries(kids.rest, i - 1, t);
    }
  }

  lemma {:induction false} AddKidEntries(kids: Kids, i: nat, lower: Tree, s: Sep, upper: Tree)
    requires i <= Count(kids)
    ensures KidEntries(AddKid(kids, i, lower, s, upper))
         == Before(kids, i) + (Entries(lower) + Entries(upper)) + After(kids, i)
  {
    if i != 0 {
      AddKidEntries(kids.rest, i - 1, lower, s, upper);
    }
  }

  // ---- the child that covers a key ---------------------------------------

  lemma AscendingParts(a: seq<Entry>, b: seq<Entry>)
    requires Ascending(a + b)
    ensures Ascending(a) && Ascending(b)
    ensures a != [] ==> Above(b, LastOf(a).key)
  {
    forall i, j | 0 <= i < j < |a| ensures a[i].key < a[j].key {
      assert (a + b)[i] == a[i] && (a + b)[j] == a[j];
    }
    forall i, j | 0 <= i < j < |b| ensures b[i].key < b[j].key {
      assert (a + b)[|a| + i] == b[i] && (a + b)[|a| + j] == b[j];
    }
    if a != [] {
      forall i | 0 <= i < |b| ensures LastOf(a).key < b[i].key {
        assert (a + b)[|a| - 1] == LastOf(a) && (a + b)[|a| + i] == b[i];
      }
    }
  }

  lemma BelowLast(s: seq<Entry>, key: nat)
    requires Ascending(s) && s != [] && LastOf(s).key < key
    ensures Below(s, key)
  {
  }

  lemma {:induction false} CoveringChild(kids: Kids, h: nat, key: nat)
    requires KidsWf(kids, h) && Ascending(KidEntries(kids))
    ensures var p := KidPos(kids, key);
      && Below(Before(kids, p), key)
      && Above(After(kids, p), key)
      && Ascending(Entries(KidAt(kids, p)))
      && Wf(KidAt(kids, p), h)
      && Entries(KidAt(kids, p)) != []
      && (p < Count(kids) ==> key <= LastOf(Entries(KidAt(kids, p))).key)
  {
    match kids
    case Last(_) =>
    case Cons(t, s, rest) =>
      AscendingParts(Entries(t), KidEntries(rest));
      if key <= s.key {
      } else {
        BelowLast(Entries(t), key);
        CoveringChild(rest, h, key);
      }
  }

  lemma {:induction false} SetKidWf(kids: Kids, h: nat, i: nat, t: Tree)
    requires KidsWf(kids, h) && i <= Count(kids)
    requires Wf(t, h) && Entries(t) != []
    requires Entries(KidAt(kids, i)) != []
    requires i < Count(kids) ==> LastOf(Entries(t)) == LastOf(Entries(KidAt(kids, i)))
    ensures KidsWf(SetKid(kids, i, t), h)
  {
    if i != 0 {
      SetKidWf(kids.rest, h, i - 1, t);
    }
  }

  lemma {:induction false} AddKidWf(kids: Kids, h: nat, i: nat, s: TreeSplit)
    requires KidsWf(kids, h) && i <= Count(kids)
    requires Wf(s.lower, h) && Entries(s.lower) != [] && SepOf(LastOf(Entries(s.lower))) == s.sep
    requires Wf(s.upper, h) && Entries(s.upper) != []
    requires Entries(KidAt(kids, i)) != [] && LastOf(Entries(s.upper)) == LastOf(Entries(KidAt(kids, i)))
    ensures KidsWf(AddKid(kids, i, s.lower, s.sep, s.upper), h)
  {
    if i != 0 {
      AddKidWf(kids.rest, h, i - 1, s);
    }
  }

  // ---- splits --------------------------------------------------------------

  lemma {:induction false} KidsNonEmpty(kids: Kids, h: nat)
    requires KidsWf(kids, h)
    ensures KidEntries(kids) != []
  {
  }

  lemma {:induction false} SplitKidsWf(kids: Kids, h: nat, m: nat)
    requires KidsWf(kids, h) && m < Count(kids)
    ensures var r := SplitKids(kids, m);
      && KidsWf(r.lower, h) && KidsWf(r.upper, h)
      && KidEntries(r.lower) != [] && KidEntries(r.upper) != []
      && SepOf(LastOf(KidEntries(r.lower))) == r.sep
      && LastOf(KidEntries(r.upper)) == LastOf(KidEntries(kids))
  {
    if m == 0 {
      KidsNonEmpty(kids.rest, h);
    } else {
      SplitKidsWf(kids.rest, h, m - 1);
    }
  }

  lemma SplitWf(t: Tree, h: nat, newPage: nat)
    requires Wf(t, h) && 3 <= CellCount(t)
    ensures var s := Split(t, newPage);
      && Wf(s.lower, h) && Wf(s.upper, h)
      && Entries(s.lower) != [] && Entries(s.upper) != [] && Entries(t) != []
      && SepOf(LastOf(Entries(s.lower))) == s.sep
      && LastOf(Entries(s.upper)) == LastOf(Entries(t))
  {
    match t
    case Leaf(_, cells) =>
    case Node(_, kids) =>
      KidsNonEmpty(kids, h - 1);
      SplitKidsWf(kids, h - 1, Count(kids) / 2);
  }
}
