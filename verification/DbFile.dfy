// The trees of a database and the pages they are stored in.
module DbFiles {
  import opened Common
  import opened Trees
  import opened TreeContents
  import opened TreePages
  import opened Machine
  import opened BtreeReps
  import opened Btrees

  // A table entry has no primary key of its own, an index entry no data.
  predicate PlainEntry(sh: Shape, e: Entry) {
    if sh.index then e.data == [] else e.pk == 0
  }

  function ShapeOf(db: Database, root: nat): Shape {
    Shape(root in db.indexes, db.pageSize)
  }

  ghost predicate Plain(sh: Shape, s: seq<Entry>) {
    forall x :: x in s ==> PlainEntry(sh, x)
  }

  ghost predicate TreeInFile(db: Database, pages: PageFile, root: nat)
    requires root in db.store
  {
    var t := db.store[root];
    && t.page == root && Rep(ShapeOf(db, root), pages, t) && Distinct(t) && PagesWithin(PagesOf(t), db.pages)
    && Plain(ShapeOf(db, root), Entries(t))
  }

  ghost predicate Apart(db: Database) {
    forall r, s :: r in db.store && s in db.store && r != s ==> PagesOf(db.store[r]) !! PagesOf(db.store[s])
  }

  // Every tree of the database is in the pages below its root, and no two share a page.
  ghost predicate FileStored(db: Database, pages: PageFile) {
    Apart(db) && forall r :: r in db.store ==> TreeInFile(db, pages, r)
  }

  // ---- insertion adds nothing but its entry -------------------------------------------------------

  ghost predicate OnlyNew(a: seq<Entry>, b: seq<Entry>, e: Entry) {
    forall x :: x in b ==> x in a || x == e
  }

  lemma {:induction false} InsertNonFullOnly(sh: Shape, t: Tree, e: Entry, pages: nat)
    requires EntryFits(sh, e)
    ensures OnlyNew(Entries(t), Entries(Trees.InsertNonFull(sh, t, e, pages).tree), e)
    decreases Height(t)
  {
    match t
    case Leaf(_, _) =>
    case Node(page, kids) =>
      var kids' := MakeRoom(sh, kids, e, pages);
      MakeRoomEntries(sh, kids, e, pages);
      var pos := KidPos(kids', e.key);
      var n := PagesAfterRoom(sh, kids, e, pages);
      InsertNonFullOnly(sh, KidAt(kids', pos), e, n);
      KidEntriesAround(kids', pos);
      SetKidEntries(kids', pos, Trees.InsertNonFull(sh, KidAt(kids', pos), e, n).tree);
  }

  lemma MakeRoomEntries(sh: Shape, kids: Kids, e: Entry, pages: nat)
    requires EntryFits(sh, e)
    ensures KidEntries(MakeRoom(sh, kids, e, pages)) == KidEntries(kids)
  {
    hide EntryFits, Entries, Trees.Split, Full, KidPos;
    var pos := KidPos(kids, e.key);
    var child := KidAt(kids, pos);
    if Full(sh, child, e) {
      RoomToSplit(sh, child, e);
      var s := Trees.Split(child, pages + 1);
      KidEntriesAround(kids, pos);
      AddKidEntries(kids, pos, s.lower, s.sep, s.upper);
      assert Before(kids, pos) + (Entries(s.lower) + Entries(s.upper)) + After(kids, pos)
          == Before(kids, pos) + Entries(s.lower) + Entries(s.upper) + After(kids, pos);
    }
  }

  lemma RoomToSplit(sh: Shape, c: Tree, e: Entry)
    requires Full(sh, c, e) && EntryFits(sh, e)
    ensures 0 < CellCount(c)
  {
  }

  lemma InsertOnly(sh: Shape, t: Tree, e: Entry, pages: nat)
    requires EntryFits(sh, e)
    ensures OnlyNew(Entries(t), Entries(Trees.Insert(sh, t, e, pages).tree), e)
  {
    hide Trees.InsertNonFull;
    if Full(sh, t, e) {
      InsertNonFullOnly(sh, GrowRoot(t, pages), e, pages + 2);
      GrownEntries(t, pages);
    } else {
      InsertNonFullOnly(sh, t, e, pages);
    }
  }

  lemma GrownEntries(t: Tree, pages: nat)
    requires 0 < CellCount(t)
    ensures Entries(GrowRoot(t, pages)) == Entries(t)
  {
    assert Entries(WithPage(t, pages + 1)) == Entries(t);
    var s := Trees.Split(WithPage(t, pages + 1), pages + 2);
    assert KidEntries(Last(s.upper)) == Entries(s.upper);
  }

  // ---- what operations do to the file ----------------------------------------------------------------

  lemma InsertKeepsFile(db: Database, a: PageFile, b: PageFile, root: nat, e: Entry)
    requires FileStored(db, a) && root in db.store && PlainEntry(ShapeOf(db, root), e) && EntryFits(ShapeOf(db, root), e)
    requires var r := Trees.Insert(ShapeOf(db, root), db.store[root], e, db.pages);
      Rep(ShapeOf(db, root), b, r.tree) && SameElsewhere(a, b, db.pages, PagesOf(db.store[root]))
    ensures var r := Trees.Insert(ShapeOf(db, root), db.store[root], e, db.pages);
      FileStored(db.(store := db.store[root := r.tree], pages := r.pages), b)
  {
    hide Rep, Trees.Insert, Distinct, PlainEntry;
    var sh, t := ShapeOf(db, root), db.store[root];
    var r := Trees.Insert(sh, t, e, db.pages);
    var db' := db.(store := db.store[root := r.tree], pages := r.pages);
    InsertPages(sh, t, e, db.pages);
    InsertOnly(sh, t, e, db.pages);
    forall s | s in db'.store ensures TreeInFile(db', b, s) {
      if s != root {
        RepFrame(ShapeOf(db, s), a, b, db.store[s]);
      }
    }
  }

  lemma CreateKeepsFile(db: Database, a: PageFile, b: PageFile, index: bool)
    requires FileStored(db, a) && db.pages + 1 in b && b == a[db.pages + 1 := b[db.pages + 1]]
    requires NodeStored(Shape(index, db.pageSize), b, Leaf(db.pages + 1, []))
    ensures var root := db.pages + 1;
      FileStored(db.(store := db.store[root := Leaf(root, [])],
                     indexes := if index then db.indexes + {root} else db.indexes - {root}, pages := root), b)
  {
    hide NodeStored, PlainEntry;
    var root := db.pages + 1;
    var db' := db.(store := db.store[root := Leaf(root, [])],
                   indexes := if index then db.indexes + {root} else db.indexes - {root}, pages := root);
    forall s | s in db'.store ensures TreeInFile(db', b, s) {
      if s != root {
        assert s in PagesOf(db.store[s]);
        assert ShapeOf(db', s) == ShapeOf(db, s);
        RepFrame(ShapeOf(db, s), a, b, db.store[s]);
      }
    }
    forall r, s | r in db'.store && s in db'.store && r != s ensures PagesOf(db'.store[r]) !! PagesOf(db'.store[s]) {
      assert r != root ==> TreeInFile(db, a, r);
      assert s != root ==> TreeInFile(db, a, s);
    }
  }
}
