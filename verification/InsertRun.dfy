// The run of an INSERT program: the row goes into the table, its entry into every index, or
// the first key that is already there stops it.
module InsertRun {
  import opened Common
  import opened Sql
  import opened Values
  import opened Trees
  import opened TreeContents
  import opened TreeInsert
  import opened TreeRoom
  import opened TreePages
  import opened TreeHeight
  import opened TreeSnapshot
  import opened Pages
  import opened BtreeReps
  import Btrees
  import opened Machine
  import opened MachineRun
  import opened Planner
  import opened Layout
  import opened CodeRuns
  import opened JoinStart
  import opened DbFiles
  import opened Dbms
  import opened IndexVisits
  import opened IndexKeeping
  import opened InsertLayout
  import opened InsertRecord

  // ---- trees that can take an entry ---------------------------------------------------------------

  // The cost of a leaf cell: always 14 bytes in an index, within lim in a table.
  function LimitsOf(sh: Shape, lim: Limits): Limits {
    if sh.index then Limits(14, 14) else lim
  }

  ghost predicate TreeSound(sh: Shape, t: Tree, lim: Limits, pages: nat) {
    && RoomyPages(sh, LimitsOf(sh, lim)) && Sized(sh, LimitsOf(sh, lim), Entries(t))
    && Ascending(Entries(t)) && KeysFit(Entries(t)) && (exists h: nat :: Wf(t, h))
    && Fits(sh, t) && Distinct(t) && Btrees.PagesWithin(PagesOf(t), pages)
  }

  // Keys are 32-bit numbers.
  ghost predicate KeysFit(s: seq<Entry>) {
    forall i :: 0 <= i < |s| ==> s[i].key < 0x1_0000_0000
  }

  ghost predicate SoundAt(db: Database, root: nat, lim: Limits) {
    root in db.store && TreeSound(ShapeOf(db, root), db.store[root], lim, db.pages)
  }

  // What an entry must be to go into a tree of a shape.
  ghost predicate EntrySound(sh: Shape, e: Entry, lim: Limits) {
    Sized(sh, LimitsOf(sh, lim), [e]) && CellFits(EntryCell(sh.index, e))
  }

  // An insertion allocates at most as many pages as a tree is high, and three.
  const PAGES_EACH: nat := 35

  // One tree changes its entries; the others are as they were.
  ghost predicate Changed(db: Database, db': Database, root: nat, es: seq<Entry>) {
    && db'.indexes == db.indexes && db'.pageSize == db.pageSize && db'.store.Keys == db.store.Keys
    && root in db'.store && Entries(db'.store[root]) == es && db.pages <= db'.pages <= db.pages + PAGES_EACH
    && forall r :: r in db.store && r != root ==> db'.store[r] == db.store[r]
  }

  lemma SizedWith(sh: Shape, lim: Limits, s: seq<Entry>, e: Entry)
    requires Sized(sh, lim, s) && Sized(sh, lim, [e])
    ensures Sized(sh, lim, InsertSorted(s, e))
  {
    hide LeafCellSize;
    InsertedMembers(s, e);
    var r := InsertSorted(s, e);
    forall i | 0 <= i < |r| ensures lim.lo <= LeafCellSize(sh, r[i]) + 2 <= lim.hi {
      assert r[i] in r;
      if r[i] == e {
        assert LeafCellSize(sh, [e][0]) + 2 <= lim.hi;
      }
    }
  }

  // A sound tree takes every entry of its kind.
  lemma SoundTakes(sh: Shape, t: Tree, lim: Limits, pages: nat, h: nat, e: Entry)
    requires TreeSound(sh, t, lim, pages) && Wf(t, h) && EntrySound(sh, e, lim) && pages + PAGES_EACH < 0x1_0000_0000
    ensures Btrees.RootInsertable(sh, t, e, pages) && EntryFits(sh, e)
    ensures var r := Trees.Insert(sh, t, e, pages);
      Fits(sh, r.tree) && Distinct(r.tree) && Btrees.PagesWithin(PagesOf(r.tree), r.pages) && pages <= r.pages <= pages + PAGES_EACH
  {
    hide Trees.Insert, RoomyPages, Sized, Wf, EntryFits, Fits, Full, RoomOnPath, GrowRoot, CellFits, EntryCell, Distinct, Ascending;
    Btrees.RootWithin(t, pages);
    HeightAtMost32(t, h);
    InsertRoom(sh, LimitsOf(sh, lim), t, h, e, pages);
    PageCount(sh, t, e, pages);
    InsertPages(sh, t, e, pages);
  }

  lemma KeysStayFit(s: seq<Entry>, e: Entry)
    requires KeysFit(s) && e.key < 0x1_0000_0000
    ensures KeysFit(InsertSorted(s, e))
  {
    InsertedMembers(s, e);
    var r := InsertSorted(s, e);
    forall i | 0 <= i < |r| ensures r[i].key < 0x1_0000_0000 {
      assert r[i] in r;
    }
  }

  // It is sound afterwards too.
  lemma SoundAfter(sh: Shape, t: Tree, lim: Limits, pages: nat, e: Entry)
    requires TreeSound(sh, t, lim, pages) && EntrySound(sh, e, lim) && pages + PAGES_EACH < 0x1_0000_0000
    ensures Btrees.RootInsertable(sh, t, e, pages) && EntryFits(sh, e)
    ensures var r := Trees.Insert(sh, t, e, pages);
      && TreeSound(sh, r.tree, lim, r.pages) && pages <= r.pages <= pages + PAGES_EACH
      && (r.duplicate <==> HasKey(Entries(t), e.key))
      && Entries(r.tree) == if r.duplicate then Entries(t) else InsertSorted(Entries(t), e)
  {
    hide Trees.Insert, RoomyPages, Sized, Wf, EntryFits, Fits, Full, InsertSorted, HasKey, Ascending, Distinct, PagesOf, KeysFit,
      Btrees.PagesWithin, Btrees.RootInsertable;
    var h: nat :| Wf(t, h);
    SoundTakes(sh, t, lim, pages, h, e);
    InsertKeeps(sh, LimitsOf(sh, lim), t, h, e, pages);
    SizedWith(sh, LimitsOf(sh, lim), Entries(t), e);
    KeysStayFit(Entries(t), e);
  }

  lemma SoundLater(db: Database, db': Database, root: nat, lim: Limits)
    requires SoundAt(db, root, lim) && root in db'.store && db'.store[root] == db.store[root]
    requires ShapeOf(db', root) == ShapeOf(db, root) && db.pages <= db'.pages
    ensures SoundAt(db', root, lim)
  {
    hide RoomyPages, Sized, Wf, Fits, Ascending, Distinct, PagesOf, KeysFit;
  }

  // An insertion answers CHIDB_ECONSTRAINT exactly when the key is there; otherwise the tree
  // gets the entry.
  lemma EntryGoesIn(m: Machine, root: nat, e: Entry, lim: Limits)
    requires SoundAt(m.db, root, lim) && EntrySound(ShapeOf(m.db, root), e, lim) && m.db.pages + PAGES_EACH < 0x1_0000_0000
    ensures var taken := HasKey(Entries(m.db.store[root]), e.key);
      (taken ==> InsertEntry(m, root, e).Constraint?) && (!taken ==> InsertEntry(m, root, e).Ok?)
    ensures var es, m' := Entries(m.db.store[root]), InsertEntry(m, root, e).m;
      && m' == m.(db := m'.db) && SoundAt(m'.db, root, lim)
      && Changed(m.db, m'.db, root, if HasKey(es, e.key) then es else InsertSorted(es, e))
  {
    hide Trees.Insert, TreeSound, EntrySound, EntryFits, InsertSorted, HasKey, Btrees.RootInsertable, Entries;
    SoundAfter(ShapeOf(m.db, root), m.db.store[root], lim, m.db.pages, e);
  }

  // ---- up to the row ------------------------------------------------------------------------------

  lemma OpensRun(ops: seq<Op>, m: Machine, p: InsertPlan) returns (m': Machine)
    requires ValidInsertPlan(p) && CodeAt(ops, m.pc, OpenInsert(p)) && p.root in m.db.store && p.root < 0x8000_0000
    ensures Runs(ops, m, [], m') && m'.pc == m.pc + 3 && m'.db == m.db
    ensures IsOpen(m', 0) && m'.cursors[0].root == p.root && RegIs(m', 1, Int(p.values[p.pk].i))
  {
    hide Runs, Collect;
    var code := OpenInsert(p);
    assert ops[m.pc + 0] == code[0] && ops[m.pc + 1] == code[1] && ops[m.pc + 2] == code[2];
    RunsStep(ops, m);
    var m1 := Step(ops, m).m;
    RunsStep(ops, m1);
    var m2 := Step(ops, m1).m;
    RunsStep(ops, m2);
    m' := Step(ops, m2).m;
    RunsOn(ops, m, m1, [], m2);
    RunsOn(ops, m, m2, [], m');
  }

  // The first k column registers are loaded; the rest is as after opening.
  ghost predicate ValuesLoaded(m: Machine, m': Machine, p: InsertPlan, k: nat)
    requires k <= |p.values|
  {
    && m'.pc == m.pc + k && m'.db == m.db && m'.cursors == m.cursors && COLUMN_REG <= |m'.regs| && COLUMN_REG + k <= |m'.regs|
    && (forall r :: 0 <= r < COLUMN_REG && r < |m.regs| ==> m'.regs[r] == m.regs[r])
    && forall i :: 0 <= i < k ==> m'.regs[COLUMN_REG + i] == RegisterValues(p)[i]
  }

  lemma {:induction false} ValuesRun(ops: seq<Op>, m: Machine, p: InsertPlan, k: nat) returns (m': Machine)
    requires RowFits(p) && CodeAt(ops, m.pc, LoadValues(p)) && k <= |p.values| && COLUMN_REG <= |m.regs|
    ensures Runs(ops, m, [], m') && ValuesLoaded(m, m', p, k)
  {
    hide Runs, RowFits;
    if k == 0 {
      m' := m;
      RunsNothing(ops, m);
    } else {
      var m1 := ValuesRun(ops, m, p, k - 1);
      assert ops[m.pc + (k - 1)] == LoadValues(p)[k - 1];
      NotDouble(p, k - 1);
      ValueRuns(ops, m1, p, k - 1);
      m' := AfterLoad(m1, COLUMN_REG + k - 1, RegisterValues(p)[k - 1]);
      RunsOn(ops, m, m1, [], m');
    }
  }

  lemma NotDouble(p: InsertPlan, i: nat)
    requires RowFits(p) && i < |p.values|
    ensures !p.values[i].DoubleLit?
  {
    assert LiteralMatches(p.values[i], p.columns[i].dataType);
  }

  lemma ValueRuns(ops: seq<Op>, m: Machine, p: InsertPlan, i: nat)
    requires i < |p.values| && m.pc < |ops| && ops[m.pc] == LoadValues(p)[i] && !p.values[i].DoubleLit?
    ensures Runs(ops, m, [], AfterLoad(m, COLUMN_REG + i, RegisterValues(p)[i]))
  {
    RunsStep(ops, m);
  }

  lemma RecordRuns(ops: seq<Op>, m: Machine, p: InsertPlan) returns (m': Machine)
    requires RowFits(p) && m.pc < |ops| && ops[m.pc] == StoreRow(p)[0] && |m.regs| >= COLUMN_REG + |p.values|
    requires forall i :: 0 <= i < |p.values| ==> m.regs[COLUMN_REG + i] == RegisterValues(p)[i]
    ensures Runs(ops, m, [], m') && m' == AfterLoad(m, RecordReg(p), Bytes(NewRecord(p)))
  {
    hide RecordFields, Buildable;
    assert m.regs[COLUMN_REG..COLUMN_REG + |p.values|] == RegisterValues(p);
    RunsStep(ops, m);
    m' := Step(ops, m).m;
  }

  // The machine before the row goes into the table.
  ghost predicate RowReady(m: Machine, p: InsertPlan, db: Database)
    requires RowFits(p)
  {
    && m.pc == 3 + |p.values| + 1 && m.db == db && IsOpen(m, 0) && m.cursors[0].root == p.root
    && RegIs(m, 1, Int(p.values[p.pk].i)) && RegIs(m, RecordReg(p), Bytes(NewRecord(p)))
    && forall i :: 0 <= i < |p.values| ==> RegIs(m, COLUMN_REG + i, RegisterValues(p)[i])
  }

  lemma RowIsReady(p: InsertPlan, db: Database) returns (m: Machine)
    requires RowFits(p) && p.root in db.store && p.root < 0x8000_0000
    ensures Runs(InsertCode(p), Initial(db, 0), [], m) && RowReady(m, p, db)
  {
    hide Runs, RowFits, InsertCode, LoadValues, OpenInsert;
    PlanIsValid(p);
    var ops, m0 := InsertCode(p), Initial(db, 0);
    InsertPieces(p);
    var m1 := OpensRun(ops, m0, p);
    var m2 := ValuesRun(ops, m1, p, |p.values|);
    assert ops[3 + |p.values| + 0] == StoreRow(p)[0];
    m := RecordRuns(ops, m2, p);
    RunsOn(ops, m0, m1, [], m2);
    RunsOn(ops, m0, m2, [], m);
  }

  lemma PlanIsValid(p: InsertPlan)
    requires RowFits(p)
    ensures ValidInsertPlan(p)
  {
  }

  // ---- the entries of the indexes -----------------------------------------------------------------

  predicate TargetTyped(p: InsertPlan, k: nat)
    requires k < |p.targets|
  {
    p.targets[k].col < |p.columns| && p.columns[p.targets[k].col].dataType == TypeInt
  }

  lemma IndexedLiteral(p: InsertPlan, k: nat)
    requires RowFits(p) && k < |p.targets| && TargetTyped(p, k)
    ensures p.targets[k].col < |p.values| && p.values[p.targets[k].col].IntLit?
    ensures -0x8000_0000 <= p.values[p.targets[k].col].i < 0x8000_0000
  {
    assert LiteralMatches(p.values[p.targets[k].col], TypeInt);
  }

  // What goes into index k.
  function TargetEntry(p: InsertPlan, k: nat): Entry
    requires RowFits(p) && k < |p.targets| && TargetTyped(p, k)
  {
    IndexedLiteral(p, k);
    Entry(Wrap(p.values[p.targets[k].col].i), [], NewKey(p))
  }

  // It is the entry of the new row if and only if the indexed column reads back.
  lemma TargetEntryIsEntryOf(p: InsertPlan, k: nat)
    requires RowFits(p) && k < |p.targets| && TargetTyped(p, k)
    ensures ValidInsertPlan(p) && TargetEntry(p, k).pk == NewEntry(p).key
    ensures IsEntryOf(p.columns, p.targets[k].col, TargetEntry(p, k), NewEntry(p)) <==> ReadsBack(p, p.targets[k].col)
  {
    hide Buildable, NewRecord, ColumnValue;
    IndexedLiteral(p, k);
    RowBack(p, p.targets[k].col);
  }

  ghost predicate TargetFits(p: InsertPlan, db: Database, k: nat, lim: Limits)
    requires k < |p.targets|
  {
    var root := p.targets[k].root;
    && TargetTyped(p, k) && root in db.indexes && root < 0x8000_0000 && root != p.root && SoundAt(db, root, lim)
    && forall j :: 0 <= j < k ==> p.targets[j].root != root
  }

  // The file a row is inserted into: the table and its indexes are distinct trees with room.
  ghost predicate InsertFits(p: InsertPlan, db: Database, lim: Limits) {
    && RowFits(p) && p.root !in db.indexes && p.root < 0x8000_0000 && SoundAt(db, p.root, lim)
    && EntrySound(ShapeOf(db, p.root), NewEntry(p), lim) && db.pages + PAGES_EACH * (|p.targets| + 1) < 0x1_0000_0000
    && forall k :: 0 <= k < |p.targets| ==> TargetFits(p, db, k, lim)
  }

  function After(es: seq<Entry>, e: Entry, done: bool): seq<Entry> {
    if done then InsertSorted(es, e) else es
  }

  predicate IsTarget(p: InsertPlan, r: nat) {
    exists k :: 0 <= k < |p.targets| && p.targets[k].root == r
  }

  ghost predicate TargetDone(p: InsertPlan, db0: Database, db: Database, k: nat, n: nat, lim: Limits)
    requires RowFits(p) && k < |p.targets| && TargetFits(p, db0, k, lim)
  {
    && SoundAt(db, p.targets[k].root, lim)
    && Entries(db.store[p.targets[k].root]) == After(Entries(db0.store[p.targets[k].root]), TargetEntry(p, k), k < n)
  }

  // The row is in the table and its entry in the first n indexes; nothing else has changed.
  ghost predicate Progress(p: InsertPlan, db0: Database, db: Database, n: nat, lim: Limits)
    requires InsertFits(p, db0, lim)
  {
    && db.indexes == db0.indexes && db.pageSize == db0.pageSize && db.store.Keys == db0.store.Keys && db0.pages <= db.pages
    && Entries(db.store[p.root]) == InsertSorted(Entries(db0.store[p.root]), NewEntry(p))
    && (forall k :: 0 <= k < |p.targets| ==> TargetDone(p, db0, db, k, n, lim))
    && forall r :: r in db0.store && r != p.root && !IsTarget(p, r) ==> db.store[r] == db0.store[r]
  }

  // Key k is already in its index.
  ghost predicate Taken(p: InsertPlan, db0: Database, k: nat, lim: Limits)
    requires RowFits(p) && k < |p.targets| && TargetFits(p, db0, k, lim)
  {
    HasKey(Entries(db0.store[p.targets[k].root]), TargetEntry(p, k).key)
  }

  lemma FitsAt(p: InsertPlan, db: Database, k: nat, lim: Limits)
    requires InsertFits(p, db, lim) && k < |p.targets|
    ensures RowFits(p) && TargetFits(p, db, k, lim)
  {
  }

  lemma TargetEntrySound(p: InsertPlan, db: Database, k: nat, lim: Limits)
    requires RowFits(p) && k < |p.targets| && TargetFits(p, db, k, lim)
    ensures EntrySound(ShapeOf(db, p.targets[k].root), TargetEntry(p, k), lim)
  {
    hide Buildable, SoundAt;
    IndexedLiteral(p, k);
  }

  // k insertions.
  predicate PagesUsed(db0: Database, db: Database, k: nat) {
    db.pages <= db0.pages + PAGES_EACH * k
  }

  lemma PagesLeft(p: InsertPlan, db0: Database, db: Database, n: nat, lim: Limits)
    requires InsertFits(p, db0, lim) && n < |p.targets| && PagesUsed(db0, db, n + 1)
    ensures db.pages + PAGES_EACH < 0x1_0000_0000
  {
    hide RowFits, TargetFits, SoundAt, EntrySound;
  }

  // Inserting into index n takes the progress one step on, unless the key is taken.
  lemma ProgressStep(p: InsertPlan, db0: Database, m: Machine, n: nat, lim: Limits)
    requires InsertFits(p, db0, lim) && n < |p.targets| && Progress(p, db0, m.db, n, lim) && PagesUsed(db0, m.db, n + 1)
    ensures RowFits(p) && TargetFits(p, db0, n, lim)
    ensures var r := InsertEntry(m, p.targets[n].root, TargetEntry(p, n));
      && (if Taken(p, db0, n, lim) then r.Constraint? else r.Ok?) && r.m == m.(db := r.m.db)
      && Progress(p, db0, r.m.db, if Taken(p, db0, n, lim) then n else n + 1, lim) && PagesUsed(db0, r.m.db, n + 2)
  {
    hide RowFits, RoomyPages, TreeSound, HasKey, InsertSorted, InsertEntry, EntrySound;
    FitsAt(p, db0, n, lim);
    var root, e := p.targets[n].root, TargetEntry(p, n);
    assert TargetDone(p, db0, m.db, n, n, lim);
    TargetEntrySound(p, db0, n, lim);
    PagesLeft(p, db0, m.db, n, lim);
    EntryGoesIn(m, root, e, lim);
    var db', n' := InsertEntry(m, root, e).m.db, if Taken(p, db0, n, lim) then n else n + 1;
    forall k | 0 <= k < |p.targets| ensures TargetDone(p, db0, db', k, n', lim) {
      FitsAt(p, db0, k, lim);
      assert TargetDone(p, db0, m.db, k, n, lim);
      if k != n {
        assert p.targets[k].root != root;
        SoundLater(m.db, db', p.targets[k].root, lim);
      }
    }
    assert IsTarget(p, root);
  }

  // ---- the run --------------------------------------------------------------------------------------

  // The machine before index n gets its entry.
  ghost predicate EntriesReady(m: Machine, p: InsertPlan, n: nat) {
    && m.pc == EntriesAt(p) + 4 * n && IsOpen(m, 0) && ValidInsertPlan(p) && RegIs(m, 1, Int(p.values[p.pk].i))
    && forall i :: 0 <= i < |p.values| ==> RegIs(m, COLUMN_REG + i, RegisterValues(p)[i])
  }

  // A run that an instruction ends by answering CHIDB_ECONSTRAINT.
  ghost predicate Violates(ops: seq<Op>, m: Machine, m': Machine) {
    exists m1 :: Runs(ops, m, [], m1) && m1.pc < |ops| && Step(ops, m1) == Constraint(m')
  }

  lemma ViolatesLater(ops: seq<Op>, m: Machine, m1: Machine, m': Machine)
    requires Runs(ops, m, [], m1) && Violates(ops, m1, m')
    ensures Violates(ops, m, m')
  {
    hide Runs, Step;
    var m2 :| Runs(ops, m1, [], m2) && m2.pc < |ops| && Step(ops, m2) == Constraint(m');
    RunsOn(ops, m, m1, [], m2);
  }

  // The same tree contents as before; the shape of one tree may have changed.
  ghost predicate SameEntries(db: Database, db': Database) {
    && db'.indexes == db.indexes && db'.store.Keys == db.store.Keys
    && forall r :: r in db.store ==> Entries(db'.store[r]) == Entries(db.store[r])
  }

  lemma RowStep(ops: seq<Op>, p: InsertPlan, db: Database, m: Machine, lim: Limits) returns (m': Machine)
    requires InsertFits(p, db, lim) && RowReady(m, p, db)
    requires m.pc < |ops| && ops[m.pc] == StoreRow(p)[1]
    ensures HasKey(Entries(db.store[p.root]), NewKey(p)) ==> Step(ops, m) == Constraint(m') && SameEntries(db, m'.db)
    ensures !HasKey(Entries(db.store[p.root]), NewKey(p)) ==>
      Runs(ops, m, [], m') && EntriesReady(m', p, 0) && Progress(p, db, m'.db, 0, lim) && PagesUsed(db, m'.db, 1)
  {
    hide Runs, Buildable, NewRecord, Sized, TreeSound, RegisterValues, HasKey, InsertSorted, Entries, InsertEntry, TargetFits;
    var e := NewEntry(p);
    assert InsertRow(ops[m.pc], m.(pc := m.pc + 1)) == InsertEntry(m.(pc := m.pc + 1), p.root, e);
    assert Step(ops, m) == InsertEntry(m.(pc := m.pc + 1), p.root, e);
    EntryGoesIn(m.(pc := m.pc + 1), p.root, e, lim);
    m' := Step(ops, m).m;
    if !HasKey(Entries(db.store[p.root]), NewKey(p)) {
      RunsStep(ops, m);
      FirstProgress(p, db, m'.db, lim);
    }
  }

  lemma FirstProgress(p: InsertPlan, db: Database, db': Database, lim: Limits)
    requires InsertFits(p, db, lim)
    requires Changed(db, db', p.root, InsertSorted(Entries(db.store[p.root]), NewEntry(p)))
    ensures Progress(p, db, db', 0, lim) && PagesUsed(db, db', 1)
  {
    hide RowFits, TreeSound, InsertSorted;
    forall k | 0 <= k < |p.targets| ensures TargetDone(p, db, db', k, 0, lim) {
      FitsAt(p, db, k, lim);
      SoundLater(db, db', p.targets[k].root, lim);
    }
  }

  // The literal of the indexed column is in the register that IdxInsert reads.
  lemma IndexRegister(p: InsertPlan, m: Machine, n: nat, k: nat)
    requires RowFits(p) && EntriesReady(m, p, n) && k < |p.targets| && TargetTyped(p, k)
    ensures var r := IndexKeyReg(p, p.targets[k].col);
      HasInt(m, r) && HasInt(m, 1) && r < RecordReg(p) && 1 < RecordReg(p)
      && Entry(Wrap(m.regs[r].i), [], Wrap(m.regs[1].i)) == TargetEntry(p, k)
  {
    hide Buildable;
    IndexedLiteral(p, k);
    assert RegIs(m, COLUMN_REG + p.targets[k].col, RegisterValues(p)[p.targets[k].col]);
  }

  lemma OpenTarget(ops: seq<Op>, p: InsertPlan, m: Machine, n: nat) returns (m': Machine)
    requires n < |p.targets| && EntriesReady(m, p, n) && CodeAt(ops, m.pc, StoreEntry(p, n))
    requires p.targets[n].root in m.db.store && p.targets[n].root < 0x8000_0000
    ensures Runs(ops, m, [], m') && m'.db == m.db && EntriesReady(m'.(pc := m.pc), p, n) && m'.pc == m.pc + 2
    ensures IsOpen(m', n + 1) && m'.cursors[n + 1].root == p.targets[n].root
  {
    hide Runs, Collect, ValidInsertPlan, RegisterValues;
    var code := StoreEntry(p, n);
    assert ops[m.pc + 0] == code[0] && ops[m.pc + 1] == code[1];
    RunsStep(ops, m);
    var m1 := Step(ops, m).m;
    RunsStep(ops, m1);
    m' := Step(ops, m1).m;
    RunsOn(ops, m, m1, [], m');
  }

  lemma TargetStep(ops: seq<Op>, p: InsertPlan, db: Database, m: Machine, n: nat, lim: Limits) returns (m': Machine)
    requires InsertFits(p, db, lim) && n < |p.targets| && EntriesReady(m, p, n) && Progress(p, db, m.db, n, lim)
    requires CodeAt(ops, m.pc, StoreEntry(p, n)) && PagesUsed(db, m.db, n + 1)
    ensures RowFits(p) && TargetFits(p, db, n, lim)
    ensures Taken(p, db, n, lim) ==> Violates(ops, m, m') && Progress(p, db, m'.db, n, lim)
    ensures !Taken(p, db, n, lim) ==> Runs(ops, m, [], m') && EntriesReady(m', p, n + 1) && Progress(p, db, m'.db, n + 1, lim)
    ensures PagesUsed(db, m'.db, n + 2)
  {
    hide Runs, RowFits, Progress, Taken, InsertEntry, TargetEntry, ValidInsertPlan, RegisterValues, SoundAt;
    FitsAt(p, db, n, lim);
    TargetInStore(p, db, m.db, n, lim);
    var code, reg := StoreEntry(p, n), IndexKeyReg(p, p.targets[n].col);
    var m1 := OpenTarget(ops, p, m, n);
    IndexRegister(p, m1.(pc := m.pc), n, n);
    assert ops[m.pc + 2] == code[2] && ops[m.pc + 3] == code[3];
    var next := m1.(pc := m1.pc + 1);
    assert Step(ops, m1) == InsertEntry(next, p.targets[n].root, TargetEntry(p, n));
    ProgressStep(p, db, next, n, lim);
    m' := Step(ops, m1).m;
    if Taken(p, db, n, lim) {
      assert Violates(ops, m, m');
    } else {
      RunsStep(ops, m1);
      RunsOn(ops, m, m1, [], m');
      RunsStep(ops, m');
      var m2 := Step(ops, m').m;
      RunsOn(ops, m, m', [], m2);
      m' := m2;
    }
  }

  lemma TargetInStore(p: InsertPlan, db: Database, db': Database, n: nat, lim: Limits)
    requires InsertFits(p, db, lim) && n < |p.targets| && Progress(p, db, db', n, lim)
    ensures p.targets[n].root in db'.store && p.targets[n].root in db'.indexes && p.targets[n].root < 0x8000_0000
  {
    FitsAt(p, db, n, lim);
  }

  // From index n on: all of them get their entries, or one whose key is taken stops the run.
  lemma {:induction false} TargetsRun(ops: seq<Op>, p: InsertPlan, db: Database, m: Machine, n: nat, lim: Limits)
    returns (stop: nat, m': Machine)
    requires InsertFits(p, db, lim) && n <= |p.targets| && EntriesReady(m, p, n) && Progress(p, db, m.db, n, lim)
    requires CodeAt(ops, EntriesAt(p), StoreEntries(p, |p.targets|)) && PagesUsed(db, m.db, n + 1)
    ensures RowFits(p) && n <= stop <= |p.targets| && Progress(p, db, m'.db, stop, lim)
    ensures forall k :: n <= k < stop ==> TargetFits(p, db, k, lim) && !Taken(p, db, k, lim)
    ensures stop < |p.targets| ==> TargetFits(p, db, stop, lim) && Taken(p, db, stop, lim) && Violates(ops, m, m')
    ensures stop == |p.targets| ==> Runs(ops, m, [], m') && EntriesReady(m', p, stop)
    decreases |p.targets| - n
  {
    hide Runs, RowFits, Progress, Taken, TargetFits, EntriesReady, StoreEntry, StoreEntries, CodeAt, Violates;
    if n == |p.targets| {
      stop, m' := n, m;
      RunsNothing(ops, m);
      assert RowFits(p);
    } else {
      assert m.pc == EntriesAt(p) + 4 * n by { ReadyAt(m, p, n); }
      EntryPiece(ops, EntriesAt(p), p, |p.targets|, n);
      var m1 := TargetStep(ops, p, db, m, n, lim);
      if Taken(p, db, n, lim) {
        stop, m' := n, m1;
      } else {
        stop, m' := TargetsRun(ops, p, db, m1, n + 1, lim);
        if stop < |p.targets| {
          ViolatesLater(ops, m, m1, m');
        } else {
          RunsOn(ops, m, m1, [], m');
        }
      }
    }
  }

  lemma ReadyAt(m: Machine, p: InsertPlan, n: nat)
    requires EntriesReady(m, p, n)
    ensures m.pc == EntriesAt(p) + 4 * n && IsOpen(m, 0)
  {
  }

  // ---- what the statement does ------------------------------------------------------------------------

  // A run as calls of the fetch loop see it.
  lemma {:induction false} ExecAfter(ops: seq<Op>, m: Machine, n: nat, m1: Machine, k: nat, code: ExecCode, m': Machine)
    requires Reaches(ops, m, n, [], m1) && ExecTo(ops, m1, k, code, m') && (m1.pc < |ops| || n == 0 || k == 0)
    ensures ExecTo(ops, m, n + k, code, m')
    decreases n
  {
    hide Step, CursorReady;
    if n != 0 {
      ExecAfter(ops, Step(ops, m).m, n - 1, m1, k, code, m');
    }
  }

  lemma ViolatesExec(ops: seq<Op>, m: Machine, m': Machine) returns (n: nat)
    requires Violates(ops, m, m')
    ensures ExecTo(ops, m, n, Violated, m')
  {
    hide Step, Reaches;
    var m1 :| Runs(ops, m, [], m1) && m1.pc < |ops| && Step(ops, m1) == Constraint(m');
    var k: nat :| Reaches(ops, m, k, [], m1);
    assert ExecTo(ops, m1, 1, Violated, m');
    ExecAfter(ops, m, k, m1, 1, Violated, m');
    n := k + 1;
  }

  lemma RunsExec(ops: seq<Op>, m: Machine, m': Machine) returns (n: nat)
    requires Runs(ops, m, [], m') && |ops| <= m'.pc
    ensures ExecTo(ops, m, n, Done, m')
  {
    hide Step, Reaches;
    n :| Reaches(ops, m, n, [], m');
    assert ExecTo(ops, m', 0, Done, m');
    ExecAfter(ops, m, n, m', 0, Done, m');
  }

  lemma EndRuns(ops: seq<Op>, m: Machine) returns (m': Machine)
    requires CodeAt(ops, m.pc, [MakeOp(Op_Close, 0, 0, 0), MakeOp(Op_Halt, 0, 0, 0)]) && IsOpen(m, 0)
    ensures Runs(ops, m, [], m') && m'.pc == |ops| && m'.db == m.db
  {
    hide Runs;
    var code := [MakeOp(Op_Close, 0, 0, 0), MakeOp(Op_Halt, 0, 0, 0)];
    assert ops[m.pc + 0] == code[0] && ops[m.pc + 1] == code[1];
    RunsStep(ops, m);
    var m1 := Step(ops, m).m;
    RunsStep(ops, m1);
    m' := Step(ops, m1).m;
    RunsOn(ops, m, m1, [], m');
  }

  // No key of the new row is in use: the primary key in the table, the values in the indexes.
  ghost predicate NothingTaken(p: InsertPlan, db: Database, lim: Limits)
    requires InsertFits(p, db, lim)
  {
    && !HasKey(Entries(db.store[p.root]), NewKey(p))
    && forall k :: 0 <= k < |p.targets| ==> TargetFits(p, db, k, lim) && !Taken(p, db, k, lim)
  }

  // An INSERT program always stops: at Halt, with the row in the table and its entry in every
  // index, exactly when no key was taken; or with CHIDB_ECONSTRAINT, either at the table, and
  // then nothing has changed, or at the first index that has the value, and then the row and
  // the entries before that one stay.
  lemma InsertRuns(p: InsertPlan, db: Database, lim: Limits) returns (n: nat, code: ExecCode, end: Machine, stop: nat)
    requires InsertFits(p, db, lim)
    ensures ValidInsertPlan(p) && ExecTo(InsertCode(p), Initial(db, 0), n, code, end)
    ensures code == if NothingTaken(p, db, lim) then Done else Violated
    ensures stop <= |p.targets| && (code == Done ==> stop == |p.targets|)
    ensures HasKey(Entries(db.store[p.root]), NewKey(p)) ==> SameEntries(db, end.db)
    ensures !HasKey(Entries(db.store[p.root]), NewKey(p)) ==> Progress(p, db, end.db, stop, lim)
    ensures !HasKey(Entries(db.store[p.root]), NewKey(p)) && code == Violated ==>
      stop < |p.targets| && TargetFits(p, db, stop, lim) && Taken(p, db, stop, lim)
  {
    hide Runs, RowFits, Progress, Taken, TargetFits, EntriesReady, StoreEntries, CodeAt, Violates, InsertCode, HasKey, Entries,
      SameEntries, RowReady, ExecTo, Step, Initial;
    PlanIsValid(p);
    InsertPieces(p);
    var ops, m0 := InsertCode(p), Initial(db, 0);
    var m := RowIsReady(p, db);
    StoreAt(ops, m, p, db);
    var m1 := RowStep(ops, p, db, m, lim);
    if HasKey(Entries(db.store[p.root]), NewKey(p)) {
      ViolatesHere(ops, m0, m, m1);
      n := ViolatesExec(ops, m0, m1);
      code, end, stop := Violated, m1, 0;
    } else {
      RunsOn(ops, m0, m, [], m1);
      var m2;
      stop, m2 := TargetsRun(ops, p, db, m1, 0, lim);
      if stop < |p.targets| {
        ViolatesLater(ops, m0, m1, m2);
        n := ViolatesExec(ops, m0, m2);
        code, end := Violated, m2;
      } else {
        ReadyAt(m2, p, stop);
        end := EndRuns(ops, m2);
        RunsOn(ops, m0, m1, [], m2);
        RunsOn(ops, m0, m2, [], end);
        n := RunsExec(ops, m0, end);
        code := Done;
      }
    }
  }

  lemma StoreAt(ops: seq<Op>, m: Machine, p: InsertPlan, db: Database)
    requires RowFits(p) && RowReady(m, p, db) && CodeAt(ops, 3 + |p.values|, StoreRow(p))
    ensures m.pc < |ops| && ops[m.pc] == StoreRow(p)[1]
  {
    assert ops[3 + |p.values| + 1] == StoreRow(p)[1];
  }

  lemma ViolatesHere(ops: seq<Op>, m: Machine, m1: Machine, m': Machine)
    requires Runs(ops, m, [], m1) && m1.pc < |ops| && Step(ops, m1) == Constraint(m')
    ensures Violates(ops, m, m')
  {
  }
}
