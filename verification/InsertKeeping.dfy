// INSERT and the indexes of its table: when they still agree afterwards.
module InsertKeeping {
  import opened Trees
  import opened TreeContents
  import opened TreeInsert
  import opened Machine
  import opened JoinStart
  import opened Dbms
  import opened IndexVisits
  import opened IndexKeeping
  import opened InsertLayout
  import opened InsertRecord
  import opened InsertRun

  ghost predicate TargetHolds(p: InsertPlan, db: Database, k: nat)
    requires k < |p.targets|
  {
    && p.root in db.store && p.targets[k].root in db.store && p.targets[k].col < |p.columns|
    && IndexHolds(p.columns, p.targets[k].col, Entries(db.store[p.root]), Entries(db.store[p.targets[k].root]))
  }

  // Every index on the table has exactly the pairs of its rows.
  ghost predicate AllHold(p: InsertPlan, db: Database) {
    forall k :: 0 <= k < |p.targets| ==> TargetHolds(p, db, k)
  }

  lemma SameHold(p: InsertPlan, db: Database, db': Database, lim: Limits)
    requires InsertFits(p, db, lim) && AllHold(p, db) && SameEntries(db, db')
    ensures AllHold(p, db')
  {
    hide IndexHolds, InsertFits;
    forall k | 0 <= k < |p.targets| ensures TargetHolds(p, db', k) {
      assert TargetHolds(p, db, k);
    }
  }

  // All indexed columns of the new row read back.
  ghost predicate TargetsReadBack(p: InsertPlan) {
    ValidInsertPlan(p) && forall k :: 0 <= k < |p.targets| ==> ReadsBack(p, p.targets[k].col)
  }

  lemma DoneHolds(p: InsertPlan, db: Database, db': Database, lim: Limits)
    requires InsertFits(p, db, lim) && AllHold(p, db) && Progress(p, db, db', |p.targets|, lim)
    requires !HasKey(Entries(db.store[p.root]), NewKey(p))
    ensures AllHold(p, db') <==> TargetsReadBack(p)
  {
    hide IndexHolds, RowFits, TreeSound, InsertSorted, ReadsBack, HasKey, ValidInsertPlan;
    PlanIsValid(p);
    forall k | 0 <= k < |p.targets| ensures TargetHolds(p, db', k) <==> ReadsBack(p, p.targets[k].col) {
      DoneHoldsAt(p, db, db', k, lim);
    }
  }

  lemma DoneHoldsAt(p: InsertPlan, db: Database, db': Database, k: nat, lim: Limits)
    requires InsertFits(p, db, lim) && AllHold(p, db) && Progress(p, db, db', |p.targets|, lim) && k < |p.targets|
    requires !HasKey(Entries(db.store[p.root]), NewKey(p))
    ensures ValidInsertPlan(p) && (TargetHolds(p, db', k) <==> ReadsBack(p, p.targets[k].col))
  {
    hide IndexHolds, RowFits, TreeSound, InsertSorted, ReadsBack, HasKey, IsEntryOf;
    FitsAt(p, db, k, lim);
    assert TargetHolds(p, db, k) && TargetDone(p, db, db', k, |p.targets|, lim);
    TargetEntryIsEntryOf(p, k);
    var t, x := Entries(db.store[p.root]), Entries(db.store[p.targets[k].root]);
    if ReadsBack(p, p.targets[k].col) {
      HoldsAfterBoth(p.columns, p.targets[k].col, t, x, NewEntry(p), TargetEntry(p, k));
    } else {
      BrokenByEntry(p.columns, p.targets[k].col, t, x, NewEntry(p), TargetEntry(p, k));
    }
  }

  lemma StoppedBreaks(p: InsertPlan, db: Database, db': Database, stop: nat, lim: Limits)
    requires InsertFits(p, db, lim) && AllHold(p, db) && Progress(p, db, db', stop, lim) && stop < |p.targets|
    requires !HasKey(Entries(db.store[p.root]), NewKey(p))
    ensures !AllHold(p, db')
  {
    hide IndexHolds, RowFits, TreeSound, InsertSorted;
    FitsAt(p, db, stop, lim);
    assert TargetHolds(p, db, stop) && TargetDone(p, db, db', stop, stop, lim);
    BrokenWithoutEntry(p.columns, p.targets[stop].col, Entries(db.store[p.root]), Entries(db.store[p.targets[stop].root]), NewEntry(p));
    assert !TargetHolds(p, db', stop);
  }

  lemma NothingInTable(p: InsertPlan, db: Database, lim: Limits)
    requires InsertFits(p, db, lim)
    ensures NothingTaken(p, db, lim) ==> !HasKey(Entries(db.store[p.root]), NewKey(p))
  {
  }

  // The main result about INSERT. It runs to Halt exactly when none of its keys is taken. Its
  // indexes still agree afterwards exactly when the primary key was taken, or no key was and all
  // indexed columns read back. An indexed value that is taken leaves a row behind that its index
  // does not know.
  lemma InsertKeepsIndexes(p: InsertPlan, db: Database, lim: Limits)
    returns (n: nat, code: ExecCode, end: Machine, stop: nat)
    requires InsertFits(p, db, lim) && AllHold(p, db)
    ensures ValidInsertPlan(p) && ExecTo(InsertCode(p), Initial(db, 0), n, code, end)
    ensures code == if NothingTaken(p, db, lim) then Done else Violated
    ensures end.db.store.Keys == db.store.Keys
    ensures AllHold(p, end.db) <==> HasKey(Entries(db.store[p.root]), NewKey(p)) || (NothingTaken(p, db, lim) && TargetsReadBack(p))
    ensures HasKey(Entries(db.store[p.root]), NewKey(p)) ==> SameEntries(db, end.db)
    ensures !HasKey(Entries(db.store[p.root]), NewKey(p)) ==> Progress(p, db, end.db, stop, lim)
    ensures code == Done ==> stop == |p.targets| && Entries(end.db.store[p.root]) == InsertSorted(Entries(db.store[p.root]), NewEntry(p))
    ensures forall r :: r in db.store && r != p.root && !IsTarget(p, r) ==> Entries(end.db.store[r]) == Entries(db.store[r])
  {
    hide AllHold, NothingTaken, ExecTo, InsertCode, HasKey, Taken, TargetFits, RowFits, InsertSorted, TargetsReadBack;
    n, code, end, stop := InsertRuns(p, db, lim);
    NothingInTable(p, db, lim);
    if HasKey(Entries(db.store[p.root]), NewKey(p)) {
      SameHold(p, db, end.db, lim);
    } else if code == Done {
      DoneHolds(p, db, end.db, lim);
    } else {
      StoppedBreaks(p, db, end.db, stop, lim);
    }
  }
}
