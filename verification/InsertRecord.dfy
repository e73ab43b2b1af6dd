// The row an INSERT stores: what its record holds, and what reading it back gives.
module InsertRecord {
  import opened Common
  import opened Sql
  import opened Values
  import opened Records
  import opened Trees
  import opened Machine
  import opened Planner
  import opened InsertLayout

  predicate Storable(v: Value) {
    v.Null? || v.Int? || v.Str?
  }

  function FieldFor(v: Value): Field
    requires Storable(v)
  {
    match v
    case Null => NullField
    case Int(i) => Int32(i)
    case Str(s) => Text(s)
  }

  // The registers the record is made from.
  function RegisterValues(p: InsertPlan): (vs: seq<Value>)
    ensures |vs| == |p.values|
  {
    seq(|p.values|, i requires 0 <= i < |p.values| => if i == p.pk then Null else LiteralValue(p.values[i]))
  }

  predicate AllStorable(vs: seq<Value>) {
    forall i :: 0 <= i < |vs| ==> Storable(vs[i])
  }

  lemma {:induction false} FieldsOf(vs: seq<Value>)
    requires AllStorable(vs)
    ensures |RecordFields(vs)| == |vs| && forall i :: 0 <= i < |vs| ==> RecordFields(vs)[i] == FieldFor(vs[i])
  {
    if vs != [] {
      FieldsOf(vs[..|vs| - 1]);
    }
  }

  // What the source asks of the values of a row.
  ghost predicate RowFits(p: InsertPlan) {
    && ValidInsertPlan(p) && LiteralsMatch(p.columns, p.values) && |p.values| < 0x100
    && 0 <= p.values[p.pk].i < 0x1000_0000
    && (forall i :: 0 <= i < |p.values| && p.values[i].IntLit? ==> -0x8000_0000 <= p.values[i].i < 0x8000_0000)
    && Buildable(RecordFields(RegisterValues(p)))
  }

  function NewKey(p: InsertPlan): nat
    requires RowFits(p)
  {
    p.values[p.pk].i
  }

  function NewRecord(p: InsertPlan): seq<byte>
    requires RowFits(p)
  {
    Packed(RecordFields(RegisterValues(p)))
  }

  function NewEntry(p: InsertPlan): Entry
    requires RowFits(p)
  {
    Entry(NewKey(p), NewRecord(p), 0)
  }

  lemma ValuesStorable(p: InsertPlan)
    requires RowFits(p)
    ensures AllStorable(RegisterValues(p))
  {
    forall i | 0 <= i < |p.values| ensures Storable(RegisterValues(p)[i]) {
      assert LiteralMatches(p.values[i], p.columns[i].dataType);
    }
  }

  // A field of the record, read back.
  lemma FieldBack(p: InsertPlan, i: nat)
    requires RowFits(p) && i < |p.values|
    ensures FieldValue(NewRecord(p), i) == Some(RegisterValues(p)[i])
  {
    hide Packed, Unpack, GetField, Packable, RecordFields;
    var fs := RecordFields(RegisterValues(p));
    ValuesStorable(p);
    FieldsOf(RegisterValues(p));
    assert AllInRange(fs) by { BuildableInRange(fs); }
    UnpackPacked(fs, []);
    assert Packed(fs) + [] == Packed(fs);
  }

  lemma BuildableInRange(fs: seq<Field>)
    requires Buildable(fs)
    ensures AllInRange(fs) && Packable(fs)
  {
  }

  // Column i comes back as the literal it was given. A column that is marked as a primary key is
  // read from the key of the entry, any other from the record, where the key column is NULL.
  predicate ReadsBack(p: InsertPlan, i: nat)
    requires ValidInsertPlan(p) && i < |p.columns|
  {
    if p.columns[i].primaryKey then p.values[i] == p.values[p.pk] else i != p.pk
  }

  lemma RowBack(p: InsertPlan, i: nat)
    requires RowFits(p) && i < |p.values|
    ensures ColumnValue(p.columns, NewEntry(p), i) == LiteralValue(p.values[i]) <==> ReadsBack(p, i)
    ensures i == p.pk && !p.columns[i].primaryKey ==> ColumnValue(p.columns, NewEntry(p), i) == Null
  {
    hide Buildable, NewRecord, FieldValue;
    FieldBack(p, i);
    assert LiteralMatches(p.values[i], p.columns[i].dataType);
  }

  // The new row is the row of its literals if and only if each of them reads back; then it has
  // the types of the columns.
  lemma NewRow(p: InsertPlan)
    requires RowFits(p)
    ensures |RowOf(p.columns, NewEntry(p))| == |p.values| == |p.columns|
    ensures (forall i :: 0 <= i < |p.values| ==> ReadsBack(p, i)) <==>
      forall i :: 0 <= i < |p.values| ==> RowOf(p.columns, NewEntry(p))[i] == LiteralValue(p.values[i])
    ensures (forall i :: 0 <= i < |p.values| ==> ReadsBack(p, i)) ==> TypedEntry(p.columns, NewEntry(p))
  {
    hide RowFits, NewEntry, ColumnValue, FieldValue, LiteralValue, ReadsBack, TypedEntry;
    SameCount(p);
    forall i | 0 <= i < |p.values|
      ensures ColumnValue(p.columns, NewEntry(p), i) == LiteralValue(p.values[i]) <==> ReadsBack(p, i)
    {
      RowBack(p, i);
    }
    if forall i :: 0 <= i < |p.values| ==> ReadsBack(p, i) {
      NewTyped(p);
    }
  }

  lemma SameCount(p: InsertPlan)
    requires RowFits(p)
    ensures |p.columns| == |p.values| && ValidInsertPlan(p)
  {
  }

  lemma NewTyped(p: InsertPlan)
    requires RowFits(p) && forall i :: 0 <= i < |p.values| ==> ReadsBack(p, i)
    ensures TypedEntry(p.columns, NewEntry(p))
  {
    hide Buildable, NewRecord, FieldValue, ColumnValue;
    var e := NewEntry(p);
    forall i | 0 <= i < |p.columns|
      ensures HasType(ColumnValue(p.columns, e, i), p.columns[i].dataType)
      ensures !p.columns[i].primaryKey ==> FieldValue(e.data, i).Some?
    {
      RowBack(p, i);
      FieldBack(p, i);
      assert LiteralMatches(p.values[i], p.columns[i].dataType);
    }
  }
}
