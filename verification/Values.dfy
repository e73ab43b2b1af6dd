// Register values and what a stored row contains.
module Values {
  import opened Common
  import opened Sql
  import opened Records
  import opened Trees

  datatype Value = Unspecified | Null | Int(i: int) | Str(s: text) | Bytes(b: seq<byte>)

  type Row = seq<Value>

  // strcmp, as an order on text.
  predicate TextLess(a: text, b: text) {
    if b == [] then false
    else if a == [] then true
    else if a[0] != b[0] then a[0] < b[0]
    else TextLess(a[1..], b[1..])
  }

  // Negative, zero or positive, as reg_compare answers for two integers or two texts.
  function Order(a: Value, b: Value): int
    requires Comparable(a, b)
  {
    if a.Int? then (if a.i < b.i then -1 else if b.i < a.i then 1 else 0)
    else if a.s == b.s then 0
    else if TextLess(a.s, b.s) then -1
    else 1
  }

  predicate Comparable(a: Value, b: Value) {
    (a.Int? && b.Int?) || (a.Str? && b.Str?)
  }

  function CharText(c: byte): text {
    if c == 0 then [] else [c]
  }

  function LiteralValue(lit: Literal): Value {
    match lit
    case IntLit(i) => Int(i)
    case CharLit(c) => Str(CharText(c))
    case TextLit(s) => Str(s)
    case DoubleLit(_) => Unspecified
  }

  // The value of field i of a packed record, as Op_Column leaves it in a register.
  function FieldValue(data: seq<byte>, i: nat): Option<Value> {
    match Unpack(data)
    case None => None
    case Some(r) =>
      if |r.types| <= i then None
      else match GetField(r, i)
        case None => None
        case Some(NullField) => Some(Null)
        case Some(Int8(v)) => Some(Int(v))
        case Some(Int16(v)) => Some(Int(v))
        case Some(Int32(v)) => Some(Int(v))
        case Some(Text(s)) => Some(Str(s))
  }

  function ValueOf(f: Field): Value {
    match f
    case NullField => Null
    case Int8(i) => Int(i)
    case Int16(i) => Int(i)
    case Int32(i) => Int(i)
    case Text(s) => Str(s)
  }

  // Every field of a packed record reads back as its value, whatever its kind.
  lemma FieldReadsBack(fs: seq<Field>, tail: seq<byte>, i: nat)
    requires AllInRange(fs) && Packable(fs) && i < |fs|
    ensures FieldValue(Packed(fs) + tail, i) == Some(ValueOf(fs[i]))
  {
    hide Packed, Unpack, GetField, Packable;
    UnpackPacked(fs, tail);
  }

  // Column i of the row stored in a table entry: the primary key is the entry's key.
  function ColumnValue(columns: seq<Column>, e: Entry, i: nat): Value
    requires i < |columns|
  {
    if columns[i].primaryKey then Int(e.key)
    else match FieldValue(e.data, i)
      case None => Unspecified
      case Some(v) => v
  }

  function RowOf(columns: seq<Column>, e: Entry): (r: Row)
    ensures |r| == |columns|
    ensures forall i :: 0 <= i < |columns| ==> r[i] == ColumnValue(columns, e, i)
  {
    seq(|columns|, i requires 0 <= i < |columns| => ColumnValue(columns, e, i))
  }

  predicate HasType(v: Value, t: DataType) {
    match t
    case TypeInt => v.Int? && -0x8000_0000 <= v.i < 0x8000_0000
    case TypeText => v.Str?
    case _ => false
  }

  // A stored row agrees with the column list.
  predicate TypedEntry(columns: seq<Column>, e: Entry) {
    && e.key < 0x8000_0000
    && forall i :: 0 <= i < |columns| ==>
         && HasType(ColumnValue(columns, e, i), columns[i].dataType)
         && (!columns[i].primaryKey ==> FieldValue(e.data, i).Some?)
  }

  predicate TypedTable(columns: seq<Column>, entries: seq<Entry>) {
    forall k :: 0 <= k < |entries| ==> TypedEntry(columns, entries[k])
  }
}
