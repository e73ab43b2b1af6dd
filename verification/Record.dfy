// The record format of record.c: a header of type codes and the field data.
module Records {
  import opened Common
  import opened Bytes

  datatype Field =
    | NullField
    | Int8(i: int)
    | Int16(i: int)
    | Int32(i: int)
    | Text(s: seq<byte>)

  // DBRecord: the type codes, where each field starts in the data, and the data.
  datatype Record = Record(types: seq<nat>, offsets: seq<nat>, data: seq<byte>)

  const SQL_NULL := 0
  const SQL_INTEGER_1BYTE := 1
  const SQL_INTEGER_2BYTE := 2
  const SQL_INTEGER_4BYTE := 4
  const SQL_TEXT := 13
  const SQL_NOTVALID := -1

  predicate InRange(f: Field) {
    match f
    case NullField => true
    case Int8(i) => -0x80 <= i < 0x80
    case Int16(i) => -0x8000 <= i < 0x8000
    case Int32(i) => -0x8000_0000 <= i < 0x8000_0000
    case Text(s) => |s| * 2 + SQL_TEXT < 0x1000_0000
  }

  // Two's complement.
  function Unsigned(i: int, width: nat): nat
    requires -(width as int) <= i < width
  {
    if i < 0 then i + 2 * width else i
  }

  function Signed(u: nat, width: nat): int
    requires u < 2 * width
  {
    if u < width then u else u - 2 * width
  }

  // The sign comes back, and numbers that are not negative are stored as they are.
  lemma SignComesBack(i: int, width: nat)
    requires -(width as int) <= i < width
    ensures Signed(Unsigned(i, width), width) == i && (0 <= i ==> Unsigned(i, width) == i)
  {
  }

  // ---- writing ---------------------------------------------------------------------

  function TypeCode(f: Field): nat {
    match f
    case NullField => SQL_NULL
    case Int8(_) => SQL_INTEGER_1BYTE
    case Int16(_) => SQL_INTEGER_2BYTE
    case Int32(_) => SQL_INTEGER_4BYTE
    case Text(s) => |s| * 2 + SQL_TEXT
  }

  function FieldBytes(f: Field): (s: seq<byte>)
    requires InRange(f)
  {
    match f
    case NullField => []
    case Int8(i) => [Unsigned(i, 0x80)]
    case Int16(i) => Put2(Unsigned(i, 0x8000))
    case Int32(i) => Put4(Unsigned(i, 0x8000_0000))
    case Text(s) => s
  }

  // Text codes take a varint; the other codes take one byte.
  function HeaderEntry(code: nat): (s: seq<byte>) {
    if code == SQL_NULL || code == SQL_INTEGER_1BYTE || code == SQL_INTEGER_2BYTE || code == SQL_INTEGER_4BYTE
    then [code] else PutVarint(code)
  }

  ghost predicate AllInRange(fs: seq<Field>) {
    forall i :: 0 <= i < |fs| ==> InRange(fs[i])
  }

  function Header(fs: seq<Field>): seq<byte> {
    if fs == [] then [] else Header(fs[..|fs| - 1]) + HeaderEntry(TypeCode(fs[|fs| - 1]))
  }

  function Body(fs: seq<Field>): seq<byte>
    requires AllInRange(fs)
  {
    if fs == [] then [] else Body(fs[..|fs| - 1]) + FieldBytes(fs[|fs| - 1])
  }

  predicate Packable(fs: seq<Field>) {
    |Header(fs)| + 1 < 0x100
  }

  // The packed record: header size, header entries, data.
  function Packed(fs: seq<Field>): seq<byte>
    requires AllInRange(fs) && Packable(fs)
  {
    [|Header(fs)| + 1] + Header(fs) + Body(fs)
  }

  // ---- reading ---------------------------------------------------------------------

  // Codes below SQL_TEXT other than the integer ones wrap around in the unsigned
  // subtraction of the source; the parity test is the same.
  function GetType(code: nat): int {
    if code == SQL_NULL || code == SQL_INTEGER_1BYTE || code == SQL_INTEGER_2BYTE || code == SQL_INTEGER_4BYTE
    then code
    else if (code - SQL_TEXT) % 2 == 0 then SQL_TEXT
    else SQL_NOTVALID
  }

  function TextLength(code: nat): nat {
    (if code < SQL_TEXT then code + 0x1_0000_0000 - SQL_TEXT else code - SQL_TEXT) / 2
  }

  function FieldLength(code: nat): nat {
    var t := GetType(code);
    if t == SQL_INTEGER_1BYTE then 1
    else if t == SQL_INTEGER_2BYTE then 2
    else if t == SQL_INTEGER_4BYTE then 4
    else if t == SQL_TEXT then TextLength(code)
    else 0
  }

  // The header loop of unpack, whose position is a byte; None when it would read past the end
  // or step over the last position and start over.
  function ReadTypes(raw: seq<byte>, pos: nat, size: nat): Option<seq<nat>>
    decreases size - pos
  {
    if size <= pos then Some([])
    else if |raw| <= pos then None
    else if raw[pos] < 0x80 then
      match ReadTypes(raw, pos + 1, size)
      case None => None
      case Some(types) => Some([raw[pos] as nat] + types)
    else if |raw| < pos + 4 || 0x100 <= pos + 4 then None
    else
      match ReadTypes(raw, pos + 4, size)
      case None => None
      case Some(types) => Some([GetVarint(raw[pos], raw[pos + 1], raw[pos + 2], raw[pos + 3])] + types)
  }

  function DataLength(types: seq<nat>): nat {
    if types == [] then 0 else DataLength(types[..|types| - 1]) + FieldLength(types[|types| - 1])
  }

  function Offsets(types: seq<nat>): seq<nat> {
    seq(|types|, i requires 0 <= i < |types| => DataLength(types[..i]))
  }

  function Unpack(raw: seq<byte>): Option<Record> {
    if raw == [] then None
    else
      match ReadTypes(raw, 1, raw[0])
      case None => None
      case Some(types) =>
        if |raw| < raw[0] + DataLength(types) then None
        else Some(Record(types, Offsets(types), raw[raw[0]..raw[0] + DataLength(types)]))
  }

  // What the typed getters return for a field.
  function GetField(r: Record, i: nat): Option<Field>
    requires i < |r.types| == |r.offsets|
  {
    var code, at := r.types[i], r.offsets[i];
    if |r.data| < at + FieldLength(code) then None
    else
      var t, d := GetType(code), r.data;
      if t == SQL_NULL then Some(NullField)
      else if t == SQL_INTEGER_1BYTE then Some(Int8(Signed(d[at], 0x80)))
      else if t == SQL_INTEGER_2BYTE then Some(Int16(Signed(Get2(d[at], d[at + 1]), 0x8000)))
      else if t == SQL_INTEGER_4BYTE then
        Some(Int32(Signed(Get4(d[at], d[at + 1], d[at + 2], d[at + 3]), 0x8000_0000)))
      else if t == SQL_TEXT then Some(Text(d[at..at + TextLength(code)]))
      else None
  }

  // ---- round trip ------------------------------------------------------------------

  function Types(fs: seq<Field>): seq<nat> {
    seq(|fs|, i requires 0 <= i < |fs| => TypeCode(fs[i]))
  }

  lemma FieldLengthIsBytes(f: Field)
    requires InRange(f)
    ensures FieldLength(TypeCode(f)) == |FieldBytes(f)|
  {
  }

  lemma {:induction false} DataLengthIsBody(fs: seq<Field>)
    requires AllInRange(fs)
    ensures DataLength(Types(fs)) == |Body(fs)|
  {
    if fs != [] {
      var front := fs[..|fs| - 1];
      assert Types(fs)[..|fs| - 1] == Types(front);
      DataLengthIsBody(front);
      FieldLengthIsBytes(fs[|fs| - 1]);
    }
  }

  lemma {:induction false} BodyAt(fs: seq<Field>, i: nat)
    requires AllInRange(fs) && i < |fs|
    ensures var at := |Body(fs[..i])|;
      at + |FieldBytes(fs[i])| <= |Body(fs)| && Body(fs)[at..at + |FieldBytes(fs[i])|] == FieldBytes(fs[i])
  {
    var front := fs[..|fs| - 1];
    if i < |fs| - 1 {
      BodyAt(front, i);
      assert front[..i] == fs[..i] && front[i] == fs[i];
    } else {
      assert fs[..i] == front;
    }
  }

  lemma {:induction false} HeaderFrom(fs: seq<Field>, i: nat)
    requires i < |fs|
    ensures var at := |Header(fs[..i])|; var entry := HeaderEntry(TypeCode(fs[i]));
      && at + |entry| == |Header(fs[..i + 1])| <= |Header(fs)|
      && Header(fs)[at..at + |entry|] == entry
  {
    hide HeaderEntry, TypeCode;
    var front := fs[..|fs| - 1];
    var entry := HeaderEntry(TypeCode(fs[i]));
    if i < |fs| - 1 {
      HeaderFrom(front, i);
      assert front[..i] == fs[..i] && front[i] == fs[i] && front[..i + 1] == fs[..i + 1];
      var at, all := |Header(fs[..i])|, Header(front);
      assert Header(fs) == all + HeaderEntry(TypeCode(fs[|fs| - 1]));
      assert Header(fs)[at..at + |entry|] == all[at..at + |entry|];
    } else {
      assert fs[..i] == front && fs[..i + 1] == fs;
      assert Header(fs) == Header(front) + entry;
    }
  }

  // A header entry is recognized by its first byte and carries its code.
  ghost predicate Carries(entry: seq<byte>, code: nat) {
    || (|entry| == 1 && entry[0] == code < 0x80)
    || (|entry| == 4 && 0x80 <= entry[0] && GetVarint(entry[0], entry[1], entry[2], entry[3]) == code)
  }

  lemma EntryCarries(f: Field)
    requires InRange(f)
    ensures Carries(HeaderEntry(TypeCode(f)), TypeCode(f))
  {
    GetVarintPutVarint(TypeCode(f));
  }

  // One step of the header loop.
  lemma ReadHeaderEntry(raw: seq<byte>, pos: nat, size: nat, entry: seq<byte>, code: nat)
    requires Carries(entry, code) && pos + |entry| <= size < 0x100
    requires pos + |entry| <= |raw| && raw[pos..pos + |entry|] == entry
    ensures ReadTypes(raw, pos, size)
         == match ReadTypes(raw, pos + |entry|, size) case None => None case Some(types) => Some([code] + types)
  {
    hide GetVarint;
    forall k | 0 <= k < |entry| ensures raw[pos + k] == entry[k] {
      assert entry[k] == raw[pos..pos + |entry|][k];
    }
  }

  // Reading from the i-th header entry on gives the codes from field i on.
  lemma {:induction false} ReadHeader(fs: seq<Field>, raw: seq<byte>, i: nat)
    requires AllInRange(fs) && i <= |fs|
    requires |Header(fs)| + 1 < 0x100 && |Header(fs)| + 1 <= |raw| && raw[1..|Header(fs)| + 1] == Header(fs)
    ensures ReadTypes(raw, 1 + |Header(fs[..i])|, 1 + |Header(fs)|) == Some(Types(fs)[i..])
    decreases |fs| - i
  {
    hide HeaderEntry, ReadTypes, Header, TypeCode;
    if i == |fs| {
      assert fs[..i] == fs;
      ReadNothing(raw, 1 + |Header(fs)|);
    } else {
      var at, entry, code := |Header(fs[..i])|, HeaderEntry(TypeCode(fs[i])), TypeCode(fs[i]);
      HeaderFrom(fs, i);
      ReadHeader(fs, raw, i + 1);
      EntryCarries(fs[i]);
      SliceOfSlice(raw, 1, |Header(fs)| + 1, at, |entry|);
      ReadHeaderEntry(raw, 1 + at, 1 + |Header(fs)|, entry, code);
      assert Types(fs)[i..] == [code] + Types(fs)[i + 1..];
    }
  }

  lemma SliceOfSlice(s: seq<byte>, lo: nat, hi: nat, at: nat, n: nat)
    requires lo + at + n <= hi <= |s|
    ensures s[lo..hi][at..at + n] == s[lo + at..lo + at + n]
  {
    var t := s[lo..hi];
    forall j | at <= j < at + n ensures t[j] == s[lo + j] {
    }
    assert t[at..at + n] == s[lo + at..lo + at + n];
  }

  lemma ReadNothing(raw: seq<byte>, pos: nat)
    ensures ReadTypes(raw, pos, pos) == Some([])
  {
  }

  lemma GetInt8Back(i: int, d: seq<byte>)
    requires -0x80 <= i < 0x80 && d == FieldBytes(Int8(i))
    ensures Signed(d[0], 0x80) == i
  {
  }

  lemma GetInt16Back(i: int, d: seq<byte>)
    requires -0x8000 <= i < 0x8000 && d == FieldBytes(Int16(i))
    ensures Signed(Get2(d[0], d[1]), 0x8000) == i
  {
    hide Put2, Get2;
    Get2Put2(Unsigned(i, 0x8000));
  }

  lemma GetInt32Back(i: int, d: seq<byte>)
    requires -0x8000_0000 <= i < 0x8000_0000 && d == FieldBytes(Int32(i))
    ensures Signed(Get4(d[0], d[1], d[2], d[3]), 0x8000_0000) == i
  {
    hide Put4, Get4;
    Get4Put4(Unsigned(i, 0x8000_0000));
  }

  lemma GetFieldBack(f: Field, r: Record, i: nat)
    requires InRange(f) && i < |r.types| == |r.offsets| && r.types[i] == TypeCode(f)
    requires r.offsets[i] + |FieldBytes(f)| <= |r.data|
    requires r.data[r.offsets[i]..r.offsets[i] + |FieldBytes(f)|] == FieldBytes(f)
    ensures GetField(r, i) == Some(f)
  {
    hide Get2, Get4, Put2, Put4, Signed, Unsigned;
    FieldLengthIsBytes(f);
    var at, bytes := r.offsets[i], FieldBytes(f);
    forall k | 0 <= k < |bytes| ensures r.data[at + k] == bytes[k] {
      assert r.data[at..at + |bytes|][k] == bytes[k];
    }
    match f
    case NullField =>
    case Int8(v) => GetInt8Back(v, bytes);
    case Int16(v) => GetInt16Back(v, bytes);
    case Int32(v) => GetInt32Back(v, bytes);
    case Text(_) =>
  }

  lemma UnpackTypes(fs: seq<Field>, raw: seq<byte>)
    requires AllInRange(fs) && Packable(fs) && |Packed(fs)| <= |raw| && raw[..|Packed(fs)|] == Packed(fs)
    ensures Unpack(raw) == Some(Record(Types(fs), Offsets(Types(fs)), Body(fs)))
  {
    hide HeaderEntry, ReadTypes, Header, Body, TypeCode, FieldBytes, DataLength;
    var n := |Header(fs)| + 1;
    var p := Packed(fs);
    assert raw[0] == raw[..|p|][0] == n;
    SliceOfSlice(raw, 0, |p|, 1, |Header(fs)|);
    assert p[1..n] == Header(fs);
    SliceOfSlice(raw, 0, |p|, n, |Body(fs)|);
    assert p[n..n + |Body(fs)|] == Body(fs);
    assert fs[..0] == [];
    assert |Header([])| == 0 by { EmptyHeader(); }
    ReadHeader(fs, raw, 0);
    assert Types(fs)[0..] == Types(fs);
    DataLengthIsBody(fs);
  }

  lemma EmptyHeader()
    ensures Header([]) == []
  {
  }

  // Unpacking a packed record, whatever bytes follow it, gives every field back.
  lemma UnpackPacked(fs: seq<Field>, tail: seq<byte>)
    requires AllInRange(fs) && Packable(fs)
    ensures var u := Unpack(Packed(fs) + tail);
      && u.Some?
      && u.value.types == Types(fs) && |u.value.offsets| == |fs|
      && forall i :: 0 <= i < |fs| ==> GetField(u.value, i) == Some(fs[i])
  {
    hide Packed, Unpack, GetField, Body, Header, FieldBytes, TypeCode, DataLength;
    var raw := Packed(fs) + tail;
    assert raw[..|Packed(fs)|] == Packed(fs);
    UnpackTypes(fs, raw);
    var r := Unpack(raw).value;
    forall i | 0 <= i < |fs| ensures GetField(r, i) == Some(fs[i]) {
      BodyAt(fs, i);
      assert Types(fs)[..i] == Types(fs[..i]);
      DataLengthIsBody(fs[..i]);
      GetFieldBack(fs[i], r, i);
    }
  }
}
