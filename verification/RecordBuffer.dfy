// Building, packing and unpacking a record in place (record.c).
module RecordBuffers {
  import opened Common
  import opened Bytes
  import opened Records
  import opened PageNodes

  // The buffer grows by this much, at most once per append.
  const STEP: nat := 1024

  class DBRecordBuffer {
    var types: array<nat>
    var offsets: array<nat>
    var data: array<byte>
    var field: nat
    var offset: nat
    var headerSize: nat
    // The fields appended so far.
    ghost var fields: seq<Field>

    // The buffer holds the type codes, offsets and data of the fields.
    ghost predicate Valid()
      reads this, types, offsets, data
    {
      && types != offsets && types.Length == offsets.Length
      && field == |fields| <= types.Length && AllInRange(fields)
      && data.Length % STEP == 0 && data.Length < 0x1_0000
      && offset == |Body(fields)| <= data.Length && data[..offset] == Body(fields)
      && headerSize == |Header(fields)| + 1 < 0x100
      && types[..field] == Types(fields)
      && (forall i :: 0 <= i < field ==> offsets[i] == OffsetOf(fields, i))
    }

    // chidb_DBRecord_create_empty
    constructor (nfields: nat)
      ensures Valid() && fields == [] && types.Length == nfields
      ensures fresh(types) && fresh(offsets) && fresh(data)
    {
      types := new nat[nfields];
      offsets := new nat[nfields];
      data := new byte[STEP];
      field, offset, headerSize, fields := 0, 0, 1, [];
    }

    // Makes room for n more bytes, if the buffer is large enough after one step.
    method Reserve(n: nat)
      requires Valid() && n <= STEP && offset + n <= 63 * STEP
      modifies this`data
      ensures Valid() && offset + n <= data.Length && (data == old(data) || fresh(data))
    {
      hide Body, Header, Types, OffsetOf;
      if offset + n > data.Length {
        var larger := new byte[data.Length + STEP];
        for i := 0 to data.Length
          invariant data == old(data) && forall k :: 0 <= k < i ==> larger[k] == data[k]
        {
          larger[i] := data[i];
        }
        assert larger[..offset] == data[..offset];
        data := larger;
      }
    }

    // What every append does once the bytes of the field are in place.
    method Advance(ghost f: Field, code: nat, size: nat, entry: nat)
      requires Valid() && field < types.Length && offset + size <= data.Length && InRange(f)
      requires code == TypeCode(f) && size == |FieldBytes(f)| && entry == |HeaderEntry(code)| && headerSize + entry < 0x100
      requires data[offset..offset + size] == FieldBytes(f)
      modifies this`field, this`offset, this`headerSize, this`fields, types, offsets
      ensures Valid() && fields == old(fields) + [f]
    {
      hide Body, Header, Types, TypeCode, FieldBytes, HeaderEntry, OffsetOf, InRange;
      ghost var was := fields;
      NullCode(f);
      assert data[..offset + size] == data[..offset] + data[offset..offset + size];
      offsets[field] := if code == SQL_NULL then 0 else offset;
      types[field] := code;
      offset := offset + size;
      headerSize := headerSize + entry;
      field := field + 1;
      fields := fields + [f];
      FieldsAppend(was, f);
    }

    method AppendInt8(v: int)
      requires Valid() && field < types.Length && InRange(Int8(v)) && Appendable(fields, Int8(v))
      modifies this, types, offsets, data
      ensures Valid() && fields == old(fields) + [Int8(v)] && Kept(old(types), old(offsets), old(data))
    {
      hide Body, Header, Types, TypeCode, FieldBytes, HeaderEntry, OffsetOf, Appendable;
      AppendBounds(fields, Int8(v));
      FieldShape(Int8(v));
      Reserve(1);
      data[offset] := Unsigned(v, 0x80);
      Advance(Int8(v), SQL_INTEGER_1BYTE, 1, 1);
    }

    method AppendInt16(v: int)
      requires Valid() && field < types.Length && InRange(Int16(v)) && Appendable(fields, Int16(v))
      modifies this, types, offsets, data
      ensures Valid() && fields == old(fields) + [Int16(v)] && Kept(old(types), old(offsets), old(data))
    {
      hide Body, Header, Types, TypeCode, FieldBytes, HeaderEntry, OffsetOf, Put2, Put4, Unsigned, Appendable;
      AppendBounds(fields, Int16(v));
      FieldShape(Int16(v));
      Reserve(2);
      var bytes := Put2(Unsigned(v, 0x8000));
      data[offset], data[offset + 1] := bytes[0], bytes[1];
      assert data[offset..offset + 2] == bytes;
      Advance(Int16(v), SQL_INTEGER_2BYTE, 2, 1);
    }

    method AppendInt32(v: int)
      requires Valid() && field < types.Length && InRange(Int32(v)) && Appendable(fields, Int32(v))
      modifies this, types, offsets, data
      ensures Valid() && fields == old(fields) + [Int32(v)] && Kept(old(types), old(offsets), old(data))
    {
      hide Body, Header, Types, TypeCode, FieldBytes, HeaderEntry, OffsetOf, Put2, Put4, Unsigned, Appendable;
      AppendBounds(fields, Int32(v));
      FieldShape(Int32(v));
      Reserve(4);
      var bytes := Put4(Unsigned(v, 0x8000_0000));
      data[offset], data[offset + 1], data[offset + 2], data[offset + 3] := bytes[0], bytes[1], bytes[2], bytes[3];
      assert data[offset..offset + 4] == bytes;
      Advance(Int32(v), SQL_INTEGER_4BYTE, 4, 1);
    }

    method AppendNull()
      requires Valid() && field < types.Length && Appendable(fields, NullField)
      modifies this, types, offsets
      ensures Valid() && fields == old(fields) + [NullField] && Kept(old(types), old(offsets), old(data))
    {
      hide Body, Header, Types, TypeCode, FieldBytes, HeaderEntry, OffsetOf, Put2, Put4, Unsigned, Appendable;
      AppendBounds(fields, NullField);
      FieldShape(NullField);
      Advance(NullField, SQL_NULL, 0, 1);
    }

    method AppendString(s: seq<byte>)
      requires Valid() && field < types.Length && |s| <= STEP && Appendable(fields, Text(s))
      modifies this, types, offsets, data
      ensures Valid() && fields == old(fields) + [Text(s)] && Kept(old(types), old(offsets), old(data))
    {
      hide Body, Header, Types, TypeCode, FieldBytes, HeaderEntry, OffsetOf, Put2, Put4, Unsigned, Appendable;
      AppendBounds(fields, Text(s));
      FieldShape(Text(s));
      Reserve(|s|);
      CopyInto(data, offset, s);
      Advance(Text(s), |s| * 2 + SQL_TEXT, |s|, 4);
    }

    // The arrays stay or are new.
    twostate predicate Kept(t: array<nat>, o: array<nat>, d: array<byte>)
      reads this
    {
      types == t && offsets == o && (data == d || fresh(data))
    }

    // chidb_DBRecord_finalize: the record and its packed length.
    method Finalize() returns (r: Record, packedLen: nat)
      requires Valid()
      ensures r.types == Types(fields) && r.data == Body(fields) && |r.offsets| == |fields|
      ensures packedLen == |Header(fields)| + 1 + |Body(fields)|
      ensures forall i :: 0 <= i < |fields| ==> GetField(r, i) == Some(fields[i])
    {
      hide GetField;
      r := Record(types[..field], offsets[..field], data[..offset]);
      packedLen := headerSize + offset;
      forall i | 0 <= i < |fields| ensures GetField(r, i) == Some(fields[i]) {
        BuiltField(fields, r, i);
      }
    }
  }

  // Room for one more field: the limits of the header and of the buffer.
  ghost predicate Appendable(fs: seq<Field>, f: Field) {
    AllInRange(fs + [f]) && Packable(fs + [f]) && |Body(fs + [f])| <= 63 * STEP
  }

  // NULL fields get offset 0 when they are appended; it is never used.
  function OffsetOf(fs: seq<Field>, i: nat): nat
    requires i < |fs| && AllInRange(fs)
  {
    if fs[i].NullField? then 0 else |Body(fs[..i])|
  }

  // What a field takes in the header and in the data.
  lemma FieldShape(f: Field)
    requires InRange(f)
    ensures match f
      case NullField => TypeCode(f) == SQL_NULL && FieldBytes(f) == []
      case Int8(i) => TypeCode(f) == SQL_INTEGER_1BYTE && FieldBytes(f) == [Unsigned(i, 0x80)]
      case Int16(i) => TypeCode(f) == SQL_INTEGER_2BYTE && FieldBytes(f) == Put2(Unsigned(i, 0x8000))
      case Int32(i) => TypeCode(f) == SQL_INTEGER_4BYTE && FieldBytes(f) == Put4(Unsigned(i, 0x8000_0000))
      case Text(s) => TypeCode(f) == |s| * 2 + SQL_TEXT && FieldBytes(f) == s
    ensures |HeaderEntry(TypeCode(f))| == if f.Text? then 4 else 1
  {
    hide Put2, Put4;
  }

  lemma AppendBounds(fs: seq<Field>, f: Field)
    requires AllInRange(fs) && Appendable(fs, f)
    ensures InRange(f) && |Header(fs)| + 1 + |HeaderEntry(TypeCode(f))| < 0x100
    ensures |Body(fs)| + |FieldBytes(f)| <= 63 * STEP
  {
    hide HeaderEntry, FieldBytes, TypeCode;
    assert (fs + [f])[|fs|] == f;
    FieldsAppend(fs, f);
  }

  lemma NullCode(f: Field)
    ensures TypeCode(f) == SQL_NULL <==> f.NullField?
  {
  }

  lemma FieldsAppend(fs: seq<Field>, f: Field)
    requires AllInRange(fs) && InRange(f)
    ensures AllInRange(fs + [f]) && Body(fs + [f]) == Body(fs) + FieldBytes(f)
    ensures Header(fs + [f]) == Header(fs) + HeaderEntry(TypeCode(f)) && Types(fs + [f]) == Types(fs) + [TypeCode(f)]
    ensures forall i :: 0 <= i < |fs| ==> OffsetOf(fs + [f], i) == OffsetOf(fs, i)
    ensures OffsetOf(fs + [f], |fs|) == if f.NullField? then 0 else |Body(fs)|
  {
    assert (fs + [f])[..|fs|] == fs;
    forall i | 0 <= i < |fs| ensures (fs + [f])[..i] == fs[..i] {
    }
  }

  lemma BuiltField(fs: seq<Field>, r: Record, i: nat)
    requires AllInRange(fs) && r.types == Types(fs) && r.data == Body(fs) && |r.offsets| == |fs| && i < |fs|
    requires r.offsets[i] == OffsetOf(fs, i)
    ensures GetField(r, i) == Some(fs[i])
  {
    hide Body, FieldBytes;
    BodyAt(fs, i);
    if fs[i].NullField? {
      NoBytes();
    } else {
      GetFieldBack(fs[i], r, i);
    }
  }

  lemma NoBytes()
    ensures FieldBytes(NullField) == []
  {
  }

  // ---- packing ------------------------------------------------------------------------------------

  // chidb_DBRecord_pack
  method Pack(r: Record, packedLen: nat, ghost fs: seq<Field>) returns (p: array<byte>)
    requires AllInRange(fs) && Packable(fs) && r.types == Types(fs) && r.data == Body(fs)
    requires packedLen == |Header(fs)| + 1 + |Body(fs)|
    ensures fresh(p) && p[..] == Packed(fs)
  {
    hide Header, Body, TypeCode, HeaderEntry;
    p := new byte[packedLen];
    p[0] := packedLen - |r.data|;
    var pos := 1;
    NoHeader(fs);
    for i := 0 to |r.types|
      invariant pos == 1 + |Header(fs[..i])| <= |Header(fs)| + 1 && p[1..pos] == Header(fs[..i])
      invariant p[0] == |Header(fs)| + 1
    {
      HeaderFrom(fs, i);
      HeaderNext(fs, i);
      ghost var front := p[1..pos];
      var n := WriteEntry(p, pos, r.types[i], fs[i]);
      assert p[1..pos + n] == front + p[pos..pos + n];
      pos := pos + n;
    }
    assert fs[..|fs|] == fs;
    FinishPack(p, pos, r.data, fs);
  }

  // The data goes behind the header.
  method FinishPack(p: array<byte>, pos: nat, data: seq<byte>, ghost fs: seq<Field>)
    requires AllInRange(fs) && Packable(fs) && data == Body(fs) && pos == 1 + |Header(fs)|
    requires p.Length == pos + |data| && p[0] == pos && p[1..pos] == Header(fs)
    modifies p
    ensures p[..] == Packed(fs)
  {
    hide Header, Body;
    ghost var header := p[1..pos];
    CopyInto(p, p[0], data);
    assert p[1..pos] == header;
    assert p[..] == [p[0]] + p[1..pos] + p[pos..pos + |data|];
  }

  method WriteEntry(p: array<byte>, pos: nat, code: nat, ghost f: Field) returns (n: nat)
    requires InRange(f) && code == TypeCode(f) && 0 < pos && pos + |HeaderEntry(code)| <= p.Length
    modifies p
    ensures n == |HeaderEntry(code)| && p[pos..pos + n] == HeaderEntry(code)
    ensures forall k :: 0 <= k < p.Length && !(pos <= k < pos + n) ==> p[k] == old(p[k])
  {
    hide TypeCode, HeaderEntry, PutVarint, GetType;
    EntryShape(f);
    if GetType(code) == SQL_TEXT {
      PutText(p, pos, code);
      n := 4;
    } else {
      p[pos] := code;
      n := 1;
    }
  }

  // The four bytes of a text code.
  method PutText(p: array<byte>, pos: nat, code: nat)
    requires pos + 4 <= p.Length && code < 0x1000_0000
    modifies p
    ensures p[pos..pos + 4] == PutVarint(code)
    ensures forall k :: 0 <= k < p.Length && !(pos <= k < pos + 4) ==> p[k] == old(p[k])
  {
    hide PutVarint;
    CopyInto(p, pos, PutVarint(code));
  }

  lemma NoHeader(fs: seq<Field>)
    ensures Header(fs[..0]) == []
  {
  }

  lemma HeaderNext(fs: seq<Field>, i: nat)
    requires i < |fs|
    ensures Header(fs[..i + 1]) == Header(fs[..i]) + HeaderEntry(TypeCode(fs[i]))
  {
    assert fs[..i + 1][..i] == fs[..i];
  }

  lemma EntryShape(f: Field)
    requires InRange(f)
    ensures if GetType(TypeCode(f)) == SQL_TEXT
            then HeaderEntry(TypeCode(f)) == PutVarint(TypeCode(f)) && TypeCode(f) < 0x1000_0000
            else TypeCode(f) < 0x80 && HeaderEntry(TypeCode(f)) == [TypeCode(f)]
  {
  }

  // ---- unpacking -----------------------------------------------------------------------------------

  // chidb_DBRecord_unpack; None stands for reading past the end of the bytes
  // and for a header position that wraps around.
  method UnpackRecord(raw: seq<byte>) returns (r: Option<Record>)
    ensures r == Unpack(raw)
  {
    hide GetVarint, FieldLength;
    if raw == [] {
      return None;
    }
    var size := raw[0] as nat;
    var types := ReadHeaderTypes(raw, size);
    if types.None? {
      return None;
    }
    var offsets, length := ComputeOffsets(types.value);
    if |raw| < size + length {
      return None;
    }
    r := Some(Record(types.value, offsets, raw[size..size + length]));
  }

  // The header loop.
  method ReadHeaderTypes(raw: seq<byte>, size: nat) returns (types: Option<seq<nat>>)
    ensures types == ReadTypes(raw, 1, size)
  {
    hide GetVarint;
    var pos: nat, list: seq<nat> := 1, [];
    assert forall s: seq<nat> :: list + s == s;
    while pos < size
      invariant ReadTypes(raw, 1, size)
             == match ReadTypes(raw, pos, size) case None => None case Some(rest) => Some(list + rest)
    {
      if |raw| <= pos || (0x80 <= raw[pos] && (|raw| < pos + 4 || 0x100 <= pos + 4)) {
        return None;
      }
      if 0x80 <= raw[pos] {
        var code := GetVarint(raw[pos], raw[pos + 1], raw[pos + 2], raw[pos + 3]);
        ReadMore(list, code, ReadTypes(raw, pos + 4, size));
        list, pos := list + [code], pos + 4;
      } else {
        ReadMore(list, raw[pos], ReadTypes(raw, pos + 1, size));
        list, pos := list + [raw[pos] as nat], pos + 1;
      }
    }
    assert list + [] == list;
    types := Some(list);
  }

  lemma ReadMore(list: seq<nat>, code: nat, rest: Option<seq<nat>>)
    ensures rest.Some? ==> list + ([code] + rest.value) == list + [code] + rest.value
  {
  }

  // The offset loop.
  method ComputeOffsets(types: seq<nat>) returns (offsets: seq<nat>, length: nat)
    ensures offsets == Offsets(types) && length == DataLength(types)
  {
    hide FieldLength;
    offsets, length := [], 0;
    for i := 0 to |types|
      invariant length == DataLength(types[..i]) && |offsets| == i
      invariant forall k :: 0 <= k < i ==> offsets[k] == DataLength(types[..k])
    {
      assert types[..i + 1][..i] == types[..i];
      offsets := offsets + [length];
      length := length + FieldLength(types[i]);
    }
    assert types[..|types|] == types;
  }

  // ---- getters -------------------------------------------------------------------------------------

  // Field i is there, with all its bytes.
  predicate HasField(r: Record, i: nat) {
    i < |r.types| == |r.offsets| && GetField(r, i).Some?
  }

  // chidb_DBRecord_getInt8
  method GetInt8(r: Record, i: nat) returns (v: int)
    requires HasField(r, i) && GetType(r.types[i]) == SQL_INTEGER_1BYTE
    ensures GetField(r, i) == Some(Int8(v))
  {
    v := Signed(r.data[r.offsets[i]] as nat, 0x80);
  }

  // chidb_DBRecord_getInt16
  method GetInt16(r: Record, i: nat) returns (v: int)
    requires HasField(r, i) && GetType(r.types[i]) == SQL_INTEGER_2BYTE
    ensures GetField(r, i) == Some(Int16(v))
  {
    var at := r.offsets[i];
    v := Signed(Get2(r.data[at], r.data[at + 1]), 0x8000);
  }

  // chidb_DBRecord_getInt32
  method GetInt32(r: Record, i: nat) returns (v: int)
    requires HasField(r, i) && GetType(r.types[i]) == SQL_INTEGER_4BYTE
    ensures GetField(r, i) == Some(Int32(v))
  {
    var at := r.offsets[i];
    v := Signed(Get4(r.data[at], r.data[at + 1], r.data[at + 2], r.data[at + 3]), 0x8000_0000);
  }

  // chidb_DBRecord_getString
  method GetString(r: Record, i: nat) returns (s: seq<byte>)
    requires HasField(r, i) && GetType(r.types[i]) == SQL_TEXT
    ensures GetField(r, i) == Some(Text(s))
  {
    var at, len := r.offsets[i], TextLength(r.types[i]);
    s := r.data[at..at + len];
  }
}
