// Big-endian integers and the fixed-length varints of util.c.
module Bytes {
  import opened Common

  function Put2(v: nat): (s: seq<byte>)
    ensures |s| == 2
  {
    [v / 0x100 % 0x100, v % 0x100]
  }

  function Get2(a: byte, b: byte): (v: nat)
    ensures v < 0x1_0000
  {
    a * 0x100 + b
  }

  function Put4(v: nat): (s: seq<byte>)
    ensures |s| == 4
  {
    [v / 0x100 / 0x100 / 0x100 % 0x100, v / 0x100 / 0x100 % 0x100, v / 0x100 % 0x100, v % 0x100]
  }

  function Get4(a: byte, b: byte, c: byte, d: byte): (v: nat)
    ensures v < 0x1_0000_0000
  {
    a * 0x100_0000 + b * 0x1_0000 + c * 0x100 + d
  }

  // Seven bits a byte, most significant first; the upper three bytes carry the flag 0x80.
  function PutVarint(v: nat): (s: seq<byte>)
    ensures |s| == 4 && 0x80 <= s[0]
  {
    [0x80 + v / 0x80 / 0x80 / 0x80 % 0x80, 0x80 + v / 0x80 / 0x80 % 0x80, 0x80 + v / 0x80 % 0x80, v % 0x80]
  }

  function GetVarint(a: byte, b: byte, c: byte, d: byte): (v: nat)
    ensures v < 0x1000_0000
  {
    a % 0x80 * 0x20_0000 + b % 0x80 * 0x4000 + c % 0x80 * 0x80 + d % 0x80
  }

  // Base-256 digits, most significant digit v first.
  lemma Octets(v: nat, a: nat, b: nat, c: nat, d: nat)
    requires a < 0x100 && b < 0x100 && c < 0x100 && d < 0x100
    ensures (v * 0x1_0000_0000 + a * 0x100_0000 + b * 0x1_0000 + c * 0x100 + d) % 0x1_0000_0000
         == a * 0x100_0000 + b * 0x1_0000 + c * 0x100 + d
  {
  }

  lemma Get2Put2(v: nat)
    ensures Get2(Put2(v)[0], Put2(v)[1]) == v % 0x1_0000
  {
    var a := v / 0x100;
    var b := a / 0x100;
    assert v == b * 0x1_0000 + a % 0x100 * 0x100 + v % 0x100;
  }

  lemma Get4Put4(v: nat)
    ensures var s := Put4(v); Get4(s[0], s[1], s[2], s[3]) == v % 0x1_0000_0000
  {
    var a := v / 0x100;
    var b := a / 0x100;
    var c := b / 0x100;
    Octets(c / 0x100, c % 0x100, b % 0x100, a % 0x100, v % 0x100);
  }

  lemma FlagDropped(d: nat)
    requires d < 0x80
    ensures (0x80 + d) % 0x80 == d
  {
  }

  lemma Septets(v: nat, a: nat, b: nat, c: nat, d: nat)
    requires a < 0x80 && b < 0x80 && c < 0x80 && d < 0x80
    ensures (v * 0x1000_0000 + a * 0x20_0000 + b * 0x4000 + c * 0x80 + d) % 0x1000_0000
         == a * 0x20_0000 + b * 0x4000 + c * 0x80 + d
  {
  }

  // A varint keeps the low 28 bits, so it gives back exactly the values below 2^28.
  lemma GetVarintPutVarint(v: nat)
    ensures var s := PutVarint(v); GetVarint(s[0], s[1], s[2], s[3]) == v % 0x1000_0000
    ensures var s := PutVarint(v); GetVarint(s[0], s[1], s[2], s[3]) == v <==> v < 0x1000_0000
  {
    var a := v / 0x80;
    var b := a / 0x80;
    var c := b / 0x80;
    FlagDropped(a % 0x80);
    FlagDropped(b % 0x80);
    FlagDropped(c % 0x80);
    Septets(c / 0x80, c % 0x80, b % 0x80, a % 0x80, v % 0x80);
  }

  // ---- most significant byte first -----------------------------------------------------------------

  // Digits compare like the numbers they stand for.
  predicate DigitsBefore(s: seq<nat>, t: seq<nat>) {
    if s == [] || t == [] then false
    else s[0] < t[0] || (s[0] == t[0] && DigitsBefore(s[1..], t[1..]))
  }

  lemma OneDigit(a: nat, b: nat)
    ensures DigitsBefore([a], [b]) <==> a < b
  {
    assert [a][1..] == [];
  }

  lemma BigEndian2(a: byte, b: byte, a': byte, b': byte)
    ensures Get2(a, b) < Get2(a', b') <==> DigitsBefore([a, b], [a', b'])
  {
    var s: seq<nat>, t: seq<nat> := [a, b], [a', b'];
    assert s[1..] == [b as nat] && t[1..] == [b' as nat];
    OneDigit(b, b');
  }

  lemma BigEndian4(a: byte, b: byte, c: byte, d: byte, a': byte, b': byte, c': byte, d': byte)
    ensures Get4(a, b, c, d) < Get4(a', b', c', d') <==> DigitsBefore([a, b, c, d], [a', b', c', d'])
  {
    DigitsOf4(a, b, c, d, a', b', c', d');
  }

  // Of each byte of a varint seven bits count.
  lemma BigEndianVarint(a: byte, b: byte, c: byte, d: byte, a': byte, b': byte, c': byte, d': byte)
    ensures GetVarint(a, b, c, d) < GetVarint(a', b', c', d') <==>
      DigitsBefore([a % 0x80, b % 0x80, c % 0x80, d % 0x80], [a' % 0x80, b' % 0x80, c' % 0x80, d' % 0x80])
  {
    DigitsOf4(a % 0x80, b % 0x80, c % 0x80, d % 0x80, a' % 0x80, b' % 0x80, c' % 0x80, d' % 0x80);
  }

  lemma DigitsOf4(a: nat, b: nat, c: nat, d: nat, a': nat, b': nat, c': nat, d': nat)
    ensures DigitsBefore([a, b, c, d], [a', b', c', d']) <==>
      || a < a' || (a == a' && b < b') || (a == a' && b == b' && c < c') || (a == a' && b == b' && c == c' && d < d')
  {
    var s, t := [a, b, c, d], [a', b', c', d'];
    assert s[1..] == [b, c, d] && t[1..] == [b', c', d'];
    assert [b, c, d][1..] == [c, d] && [b', c', d'][1..] == [c', d'];
    assert [c, d][1..] == [d] && [c', d'][1..] == [d'];
    OneDigit(d, d');
    assert DigitsBefore([c, d], [c', d']) <==> c < c' || (c == c' && d < d');
  }
}
