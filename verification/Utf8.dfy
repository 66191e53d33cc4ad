/**
 * Lossy UTF-8 decoding (section 3.9 of The Unicode Standard): a maximal prefix
 * of an ill-formed sequence becomes one U+FFFD.  Both stream decoders cut the
 * byte stream first and decode the pieces afterwards; the lemmas say why that
 * is safe at ASCII bytes.
 */
module Utf8 {

  type byte = b: int | 0 <= b < 256

  const REPLACEMENT: char := '\U{FFFD}'

  /** The byte at an index; past the end, a value no sequence continues with. */
  function At(s: seq<byte>, i: nat): byte {
    if i < |s| then s[i] else 0
  }

  predicate Continues(b: byte) {
    0x80 <= b <= 0xBF
  }

  /** The second bytes a three- or four-byte lead accepts. */
  predicate ContinuesAfter(lead: byte, b: byte) {
    if lead == 0xE0 then 0xA0 <= b <= 0xBF
    else if lead == 0xED then 0x80 <= b <= 0x9F
    else if lead == 0xF0 then 0x90 <= b <= 0xBF
    else if lead == 0xF4 then 0x80 <= b <= 0x8F
    else Continues(b)
  }

  datatype Unit = Unit(c: char, width: nat)

  /** The unit that starts with these four bytes. */
  function UnitOf(a: byte, b: byte, c: byte, d: byte): (u: Unit)
    ensures 1 <= u.width <= 4
    ensures a < 0x80 ==> u == Unit(a as char, 1)
    ensures a >= 0x80 ==> u.c >= '\U{80}'
  {
    if a < 0x80 then Unit(a as char, 1)
    else if 0xC2 <= a <= 0xDF then
      if Continues(b) then Unit(((a - 0xC0) * 64 + (b - 0x80)) as char, 2)
      else Unit(REPLACEMENT, 1)
    else if 0xE0 <= a <= 0xEF then
      if !ContinuesAfter(a, b) then Unit(REPLACEMENT, 1)
      else if !Continues(c) then Unit(REPLACEMENT, 2)
      else Unit(((a - 0xE0) * 4096 + (b - 0x80) * 64 + (c - 0x80)) as char, 3)
    else if 0xF0 <= a <= 0xF4 then
      if !ContinuesAfter(a, b) then Unit(REPLACEMENT, 1)
      else if !Continues(c) then Unit(REPLACEMENT, 2)
      else if !Continues(d) then Unit(REPLACEMENT, 3)
      else Unit(((a - 0xF0) * 262144 + (b - 0x80) * 4096 + (c - 0x80) * 64 + (d - 0x80)) as char, 4)
    else Unit(REPLACEMENT, 1)
  }

  function First(s: seq<byte>): (u: Unit)
    requires s != []
    ensures 1 <= u.width <= |s|
  {
    UnitOf(s[0], At(s, 1), At(s, 2), At(s, 3))
  }

  function Decode(s: seq<byte>): string {
    if s == [] then ""
    else [First(s).c] + Decode(s[First(s).width..])
  }

  // A sequence cut short by an ASCII byte is cut short by the end of input in
  // the same way.
  lemma FirstStopsAtAscii(a: seq<byte>, c: byte, b: seq<byte>)
    requires a != [] && c < 0x80
    ensures First(a + [c] + b) == First(a)
  {
    var s := a + [c] + b;
    assert s[0] == a[0];
    assert |a| > 1 ==> At(s, 1) == At(a, 1);
    assert |a| > 2 ==> At(s, 2) == At(a, 2);
    assert |a| > 3 ==> At(s, 3) == At(a, 3);
    assert |a| <= 3 ==> At(s, |a|) == c && At(a, |a|) == 0;
  }

  /** Decoding distributes over every ASCII byte. */
  lemma {:induction false} DecodeSplitsAtAscii(a: seq<byte>, c: byte, b: seq<byte>)
    requires c < 0x80
    ensures Decode(a + [c] + b) == Decode(a) + [c as char] + Decode(b)
    decreases |a|
  {
    var s := a + [c] + b;
    if a == [] {
      assert s[0] == c && s[1..] == b;
    } else {
      FirstStopsAtAscii(a, c, b);
      var w := First(a).width;
      assert s[w..] == a[w..] + [c] + b;
      DecodeSplitsAtAscii(a[w..], c, b);
    }
  }

  /** An ASCII character is decoded from its own byte and nothing else. */
  lemma {:induction false} DecodeAddsNoAscii(s: seq<byte>, c: byte)
    requires c < 0x80
    ensures c in s <==> c as char in Decode(s)
    decreases |s|
  {
    if s != [] {
      var w := First(s).width;
      DecodeAddsNoAscii(s[w..], c);
      assert s == s[..w] + s[w..];
      WideUnitsHoldNoAscii(s, c);
    }
  }

  lemma WideUnitsHoldNoAscii(s: seq<byte>, c: byte)
    requires s != [] && c < 0x80
    ensures c in s[..First(s).width] <==> First(s).c == c as char
  {
    var w := First(s).width;
    assert s[..w][0] == s[0];
    if s[0] < 0x80 {
      assert s[..w] == [s[0]];
    } else {
      assert w > 1 ==> At(s, 1) >= 0x80;
      assert w > 2 ==> At(s, 2) >= 0x80;
      assert w > 3 ==> At(s, 3) >= 0x80;
    }
  }

  lemma EmptyDecodesEmpty(s: seq<byte>)
    ensures Decode(s) == "" <==> s == []
  {
  }

  function EncodeChar(c: char): (s: seq<byte>)
    ensures 1 <= |s| <= 4
  {
    var n := c as int;
    if n < 0x80 then [n]
    else if n < 0x800 then [0xC0 + n / 64, 0x80 + n % 64]
    else if n < 0x10000 then [0xE0 + n / 4096, 0x80 + n / 64 % 64, 0x80 + n % 64]
    else [0xF0 + n / 262144, 0x80 + n / 4096 % 64, 0x80 + n / 64 % 64, 0x80 + n % 64]
  }

  function Encode(s: string): seq<byte> {
    if s == "" then [] else EncodeChar(s[0]) + Encode(s[1..])
  }

  lemma TwoBytes(c: char, h: nat, l: nat)
    requires 2 <= h < 32 && l < 64 && c as int == h * 64 + l
    ensures UnitOf(0xC0 + h, 0x80 + l, 0, 0) == Unit(c, 2)
  {
  }

  lemma ThreeBytes(c: char, h: nat, m: nat, l: nat)
    requires h < 16 && m < 64 && l < 64 && c as int == h * 4096 + m * 64 + l >= 0x800
    ensures UnitOf(0xE0 + h, 0x80 + m, 0x80 + l, 0) == Unit(c, 3)
  {
  }

  lemma FourBytes(c: char, h: nat, g: nat, m: nat, l: nat)
    requires h < 5 && g < 64 && m < 64 && l < 64 && c as int == h * 262144 + g * 4096 + m * 64 + l >= 0x10000
    ensures UnitOf(0xF0 + h, 0x80 + g, 0x80 + m, 0x80 + l) == Unit(c, 4)
  {
  }

  lemma TwoDigits(n: nat)
    ensures n == n / 64 * 64 + n % 64
  {
  }

  lemma ThreeDigits(n: nat)
    ensures n == n / 4096 * 4096 + n / 64 % 64 * 64 + n % 64
  {
    TwoDigits(n);
    TwoDigits(n / 64);
    assert n / 64 / 64 == n / 4096;
  }

  lemma FourDigits(n: nat)
    ensures n == n / 262144 * 262144 + n / 4096 % 64 * 4096 + n / 64 % 64 * 64 + n % 64
  {
    ThreeDigits(n);
    TwoDigits(n / 4096);
    assert n / 4096 / 64 == n / 262144;
  }

  lemma EncodedUnit(c: char)
    ensures var e := EncodeChar(c); UnitOf(e[0], At(e, 1), At(e, 2), At(e, 3)) == Unit(c, |e|)
  {
    var n := c as int;
    if n < 0x80 {
    } else if n < 0x800 {
      TwoDigits(n);
      TwoBytes(c, n / 64, n % 64);
    } else if n < 0x10000 {
      ThreeDigits(n);
      ThreeBytes(c, n / 4096, n / 64 % 64, n % 64);
    } else {
      FourDigits(n);
      FourBytes(c, n / 262144, n / 4096 % 64, n / 64 % 64, n % 64);
    }
  }

  lemma FirstOfEncoded(e: seq<byte>, rest: seq<byte>)
    requires e != [] && First(e).width == |e| && First(e).c != REPLACEMENT
    ensures First(e + rest) == First(e)
  {
    var s := e + rest;
    assert s[0] == e[0];
    assert |e| > 1 ==> At(s, 1) == At(e, 1);
    assert |e| > 2 ==> At(s, 2) == At(e, 2);
    assert |e| > 3 ==> At(s, 3) == At(e, 3);
  }

  lemma FirstOfText(c: char, rest: seq<byte>)
    ensures First(EncodeChar(c) + rest) == Unit(c, |EncodeChar(c)|)
  {
    var e := EncodeChar(c);
    EncodedUnit(c);
    if c == REPLACEMENT {
      assert e == [0xEF, 0xBF, 0xBD];
      assert (e + rest)[0] == 0xEF && (e + rest)[1] == 0xBF && (e + rest)[2] == 0xBD;
    } else {
      FirstOfEncoded(e, rest);
    }
  }

  /** Well-formed text survives the lossy decoder unchanged. */
  lemma {:induction false} DecodeUndoesEncode(s: string)
    ensures Decode(Encode(s)) == s
  {
    if s != "" {
      var e, rest := EncodeChar(s[0]), Encode(s[1..]);
      FirstOfText(s[0], rest);
      assert (e + rest)[|e|..] == rest;
      DecodeUndoesEncode(s[1..]);
      assert s == [s[0]] + s[1..];
    }
  }

  /** Text ends in an ASCII character exactly when its bytes do. */
  lemma DecodeKeepsTheEnd(s: seq<byte>, c: byte)
    requires c < 0x80 && s != []
    ensures Decode(s) != ""
    ensures s[|s| - 1] == c <==> Decode(s)[|Decode(s)| - 1] == c as char
  {
    var a, b := s[..|s| - 1], s[|s| - 1];
    if b < 0x80 {
      assert s == a + [b] + [];
      DecodeSplitsAtAscii(a, b, []);
    } else {
      WideEnd(s, c);
    }
  }

  lemma {:induction false} WideEnd(s: seq<byte>, c: byte)
    requires c < 0x80 && s != [] && s[|s| - 1] >= 0x80
    ensures Decode(s) != "" && Decode(s)[|Decode(s)| - 1] != c as char
    decreases |s|
  {
    var w := First(s).width;
    var rest := s[w..];
    assert Decode(s) == [First(s).c] + Decode(rest);
    if w == |s| {
      assert rest == [] && Decode(rest) == "";
    } else {
      assert rest[|rest| - 1] == s[|s| - 1];
      WideEnd(rest, c);
    }
  }
}
