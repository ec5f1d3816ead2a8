/**
 * UTF-8 as defined by section 3 of RFC 3629: the encoding `Buffer.from(text, 'utf8')` applies
 * to a string and `Buffer.toString('utf8')` reverses. Strings are sequences of Unicode scalar
 * values (Dafny's `char`). The decoder is strict: it rejects overlong forms, surrogates, values
 * above U+10FFFF and truncated sequences.
 */
module Utf8 {
  import opened Wrappers
  import opened Bytes

  predicate IsContinuation(b: Byte) { 0x80 <= b < 0xC0 }

  function EncodeOne(cp: nat): (b: seq<Byte>)
    requires cp < 0x80
  { [cp] }

  function EncodeTwo(cp: nat): (b: seq<Byte>)
    requires 0x80 <= cp < 0x800
  { [0xC0 + cp / 64, 0x80 + cp % 64] }

  function EncodeThree(cp: nat): (b: seq<Byte>)
    requires 0x800 <= cp < 0x10000
  { [0xE0 + cp / 4096, 0x80 + cp / 64 % 64, 0x80 + cp % 64] }

  function EncodeFour(cp: nat): (b: seq<Byte>)
    requires 0x10000 <= cp < 0x110000
  { [0xF0 + cp / 0x40000, 0x80 + cp / 4096 % 64, 0x80 + cp / 64 % 64, 0x80 + cp % 64] }

  /** The one to four bytes of one scalar value (the table in section 3 of RFC 3629). */
  function EncodeChar(c: char): (b: seq<Byte>)
    ensures 1 <= |b| <= 4
  {
    var cp := c as int;
    if cp < 0x80 then EncodeOne(cp)
    else if cp < 0x800 then EncodeTwo(cp)
    else if cp < 0x10000 then EncodeThree(cp)
    else EncodeFour(cp)
  }

  function Encode(s: string): (b: seq<Byte>)
  {
    if s == [] then [] else EncodeChar(s[0]) + Encode(s[1..])
  }

  /** The scalar value that starts `b`, and how many bytes it takes. */
  function DecodeFirst(b: seq<Byte>): (r: Option<(char, nat)>)
    requires |b| > 0
    ensures r.Some? ==> 1 <= r.value.1 <= 4 && r.value.1 <= |b|
  {
    var b0 := b[0] as int;
    if b0 < 0x80 then Some((b0 as char, 1))
    else if 0xC2 <= b0 < 0xE0 then
      if |b| < 2 || !IsContinuation(b[1]) then None
      else Some((((b0 - 0xC0) * 64 + (b[1] as int - 0x80)) as char, 2))
    else if 0xE0 <= b0 < 0xF0 then
      if |b| < 3 || !IsContinuation(b[1]) || !IsContinuation(b[2]) then None
      else
        var cp := (b0 - 0xE0) * 4096 + (b[1] as int - 0x80) * 64 + (b[2] as int - 0x80);
        if cp < 0x800 || 0xD800 <= cp < 0xE000 then None else Some((cp as char, 3))
    else if 0xF0 <= b0 < 0xF5 then
      if |b| < 4 || !IsContinuation(b[1]) || !IsContinuation(b[2]) || !IsContinuation(b[3]) then None
      else
        var cp := (b0 - 0xF0) * 0x40000 + (b[1] as int - 0x80) * 4096 + (b[2] as int - 0x80) * 64 + (b[3] as int - 0x80);
        if cp < 0x10000 || cp >= 0x110000 then None else Some((cp as char, 4))
    else None
  }

  function Decode(b: seq<Byte>): (r: Option<string>)
    decreases |b|
  {
    if b == [] then Some([])
    else match DecodeFirst(b)
      case None => None
      case Some((c, n)) =>
        match Decode(b[n..])
        case None => None
        case Some(rest) => Some([c] + rest)
  }

  lemma DecodeOne(cp: nat, rest: seq<Byte>)
    requires cp < 0x80
    ensures DecodeFirst(EncodeOne(cp) + rest) == Some((cp as char, 1))
  {
  }

  lemma DecodeTwo(cp: nat, rest: seq<Byte>)
    requires 0x80 <= cp < 0x800
    ensures DecodeFirst(EncodeTwo(cp) + rest) == Some((cp as char, 2))
  {
    var b := EncodeTwo(cp) + rest;
    assert b[0] == 0xC0 + cp / 64 && b[1] == 0x80 + cp % 64;
    assert (b[0] as int - 0xC0) * 64 + (b[1] as int - 0x80) == cp;
  }

  lemma DecodeThree(cp: nat, rest: seq<Byte>)
    requires 0x800 <= cp < 0x10000 && !(0xD800 <= cp < 0xE000)
    ensures DecodeFirst(EncodeThree(cp) + rest) == Some((cp as char, 3))
  {
    var b := EncodeThree(cp) + rest;
    assert b[0] == 0xE0 + cp / 4096 && b[1] == 0x80 + cp / 64 % 64 && b[2] == 0x80 + cp % 64;
    assert (b[0] as int - 0xE0) * 4096 + (b[1] as int - 0x80) * 64 + (b[2] as int - 0x80) == cp;
  }

  lemma DecodeFour(cp: nat, rest: seq<Byte>)
    requires 0x10000 <= cp < 0x110000
    ensures DecodeFirst(EncodeFour(cp) + rest) == Some((cp as char, 4))
  {
    var b := EncodeFour(cp) + rest;
    var d0, d1, d2, d3 := cp / 0x40000, cp / 4096 % 64, cp / 64 % 64, cp % 64;
    FourDigits(cp);
    assert b[0] as int - 0xF0 == d0 && b[1] as int - 0x80 == d1;
    assert b[2] as int - 0x80 == d2 && b[3] as int - 0x80 == d3;
  }

  /** A scalar value is the sum of its four base-64 digits (the top one below 5 for values up to U+10FFFF). */
  lemma FourDigits(cp: nat)
    ensures cp == cp / 0x40000 * 0x40000 + cp / 4096 % 64 * 4096 + cp / 64 % 64 * 64 + cp % 64
  {
    var q1, q2 := cp / 64, cp / 4096;
    DivTwice(cp);
    assert q1 / 64 == q2 && q2 / 64 == cp / 0x40000;
    assert cp == q1 * 64 + cp % 64;
    assert q1 == q2 * 64 + q1 % 64;
    assert q2 == cp / 0x40000 * 64 + q2 % 64;
  }

  /** Decoding reads back exactly the bytes of the first encoded scalar value, whatever follows. */
  lemma DecodeFirstEncoded(c: char, rest: seq<Byte>)
    ensures DecodeFirst(EncodeChar(c) + rest) == Some((c, |EncodeChar(c)|))
  {
    var cp := c as int;
    if cp < 0x80 {
      DecodeOne(cp, rest);
    } else if cp < 0x800 {
      DecodeTwo(cp, rest);
    } else if cp < 0x10000 {
      DecodeThree(cp, rest);
    } else {
      DecodeFour(cp, rest);
    }
  }

  /** Decoding the UTF-8 bytes of a string gives the string back. */
  lemma {:induction false} DecodeEncode(s: string)
    ensures Decode(Encode(s)) == Some(s)
  {
    if s != [] {
      var head := EncodeChar(s[0]);
      var b := Encode(s);
      assert b == head + Encode(s[1..]);
      DecodeFirstEncoded(s[0], Encode(s[1..]));
      assert b[|head|..] == Encode(s[1..]);
      DecodeEncode(s[1..]);
      assert s == [s[0]] + s[1..];
    }
  }

  lemma ReencodeTwo(b0: Byte, b1: Byte)
    requires 0xC2 <= b0 < 0xE0 && IsContinuation(b1)
    ensures EncodeTwo((b0 - 0xC0) * 64 + (b1 - 0x80)) == [b0, b1]
  {
  }

  lemma ReencodeThree(b0: Byte, b1: Byte, b2: Byte, cp: nat)
    requires 0xE0 <= b0 < 0xF0 && IsContinuation(b1) && IsContinuation(b2)
    requires cp == (b0 - 0xE0) * 4096 + (b1 - 0x80) * 64 + (b2 - 0x80) && 0x800 <= cp
    ensures EncodeThree(cp) == [b0, b1, b2]
  {
  }

  lemma ReencodeFour(b0: Byte, b1: Byte, b2: Byte, b3: Byte, cp: nat)
    requires 0xF0 <= b0 < 0xF5 && IsContinuation(b1) && IsContinuation(b2) && IsContinuation(b3)
    requires cp == (b0 - 0xF0) * 0x40000 + (b1 - 0x80) * 4096 + (b2 - 0x80) * 64 + (b3 - 0x80)
    requires 0x10000 <= cp < 0x110000
    ensures EncodeFour(cp) == [b0, b1, b2, b3]
  {
    var hi := (b0 - 0xF0) * 4096 + (b1 - 0x80) * 64 + (b2 - 0x80);
    var mid := (b0 - 0xF0) * 64 + (b1 - 0x80);
    DivMod64(hi, b3 - 0x80);
    DivMod64(mid, b2 - 0x80);
    DivMod64(b0 - 0xF0, b1 - 0x80);
    assert cp / 64 == hi && cp % 64 == b3 - 0x80;
    assert hi / 64 == mid && hi % 64 == b2 - 0x80;
    assert mid / 64 == b0 - 0xF0 && mid % 64 == b1 - 0x80;
    assert cp / 4096 == mid by { DivTwice(cp); }
    assert cp / 0x40000 == b0 - 0xF0 by { DivTwice(cp / 64); DivTwice(cp); }
  }

  lemma DivMod64(q: nat, r: nat)
    requires r < 64
    ensures (q * 64 + r) / 64 == q && (q * 64 + r) % 64 == r
  {
  }

  lemma DivTwice(n: nat)
    ensures n / 64 / 64 == n / 4096 && n / 4096 / 64 == n / 0x40000
  {
  }

  /** The scalar value the strict decoder reads is encoded by exactly the bytes it read. */
  lemma EncodeFirstDecoded(b: seq<Byte>)
    requires |b| > 0 && DecodeFirst(b).Some?
    ensures EncodeChar(DecodeFirst(b).value.0) == b[..DecodeFirst(b).value.1]
  {
    var b0 := b[0];
    if b0 < 0x80 {
      assert b[..1] == [b[0]];
    } else if b0 < 0xE0 {
      ReencodeTwo(b0, b[1]);
      assert b[..2] == [b[0], b[1]];
    } else if b0 < 0xF0 {
      ReencodeThree(b0, b[1], b[2], (b0 - 0xE0) * 4096 + (b[1] as int - 0x80) * 64 + (b[2] as int - 0x80));
      assert b[..3] == [b[0], b[1], b[2]];
    } else {
      ReencodeFour(b0, b[1], b[2], b[3], (b0 - 0xF0) * 0x40000 + (b[1] as int - 0x80) * 4096 + (b[2] as int - 0x80) * 64 + (b[3] as int - 0x80));
      assert b[..4] == [b[0], b[1], b[2], b[3]];
    }
  }

  /** One step of the decoder: the first scalar value, then the decoding of what follows it. */
  lemma DecodeStep(b: seq<Byte>)
    requires b != [] && Decode(b).Some?
    ensures DecodeFirst(b).Some? && Decode(b[DecodeFirst(b).value.1..]).Some?
    ensures Decode(b).value == [DecodeFirst(b).value.0] + Decode(b[DecodeFirst(b).value.1..]).value
  {
  }

  lemma EncodeCons(c: char, s: string)
    ensures Encode([c] + s) == EncodeChar(c) + Encode(s)
  {
    assert ([c] + s)[1..] == s;
  }

  /** Whatever the strict decoder accepts is exactly the encoding of what it returns, so two byte sequences never decode to the same string. */
  lemma {:induction false} EncodeDecode(b: seq<Byte>)
    requires Decode(b).Some?
    ensures Encode(Decode(b).value) == b
    decreases |b|
  {
    if b != [] {
      DecodeStep(b);
      var first := DecodeFirst(b).value;
      EncodeFirstDecoded(b);
      EncodeDecode(b[first.1..]);
      EncodedCons(b, first.0, first.1, Decode(b[first.1..]).value);
    }
  }

  lemma EncodedCons(b: seq<Byte>, c: char, n: nat, rest: string)
    requires n <= |b| && EncodeChar(c) == b[..n] && Encode(rest) == b[n..]
    ensures Encode([c] + rest) == b
  {
    EncodeCons(c, rest);
    assert b[..n] + b[n..] == b;
  }

  /** ASCII text is encoded one byte per character, each byte being the character's value. */
  lemma {:induction false} EncodeAscii(s: string)
    requires forall i :: 0 <= i < |s| ==> s[i] < 0x80 as char
    ensures |Encode(s)| == |s| && forall i :: 0 <= i < |s| ==> Encode(s)[i] == s[i] as int
    decreases |s|
  {
    if s != [] {
      EncodeAscii(s[1..]);
      assert Encode(s) == [s[0] as int] + Encode(s[1..]);
    }
  }

  /** Only the empty byte sequence decodes to the empty string. */
  lemma DecodeNonEmpty(b: seq<Byte>)
    requires b != [] && Decode(b).Some?
    ensures Decode(b).value != []
  {
  }
}
