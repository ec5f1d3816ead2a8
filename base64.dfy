/**
 * The Base64 encoding of section 4 of RFC 4648 (alphabet A-Z a-z 0-9 + /, padding '='),
 * which `Buffer.toString('base64')` produces and `Buffer.from(s, 'base64')` reads back.
 * The decoder here is strict: it accepts exactly the strings the encoder produces.
 */
module Base64 {
  import opened Wrappers
  import opened Bytes

  /** The value of one Base64 digit. */
  type Sextet = v: int | 0 <= v < 64

  const Pad: char := '='

  /** The alphabet of Table 1 in RFC 4648. */
  function DigitChar(v: Sextet): (c: char)
  {
    if v < 26 then ('A' as int + v) as char
    else if v < 52 then ('a' as int + (v - 26)) as char
    else if v < 62 then ('0' as int + (v - 52)) as char
    else if v == 62 then '+'
    else '/'
  }

  function DigitValue(c: char): (r: Option<Sextet>)
  {
    if 'A' <= c <= 'Z' then Some(c as int - 'A' as int)
    else if 'a' <= c <= 'z' then Some(c as int - 'a' as int + 26)
    else if '0' <= c <= '9' then Some(c as int - '0' as int + 52)
    else if c == '+' then Some(62)
    else if c == '/' then Some(63)
    else None
  }

  lemma DigitRoundTrip(v: Sextet)
    ensures DigitValue(DigitChar(v)) == Some(v)
  {
  }

  lemma DigitValueExact(c: char)
    ensures DigitValue(c).Some? ==> DigitChar(DigitValue(c).value) == c
    ensures DigitValue(c).Some? ==> c != Pad
  {
  }

  /** Three bytes become four digits, six bits each, most significant first. */
  function EncodeGroup(b0: Byte, b1: Byte, b2: Byte): (r: string)
  {
    [DigitChar(b0 / 4), DigitChar(b0 % 4 * 16 + b1 / 16), DigitChar(b1 % 16 * 4 + b2 / 64), DigitChar(b2 % 64)]
  }

  /** The final group of one or two bytes is padded to four characters with '='. */
  function EncodeTail(data: seq<Byte>): (r: string)
    requires 1 <= |data| <= 2
  {
    if |data| == 1 then [DigitChar(data[0] / 4), DigitChar(data[0] % 4 * 16), Pad, Pad]
    else [DigitChar(data[0] / 4), DigitChar(data[0] % 4 * 16 + data[1] / 16), DigitChar(data[1] % 16 * 4), Pad]
  }

  function Encode(data: seq<Byte>): (s: string)
    ensures |s| == 4 * ((|data| + 2) / 3)
    decreases |data|
  {
    if |data| == 0 then []
    else if |data| <= 2 then EncodeTail(data)
    else EncodeGroup(data[0], data[1], data[2]) + Encode(data[3..])
  }

  /** The three bytes that four digits carry, as in Figure 1 of RFC 4648. */
  function Byte0(v0: Sextet, v1: Sextet): (r: Byte) { (v0 as int) * 4 + (v1 as int) / 16 }
  function Byte1(v1: Sextet, v2: Sextet): (r: Byte) { (v1 as int) % 16 * 16 + (v2 as int) / 4 }
  function Byte2(v2: Sextet, v3: Sextet): (r: Byte) { (v2 as int) % 4 * 64 + (v3 as int) }

  /** Four characters with no padding back to three bytes. */
  function DecodeGroup(q: string): (r: Option<seq<Byte>>)
    requires |q| == 4
  {
    match (DigitValue(q[0]), DigitValue(q[1]), DigitValue(q[2]), DigitValue(q[3]))
    case (Some(v0), Some(v1), Some(v2), Some(v3)) =>
      Some([Byte0(v0, v1), Byte1(v1, v2), Byte2(v2, v3)])
    case _ => None
  }

  /** The last four characters, which may end in one or two '='; the bits that padding leaves over must be zero. */
  function DecodeLastGroup(q: string): (r: Option<seq<Byte>>)
    requires |q| == 4
  {
    if q[2] == Pad && q[3] == Pad then
      match (DigitValue(q[0]), DigitValue(q[1]))
      case (Some(v0), Some(v1)) => if v1 % 16 == 0 then Some([Byte0(v0, v1)]) else None
      case _ => None
    else if q[3] == Pad then
      match (DigitValue(q[0]), DigitValue(q[1]), DigitValue(q[2]))
      case (Some(v0), Some(v1), Some(v2)) =>
        if v2 % 4 == 0 then Some([Byte0(v0, v1), Byte1(v1, v2)]) else None
      case _ => None
    else DecodeGroup(q)
  }

  /** Splitting three bytes into digits and joining the digits again is the identity. */
  lemma SplitJoin(b0: Byte, b1: Byte, b2: Byte)
    ensures Byte0(b0 / 4, b0 % 4 * 16 + b1 / 16) == b0
    ensures Byte1(b0 % 4 * 16 + b1 / 16, b1 % 16 * 4 + b2 / 64) == b1
    ensures Byte2(b1 % 16 * 4 + b2 / 64, b2 % 64) == b2
  {
  }

  /** Joining four digits into bytes and splitting the bytes again is the identity. */
  lemma JoinSplit(v0: Sextet, v1: Sextet, v2: Sextet, v3: Sextet)
    ensures Byte0(v0, v1) / 4 == v0
    ensures Byte0(v0, v1) % 4 * 16 + Byte1(v1, v2) / 16 == v1
    ensures Byte1(v1, v2) % 16 * 4 + Byte2(v2, v3) / 64 == v2
    ensures Byte2(v2, v3) % 64 == v3
  {
  }

  function Decode(s: string): (r: Option<seq<Byte>>)
    decreases |s|
  {
    if |s| == 0 then Some([])
    else if |s| < 4 then None
    else if |s| == 4 then DecodeLastGroup(s)
    else match DecodeGroup(s[..4])
      case None => None
      case Some(group) =>
        match Decode(s[4..])
        case None => None
        case Some(rest) => Some(group + rest)
  }

  lemma DigitsDecode(v0: Sextet, v1: Sextet, v2: Sextet, v3: Sextet)
    ensures DecodeGroup([DigitChar(v0), DigitChar(v1), DigitChar(v2), DigitChar(v3)])
         == Some([Byte0(v0, v1), Byte1(v1, v2), Byte2(v2, v3)])
  {
    DigitRoundTrip(v0);
    DigitRoundTrip(v1);
    DigitRoundTrip(v2);
    DigitRoundTrip(v3);
  }

  lemma TwoDigitsDecode(v0: Sextet, v1: Sextet)
    ensures DecodeLastGroup([DigitChar(v0), DigitChar(v1), Pad, Pad])
         == if v1 % 16 == 0 then Some([Byte0(v0, v1)]) else None
  {
    DigitRoundTrip(v0);
    DigitRoundTrip(v1);
  }

  lemma ThreeDigitsDecode(v0: Sextet, v1: Sextet, v2: Sextet)
    ensures DecodeLastGroup([DigitChar(v0), DigitChar(v1), DigitChar(v2), Pad])
         == if v2 % 4 == 0 then Some([Byte0(v0, v1), Byte1(v1, v2)]) else None
  {
    DigitRoundTrip(v0);
    DigitRoundTrip(v1);
    DigitRoundTrip(v2);
    assert DigitChar(v2) != Pad;
  }

  lemma GroupRoundTrip(b0: Byte, b1: Byte, b2: Byte)
    ensures DecodeGroup(EncodeGroup(b0, b1, b2)) == Some([b0, b1, b2])
  {
    DigitsDecode(b0 / 4, b0 % 4 * 16 + b1 / 16, b1 % 16 * 4 + b2 / 64, b2 % 64);
    SplitJoin(b0, b1, b2);
  }

  lemma TailRoundTrip(data: seq<Byte>)
    requires 1 <= |data| <= 2
    ensures DecodeLastGroup(EncodeTail(data)) == Some(data)
  {
    if |data| == 1 {
      OneByteRoundTrip(data[0]);
      assert data == [data[0]];
    } else {
      TwoBytesRoundTrip(data[0], data[1]);
      assert data == [data[0], data[1]];
    }
  }

  lemma OneByteRoundTrip(b0: Byte)
    ensures DecodeLastGroup(EncodeTail([b0])) == Some([b0])
  {
    var v0: Sextet, v1: Sextet := b0 / 4, b0 % 4 * 16;
    assert EncodeTail([b0]) == [DigitChar(v0), DigitChar(v1), Pad, Pad];
    TwoDigitsDecode(v0, v1);
    SplitJoin(b0, 0, 0);
  }

  lemma TwoBytesRoundTrip(b0: Byte, b1: Byte)
    ensures DecodeLastGroup(EncodeTail([b0, b1])) == Some([b0, b1])
  {
    var v0: Sextet, v1: Sextet, v2: Sextet := b0 / 4, b0 % 4 * 16 + b1 / 16, b1 % 16 * 4;
    assert EncodeTail([b0, b1]) == [DigitChar(v0), DigitChar(v1), DigitChar(v2), Pad];
    ThreeDigitsDecode(v0, v1, v2);
    SplitJoin(b0, b1, 0);
  }

  /** A group without padding decodes the same whether or not it is the last one. */
  lemma LastGroupUnpadded(q: string)
    requires |q| == 4 && DecodeGroup(q).Some?
    ensures DecodeLastGroup(q) == DecodeGroup(q)
  {
    assert DigitValue(q[3]).Some?;
  }

  lemma DecodeAppend(g: string, t: string)
    requires |g| == 4 && DecodeGroup(g).Some?
    requires |t| >= 4 && Decode(t).Some?
    ensures Decode(g + t) == Some(DecodeGroup(g).value + Decode(t).value)
  {
    var s := g + t;
    assert s[..4] == g && s[4..] == t;
  }

  /** Decoding what was encoded gives back the bytes. */
  lemma {:induction false} DecodeEncode(data: seq<Byte>)
    ensures Decode(Encode(data)) == Some(data)
    decreases |data|
  {
    if |data| == 0 {
    } else if |data| <= 2 {
      TailRoundTrip(data);
    } else if |data| == 3 {
      ThreeBytesRoundTrip(data);
    } else {
      DecodeEncode(data[3..]);
      GroupThenRest(data);
    }
  }

  lemma EncodeStep(data: seq<Byte>)
    requires |data| >= 3
    ensures Encode(data) == EncodeGroup(data[0], data[1], data[2]) + Encode(data[3..])
  {
  }

  lemma ThreeBytesRoundTrip(data: seq<Byte>)
    requires |data| == 3
    ensures Decode(Encode(data)) == Some(data)
  {
    var g := EncodeGroup(data[0], data[1], data[2]);
    EncodeStep(data);
    assert Encode(data[3..]) == [];
    assert Encode(data) == g;
    GroupRoundTrip(data[0], data[1], data[2]);
    LastGroupUnpadded(g);
    assert data == [data[0], data[1], data[2]];
  }

  lemma FirstThree(data: seq<Byte>)
    requires |data| >= 3
    ensures data == [data[0], data[1], data[2]] + data[3..]
  {
  }

  /** One full group in front of bytes that already round-trip. */
  lemma GroupThenRest(data: seq<Byte>)
    requires |data| > 3 && Decode(Encode(data[3..])) == Some(data[3..])
    ensures Decode(Encode(data)) == Some(data)
  {
    var g := EncodeGroup(data[0], data[1], data[2]);
    var t := Encode(data[3..]);
    EncodeStep(data);
    assert (|data| - 3 + 2) / 3 >= 1;
    assert |t| >= 4;
    GroupRoundTrip(data[0], data[1], data[2]);
    DecodeAppend(g, t);
    FirstThree(data);
  }

  lemma GroupExact(q: string)
    requires |q| == 4
    requires DecodeGroup(q).Some?
    ensures var b := DecodeGroup(q).value; |b| == 3 && EncodeGroup(b[0], b[1], b[2]) == q
  {
    DigitValueExact(q[0]);
    DigitValueExact(q[1]);
    DigitValueExact(q[2]);
    DigitValueExact(q[3]);
    var v0, v1, v2, v3 := DigitValue(q[0]).value, DigitValue(q[1]).value, DigitValue(q[2]).value, DigitValue(q[3]).value;
    JoinSplit(v0, v1, v2, v3);
    var b := DecodeGroup(q).value;
    assert b == [Byte0(v0, v1), Byte1(v1, v2), Byte2(v2, v3)];
    assert EncodeGroup(b[0], b[1], b[2]) == [DigitChar(v0), DigitChar(v1), DigitChar(v2), DigitChar(v3)];
  }

  lemma LastGroupExact(q: string)
    requires |q| == 4
    requires DecodeLastGroup(q).Some?
    ensures var b := DecodeLastGroup(q).value;
      && 1 <= |b| <= 3
      && (if |b| == 3 then EncodeGroup(b[0], b[1], b[2]) else EncodeTail(b)) == q
  {
    var b := DecodeLastGroup(q).value;
    if q[2] == Pad && q[3] == Pad {
      DigitValueExact(q[0]);
      DigitValueExact(q[1]);
      var v0, v1 := DigitValue(q[0]).value, DigitValue(q[1]).value;
      JoinSplit(v0, v1, 0, 0);
      assert b == [Byte0(v0, v1)];
      assert b[0] % 4 * 16 == v1;
      assert EncodeTail(b) == [DigitChar(v0), DigitChar(v1), Pad, Pad];
    } else if q[3] == Pad {
      DigitValueExact(q[0]);
      DigitValueExact(q[1]);
      DigitValueExact(q[2]);
      var v0, v1, v2 := DigitValue(q[0]).value, DigitValue(q[1]).value, DigitValue(q[2]).value;
      JoinSplit(v0, v1, v2, 0);
      assert b == [Byte0(v0, v1), Byte1(v1, v2)];
      assert b[1] % 16 * 4 == v2;
      assert EncodeTail(b) == [DigitChar(v0), DigitChar(v1), DigitChar(v2), Pad];
    } else {
      GroupExact(q);
    }
  }

  /** Whatever the strict decoder accepts is exactly the encoding of what it returns. */
  lemma {:induction false} EncodeDecode(s: string)
    requires Decode(s).Some?
    ensures Encode(Decode(s).value) == s
    decreases |s|
  {
    if |s| == 0 {
    } else if |s| == 4 {
      LastGroupExact(s);
      var b := Decode(s).value;
      if |b| == 3 {
        assert b[3..] == [];
        assert Encode(b) == EncodeGroup(b[0], b[1], b[2]) + Encode([]);
      }
    } else {
      GroupExact(s[..4]);
      EncodeDecode(s[4..]);
      var g := DecodeGroup(s[..4]).value;
      var rest := Decode(s[4..]).value;
      var b := g + rest;
      assert |rest| > 0 by {
        assert |Encode(rest)| == |s| - 4 > 0;
      }
      assert b[..3] == g && b[3..] == rest;
      assert s == s[..4] + s[4..];
    }
  }

  /** A non-empty string decodes to at least one byte. */
  lemma DecodeNonEmpty(s: string)
    requires s != [] && Decode(s).Some?
    ensures Decode(s).value != []
  {
    EncodeDecode(s);
  }
}
