/** The string operations the core uses: `String.prototype.split(',')` and the decimal text of a number in a template literal. */
module Text {

  const Comma: char := ','

  predicate CommaFree(s: string) { Comma !in s }

  /** The position of the first comma. */
  function FirstComma(s: string): (i: nat)
    requires Comma in s
    ensures i < |s| && s[i] == Comma && CommaFree(s[..i])
  {
    if s[0] == Comma then 0
    else
      assert Comma in s[1..] by { assert s == [s[0]] + s[1..]; }
      var j := FirstComma(s[1..]);
      assert s[..j + 1] == [s[0]] + s[1..][..j];
      j + 1
  }

  /**
   * `s.split(',')`: the pieces between commas, in order. There is always at least one piece,
   * an empty piece stands for two adjacent commas or a comma at either end, and `"".split(',')` is `[""]`.
   */
  function Split(s: string): (parts: seq<string>)
    ensures |parts| >= 1
    decreases |s|
  {
    if CommaFree(s) then [s]
    else
      var i := FirstComma(s);
      [s[..i]] + Split(s[i + 1..])
  }

  /** The pieces joined back with commas, as `parts.join(',')`. */
  function Join(parts: seq<string>): (s: string)
    requires |parts| >= 1
    decreases |parts|
  {
    if |parts| == 1 then parts[0] else parts[0] + [Comma] + Join(parts[1..])
  }

  /** No piece of a split contains a comma, and joining the pieces gives back the string. */
  lemma {:induction false} SplitJoin(s: string)
    ensures forall i :: 0 <= i < |Split(s)| ==> CommaFree(Split(s)[i])
    ensures Join(Split(s)) == s
    decreases |s|
  {
    if !CommaFree(s) {
      var i := FirstComma(s);
      var rest := Split(s[i + 1..]);
      SplitJoin(s[i + 1..]);
      var parts := Split(s);
      assert parts == [s[..i]] + rest;
      assert parts[1..] == rest;
      assert Join(parts) == s[..i] + [Comma] + Join(rest);
      assert s == s[..i] + [Comma] + s[i + 1..];
      forall k | 0 <= k < |parts|
        ensures CommaFree(parts[k])
      {
        if k > 0 {
          assert parts[k] == rest[k - 1];
        }
      }
    }
  }

  /** A comma after a comma-free prefix is the first comma. */
  lemma FirstCommaAfter(a: string, b: string)
    requires CommaFree(a)
    ensures Comma in a + [Comma] + b && FirstComma(a + [Comma] + b) == |a|
  {
    var s := a + [Comma] + b;
    assert s[|a|] == Comma;
  }

  /** `(a + ',' + b).split(',')` for a comma-free `a` is `a` followed by the pieces of `b`. */
  lemma SplitAfter(a: string, b: string)
    requires CommaFree(a)
    ensures Split(a + [Comma] + b) == [a] + Split(b)
  {
    var s := a + [Comma] + b;
    FirstCommaAfter(a, b);
    assert s[..|a|] == a;
    assert s[|a| + 1..] == b;
  }

  /** Splitting joined comma-free pieces gives the pieces back. */
  lemma {:induction false} JoinSplit(parts: seq<string>)
    requires |parts| >= 1
    requires forall i :: 0 <= i < |parts| ==> CommaFree(parts[i])
    ensures Split(Join(parts)) == parts
    decreases |parts|
  {
    if |parts| > 1 {
      JoinSplit(parts[1..]);
      SplitAfter(parts[0], Join(parts[1..]));
      assert parts == [parts[0]] + parts[1..];
    }
  }

  function DigitChar(d: nat): (r: char)
    requires d < 10
  {
    ('0' as int + d) as char
  }

  /** The decimal digits of `n` without leading zeros, as JavaScript prints an integer. */
  function NatToString(n: nat): (s: string)
    ensures |s| >= 1
    decreases n
  {
    if n < 10 then [DigitChar(n)] else NatToString(n / 10) + [DigitChar(n % 10)]
  }

  /** `${n}` for an integer `n`. */
  function IntToString(n: int): (r: string)
  {
    if n < 0 then "-" + NatToString(-n) else NatToString(n)
  }

  /** The number that a string of decimal digits denotes. */
  function DecimalValue(s: string): (r: int)
    decreases |s|
  {
    if s == [] then 0 else 10 * DecimalValue(s[..|s| - 1]) + (s[|s| - 1] as int - '0' as int)
  }

  /** The printed digits denote the number printed. */
  lemma {:induction false} NatToStringValue(n: nat)
    ensures DecimalValue(NatToString(n)) == n
    ensures forall i :: 0 <= i < |NatToString(n)| ==> '0' <= NatToString(n)[i] <= '9'
    decreases n
  {
    if n >= 10 {
      NatToStringValue(n / 10);
      var s := NatToString(n);
      assert s[..|s| - 1] == NatToString(n / 10);
    }
  }
}
