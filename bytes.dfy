/**
 * Byte strings as Python 2 programs handle them: `str` values are sequences of
 * bytes. This module holds the pieces the two framing layers share: decimal
 * numerals (`'{}'.format(n)` and `int(s)`), `readline` and `read(n)` on a stream.
 */
module Bytes {
  import opened Options

  newtype byte = x: int | 0 <= x < 256

  type Bytes = seq<byte>

  const Newline: byte := 10
  const Nul: byte := 0

  predicate IsDigit(b: byte) {
    48 <= b <= 57
  }

  predicate AllDigits(s: Bytes) {
    forall i :: 0 <= i < |s| ==> IsDigit(s[i])
  }

  /** The bytes Python 2's `int()` strips from both ends of its argument. */
  predicate IsSpace(b: byte) {
    b == 32 || (9 <= b <= 13)
  }

  /** The decimal numeral of `n`, as `'{}'.format(n)` writes it. */
  function Decimal(n: nat): (r: Bytes)
    ensures |r| > 0 && AllDigits(r)
    ensures r[0] != 48 || n == 0
    decreases n
  {
    if n < 10 then [(48 + n) as byte] else Decimal(n / 10) + [(48 + n % 10) as byte]
  }

  /** The value of a string of decimal digits. */
  function DigitsValue(s: Bytes): nat
    requires AllDigits(s)
  {
    if s == [] then 0 else 10 * DigitsValue(s[..|s| - 1]) + (s[|s| - 1] - 48) as int
  }

  lemma {:induction false} DecimalValue(n: nat)
    ensures DigitsValue(Decimal(n)) == n
    decreases n
  {
    if n >= 10 {
      var d := Decimal(n / 10);
      DecimalValue(n / 10);
      var s := d + [(48 + n % 10) as byte];
      assert s[..|s| - 1] == d;
    }
  }

  function StripLeft(s: Bytes): (r: Bytes)
    ensures |r| <= |s| && r == s[|s| - |r|..]
    ensures r != [] ==> !IsSpace(r[0])
  {
    if s != [] && IsSpace(s[0]) then StripLeft(s[1..]) else s
  }

  function StripRight(s: Bytes): (r: Bytes)
    ensures |r| <= |s| && r == s[..|r|]
    ensures r != [] ==> !IsSpace(r[|r| - 1])
  {
    if s != [] && IsSpace(s[|s| - 1]) then StripRight(s[..|s| - 1]) else s
  }

  /**
   * Python 2's `int(s)` for base 10: optional surrounding whitespace, an optional
   * sign and at least one decimal digit; anything else raises ValueError (None).
   */
  function ParseInt(s: Bytes): (r: Option<int>)
  {
    var t := StripRight(StripLeft(s));
    if |t| > 1 && (t[0] == 43 || t[0] == 45) && AllDigits(t[1..]) then
      var v: int := DigitsValue(t[1..]);
      Some(if t[0] == 45 then -v else v)
    else if |t| > 0 && AllDigits(t) then
      Some(DigitsValue(t))
    else
      None
  }

  /** `int()` reads back every numeral that `'{}'.format(n)` writes. */
  lemma ParseDecimal(n: nat)
    ensures ParseInt(Decimal(n)) == Some(n)
  {
    var d := Decimal(n);
    assert StripLeft(d) == d;
    assert StripRight(d) == d;
    DecimalValue(n);
  }

  /**
   * `stream.readline()`: everything up to and including the first newline, or
   * the rest of the stream when there is no newline. Returns the line and what
   * remains unread.
   */
  function Readline(s: Bytes): (r: (Bytes, Bytes))
    ensures r.0 + r.1 == s
    ensures s != [] ==> r.0 != []
    ensures forall i :: 0 <= i < |r.0| - 1 ==> r.0[i] != Newline
    ensures r.0 != [] && r.0[|r.0| - 1] != Newline ==> r.1 == []
  {
    if s == [] then ([], [])
    else if s[0] == Newline then ([s[0]], s[1..])
    else
      var rest := Readline(s[1..]);
      ([s[0]] + rest.0, rest.1)
  }

  lemma {:induction false} ReadlineOfLine(line: Bytes, rest: Bytes)
    requires forall i :: 0 <= i < |line| ==> line[i] != Newline
    ensures Readline(line + [Newline] + rest) == (line + [Newline], rest)
  {
    if line != [] {
      var s := line + [Newline] + rest;
      assert s[0] == line[0] && s[0] != Newline;
      assert s[1..] == line[1..] + [Newline] + rest;
      ReadlineOfLine(line[1..], rest);
      assert [line[0]] + (line[1..] + [Newline]) == line + [Newline];
    } else {
      assert (line + [Newline] + rest)[1..] == rest;
    }
  }

  /**
   * `stream.read(n)`: at most `n` bytes, fewer at the end of the stream, and
   * everything that is left when `n` is negative. Returns the bytes read and the
   * rest.
   */
  function ReadN(s: Bytes, n: int): (r: (Bytes, Bytes))
    ensures r.0 + r.1 == s
    ensures 0 <= n <= |s| ==> |r.0| == n
    ensures n < 0 || |s| < n ==> r.1 == []
  {
    if n < 0 || |s| <= n then (s, []) else (s[..n], s[n..])
  }
}
