/**
 * Character classes, decimal digit strings and fixed shapes: the pieces the
 * tool's regular expressions, `int()`, `'{:0>2}'.format` and `strftime` are
 * made of. The tool's patterns are compiled without the `re.UNICODE` flag, so
 * under Python 2 `\d` is [0-9] and `\s` is one of the six ASCII white-space
 * characters, whether the text is a byte string or a unicode string.
 */
module Text {

  predicate IsDigit(c: char) { '0' <= c <= '9' }

  predicate AllDigits(s: string) { forall i :: 0 <= i < |s| ==> IsDigit(s[i]) }

  /** Python 2's `\s` on a byte string: space, tab, newline, carriage return, form feed, vertical tab. */
  predicate IsSpace(c: char) {
    c == ' ' || c == '\t' || c == '\n' || c == '\r' || c == '\U{C}' || c == '\U{B}'
  }

  function DigitValue(c: char): (d: nat)
    requires IsDigit(c)
    ensures d < 10
  {
    c as int - '0' as int
  }

  function DigitChar(d: nat): (c: char)
    requires d < 10
    ensures IsDigit(c) && DigitValue(c) == d
  {
    ('0' as int + d) as char
  }

  function Pow10(k: nat): (p: nat)
    ensures p >= 1
  {
    if k == 0 then 1 else 10 * Pow10(k - 1)
  }

  /** The value of a decimal digit string, as Python's `int()` reads it; "" reads as 0. */
  function NatOf(s: string): (n: nat)
    requires AllDigits(s)
    ensures n < Pow10(|s|)
  {
    if s == [] then 0 else NatOf(s[..|s| - 1]) * 10 + DigitValue(s[|s| - 1])
  }

  /** `n` written with exactly `width` digits, zero-padded (strftime's `%d`, `%m`, `%H`, `%M`, `%Y`). */
  function Fixed(n: nat, width: nat): (r: string)
    ensures |r| == width && AllDigits(r)
  {
    if width == 0 then [] else Fixed(n / 10, width - 1) + [DigitChar(n % 10)]
  }

  /** Reading a digit string and writing it back at its own width gives the same text. */
  lemma {:induction false} FixedNatOf(s: string)
    requires AllDigits(s)
    ensures Fixed(NatOf(s), |s|) == s
  {
    if s != [] {
      var p := s[..|s| - 1];
      assert AllDigits(p);
      FixedNatOf(p);
      var n := NatOf(s);
      assert n / 10 == NatOf(p) && n % 10 == DigitValue(s[|s| - 1]);
      assert s == p + [s[|s| - 1]];
    }
  }

  /** Writing a number that fits in `width` digits and reading it back gives the number. */
  lemma {:induction false} NatOfFixed(n: nat, width: nat)
    requires n < Pow10(width)
    ensures NatOf(Fixed(n, width)) == n
  {
    if width > 0 {
      NatOfFixed(n / 10, width - 1);
      var r := Fixed(n, width);
      assert r[..|r| - 1] == Fixed(n / 10, width - 1);
    }
  }

  /** `'{:0>width}'.format(s)`: left-pads with '0' up to `width`, never truncates. */
  function PadLeft(s: string, width: nat): (r: string)
    ensures |r| == (if |s| >= width then |s| else width)
    ensures r[|r| - |s|..] == s
    ensures forall i :: 0 <= i < |r| - |s| ==> r[i] == '0'
    ensures AllDigits(s) ==> AllDigits(r)
  {
    if |s| >= width then s else Zeros(width - |s|) + s
  }

  function Zeros(k: nat): (z: string)
    ensures |z| == k && forall i :: 0 <= i < k ==> z[i] == '0'
  {
    if k == 0 then [] else ['0'] + Zeros(k - 1)
  }

  /** Padding a digit string keeps its value: it is never normalised. */
  lemma PadLeftKeepsValue(s: string, width: nat)
    requires AllDigits(s)
    ensures AllDigits(PadLeft(s, width)) && NatOf(PadLeft(s, width)) == NatOf(s)
  {
    if |s| < width {
      ZerosKeepValue(width - |s|, s);
    }
  }

  /** Any number of leading zeros leaves the value of a digit string unchanged. */
  lemma {:induction false} ZerosKeepValue(k: nat, s: string)
    requires AllDigits(s)
    ensures AllDigits(Zeros(k) + s) && NatOf(Zeros(k) + s) == NatOf(s)
  {
    if k > 0 {
      ZerosKeepValue(k - 1, s);
      var t := Zeros(k - 1) + s;
      assert Zeros(k) + s == ['0'] + t;
      LeadingZero(t);
    } else {
      assert Zeros(k) + s == s;
    }
  }

  /** A leading zero does not change the value of a digit string. */
  lemma {:induction false} LeadingZero(s: string)
    requires AllDigits(s)
    ensures AllDigits(['0'] + s) && NatOf(['0'] + s) == NatOf(s)
  {
    if s != [] {
      var p := s[..|s| - 1];
      assert (['0'] + s)[..|s|] == ['0'] + p;
      LeadingZero(p);
    }
  }

  /** The number of leading decimal digits of `s` (how far a greedy `\d*` reaches). */
  function Span(s: string): (n: nat)
    ensures n <= |s| && AllDigits(s[..n])
    ensures n < |s| ==> !IsDigit(s[n])
  {
    if s == [] || !IsDigit(s[0]) then 0 else 1 + Span(s[1..])
  }

  /** A digit run followed by a non-digit (or by nothing) is exactly what `\d*` consumes. */
  lemma {:induction false} SpanOf(d: string, rest: string)
    requires AllDigits(d)
    requires rest == [] || !IsDigit(rest[0])
    ensures Span(d + rest) == |d|
  {
    if d != [] {
      assert (d + rest)[1..] == d[1..] + rest;
      SpanOf(d[1..], rest);
    }
  }

  /**
   * `s` has exactly the shape of `pattern`, read position by position:
   * 'D' stands for one decimal digit, 'S' for one white-space character,
   * and every other character for itself.
   */
  predicate Shaped(s: string, pattern: string) {
    |s| == |pattern| &&
    forall i :: 0 <= i < |s| ==>
      if pattern[i] == 'D' then IsDigit(s[i])
      else if pattern[i] == 'S' then IsSpace(s[i])
      else s[i] == pattern[i]
  }

  /** `s` begins with the shape of `pattern` (an unanchored `re.match`). */
  predicate StartsShaped(s: string, pattern: string) {
    |pattern| <= |s| && Shaped(s[..|pattern|], pattern)
  }
}
