/** Text as the C library sees it: characters in a fixed-size `char` buffer up to
    the first NUL, decimal digits, and the decimal spelling of integers used by
    the `%d` conversion of `printf`-style functions. */
module CString {

  datatype Option<T> = None | Some(value: T)

  const NUL: char := '\0'

  predicate IsDigit(c: char) { '0' <= c <= '9' }

  predicate AllDigits(s: string) { forall i :: 0 <= i < |s| ==> IsDigit(s[i]) }

  /** The numeric value of a decimal digit character. */
  function DigitValue(c: char): (d: nat)
    requires IsDigit(c)
    ensures d < 10
  {
    c as int - '0' as int
  }

  /** The decimal digit character of a value below ten. */
  function DigitChar(d: nat): (c: char)
    requires d < 10
    ensures IsDigit(c) && DigitValue(c) == d
  {
    (d + '0' as int) as char
  }

  /** What a C string function reads from a buffer: every character before the
      first NUL (the whole buffer when it holds no NUL). */
  function Text(s: seq<char>): (t: string)
    ensures |t| <= |s| && t == s[..|t|] && NUL !in t
    ensures |t| < |s| ==> s[|t|] == NUL
  {
    if s == [] || s[0] == NUL then [] else [s[0]] + Text(s[1..])
  }

  /** The buffer after `out` and a terminating NUL have been stored at its start;
      the characters after that NUL keep their old values. */
  function Store(buf: seq<char>, out: string): (r: seq<char>)
    requires |out| < |buf|
    ensures |r| == |buf| && r[..|out|] == out && r[|out|] == NUL
    ensures forall i :: |out| < i < |buf| ==> r[i] == buf[i]
  {
    out + [NUL] + buf[|out| + 1..]
  }

  /** A stored string with no NUL of its own is exactly what C reads back. */
  lemma TextOfStore(buf: seq<char>, out: string)
    requires |out| < |buf| && NUL !in out
    ensures Text(Store(buf, out)) == out
  {
    var s := Store(buf, out);
    var t := Text(s);
    assert s[..|out|] == out;
    assert s[|out|] == NUL;
  }

  /** Writes `out` and its terminating NUL at the start of `buf`, as
      `strftime` and `snprintf` do when the output fits. */
  method WriteText(buf: array<char>, out: string)
    requires |out| < buf.Length
    modifies buf
    ensures buf[..] == Store(old(buf[..]), out)
  {
    forall i | 0 <= i < |out| {
      buf[i] := out[i];
    }
    buf[|out|] := NUL;
  }

  // ---- decimal numerals ----

  /** The decimal numeral of `n`: digits only, no leading zero. */
  function NatToDecimal(n: nat): (s: string)
    ensures 1 <= |s| && AllDigits(s)
    ensures (s[0] == '0') == (n == 0)
    decreases n
  {
    if n < 10 then [DigitChar(n)] else NatToDecimal(n / 10) + [DigitChar(n % 10)]
  }

  /** The value of a string of decimal digits (0 for the empty string). */
  function ParseDecimal(s: string): nat
    requires AllDigits(s)
  {
    if s == [] then 0 else ParseDecimal(s[..|s| - 1]) * 10 + DigitValue(s[|s| - 1])
  }

  lemma {:induction false} DecimalRoundTrip(n: nat)
    ensures ParseDecimal(NatToDecimal(n)) == n
    decreases n
  {
    if n >= 10 {
      var s := NatToDecimal(n);
      assert s[..|s| - 1] == NatToDecimal(n / 10);
      assert s[|s| - 1] == DigitChar(n % 10);
      DecimalRoundTrip(n / 10);
    }
  }

  /** Numerals are injective: distinct numbers are spelt differently. */
  lemma DecimalInjective(m: nat, n: nat)
    requires NatToDecimal(m) == NatToDecimal(n)
    ensures m == n
  {
    DecimalRoundTrip(m);
    DecimalRoundTrip(n);
  }

  /** The number of digits of the numbers a three-character buffer can hold. */
  lemma {:induction false} DecimalLength(n: nat)
    ensures n < 10 <==> |NatToDecimal(n)| == 1
    ensures n < 100 <==> |NatToDecimal(n)| <= 2
    ensures n < 1000 <==> |NatToDecimal(n)| <= 3
    decreases n
  {
    if n >= 10 {
      DecimalLength(n / 10);
    }
  }

  /** The `%d` conversion of C's formatted output: a minus sign for negative
      values, then the decimal numeral of the magnitude. */
  function IntToDecimal(x: int): (s: string)
    ensures 1 <= |s|
    ensures (s[0] == '-') == (x < 0)
  {
    if x < 0 then "-" + NatToDecimal(-x) else NatToDecimal(x)
  }

  predicate IsDecimalInt(s: string) {
    if |s| > 0 && s[0] == '-' then AllDigits(s[1..]) else AllDigits(s)
  }

  function ParseInt(s: string): int
    requires IsDecimalInt(s)
  {
    if |s| > 0 && s[0] == '-' then -(ParseDecimal(s[1..]) as int) else ParseDecimal(s)
  }

  lemma IntRoundTrip(x: int)
    ensures IsDecimalInt(IntToDecimal(x)) && ParseInt(IntToDecimal(x)) == x
  {
    if x < 0 {
      assert IntToDecimal(x)[1..] == NatToDecimal(-x);
      DecimalRoundTrip(-x);
    } else {
      DecimalRoundTrip(x);
    }
  }

  /** Two decimal digits, zero-padded: what the `%H`, `%M`, `%S`, `%m`, `%d` and
      `%I` conversions of `strftime` produce for a field below 100. */
  function TwoDigits(v: nat): (s: string)
    requires v < 100
    ensures |s| == 2 && AllDigits(s) && ParseDecimal(s) == v
  {
    var s := [DigitChar(v / 10), DigitChar(v % 10)];
    assert s[..1] == [s[0]] && s[..1][..0] == [];
    assert ParseDecimal(s[..1]) == v / 10;
    s
  }

  /** Zero padding agrees with the plain numeral. */
  lemma TwoDigitsPadsNumeral(v: nat)
    requires v < 100
    ensures TwoDigits(v) == (if v < 10 then "0" else "") + NatToDecimal(v)
  {
    if v >= 10 {
      assert NatToDecimal(v / 10) == [DigitChar(v / 10)];
    }
  }

  lemma TwoDigitsInjective(u: nat, v: nat)
    requires u < 100 && v < 100 && TwoDigits(u) == TwoDigits(v)
    ensures u == v
  {
  }
}
