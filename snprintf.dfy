/** The bounded formatted output of `snprintf` (ISO C11, section 7.21.6.5): at
    most `n - 1` characters of the formatted text are stored, followed by a NUL;
    nothing is stored when `n` is zero; the return value is the length of the
    whole formatted text. */
module Snprintf {
  import opened CString

  /** The characters `snprintf(s, n, ...)` stores before its NUL, given the
      complete formatted text `full`. */
  function SnprintfOutput(n: nat, full: string): (r: string)
    ensures |r| <= |full| && r == full[..|r|]
    ensures n == 0 ==> r == []
    ensures |full| < n ==> r == full
    ensures 0 < n <= |full| ==> |r| == n - 1
  {
    if n == 0 then [] else if |full| < n then full else full[..n - 1]
  }

  /** `snprintf` into a buffer of at least `n` characters; `count` is its
      return value. */
  method SnprintfInto(buf: array<char>, n: nat, full: string) returns (count: nat)
    requires n <= buf.Length
    modifies buf
    ensures count == |full|
    ensures n == 0 ==> buf[..] == old(buf[..])
    ensures n > 0 ==> buf[..] == Store(old(buf[..]), SnprintfOutput(n, full))
  {
    if n > 0 {
      WriteText(buf, SnprintfOutput(n, full));
    }
    count := |full|;
  }

  /** The text the format `"%d%%"` produces for `x`. */
  function PercentText(x: int): (s: string)
    ensures |s| >= 2 && s[|s| - 1] == '%'
    ensures IsDecimalInt(s[..|s| - 1]) && ParseInt(s[..|s| - 1]) == x
    ensures s[..|s| - 1] == IntToDecimal(x)
  {
    IntRoundTrip(x);
    var s := IntToDecimal(x) + "%";
    assert s[..|s| - 1] == IntToDecimal(x);
    s
  }
}
