/** The part of `strftime` (ISO C11, section 7.27.3.5) the watchface uses: the
    two-digit conversions `%H`, `%I`, `%M`, `%S`, `%m`, `%d`, ordinary characters,
    and the rule that output which does not fit `maxsize` (terminating NUL
    included) makes the call return zero. */
module TimeFormat {
  import opened CString

  /** The broken-down time fields read by the conversions above. */
  datatype Tm = Tm(hour: int, min: int, sec: int, mon: int, mday: int)

  /** The normal ranges of ISO C: `tm_hour` 0..23, `tm_min` 0..59, `tm_sec`
      0..60 (leap second), `tm_mon` 0..11 (months since January), `tm_mday` 1..31. */
  predicate ValidTm(t: Tm) {
    0 <= t.hour <= 23 && 0 <= t.min <= 59 && 0 <= t.sec <= 60 &&
    0 <= t.mon <= 11 && 1 <= t.mday <= 31
  }

  /** The hour on a 12-hour clock, as `%I` formats it. */
  function Hour12(h: int): (r: nat)
    requires 0 <= h <= 23
    ensures 1 <= r <= 12 && r % 12 == h % 12
    ensures h == 0 ==> r == 12
    ensures 1 <= h <= 12 ==> r == h
    ensures 13 <= h ==> r == h - 12
  {
    if h % 12 == 0 then 12 else h % 12
  }

  /** `%H`, `%I`, `%M`, `%S`, `%m`, `%d`. */
  datatype Conversion = Hour24 | Hour12Clock | Minute | Second | Month | MonthDay

  /** One element of a format string: an ordinary character or a conversion. */
  datatype Directive = Char(c: char) | Conv(conv: Conversion)

  /** The number a conversion prints. */
  function Field(c: Conversion, t: Tm): (v: nat)
    requires ValidTm(t)
    ensures v < 100
    ensures c == Hour24 ==> v == t.hour
    ensures c == Hour12Clock ==> 1 <= v <= 12 && v % 12 == t.hour % 12
    ensures c == Minute ==> v == t.min
    ensures c == Second ==> v == t.sec
    ensures c == Month ==> v == t.mon + 1 && 1 <= v <= 12
    ensures c == MonthDay ==> v == t.mday
  {
    match c
    case Hour24 => t.hour
    case Hour12Clock => Hour12(t.hour)
    case Minute => t.min
    case Second => t.sec
    case Month => t.mon + 1
    case MonthDay => t.mday
  }

  function Render(d: Directive, t: Tm): string
    requires ValidTm(t)
  {
    match d
    case Char(c) => [c]
    case Conv(c) => TwoDigits(Field(c, t))
  }

  /** Characters a directive produces, whatever the time. */
  function DirectiveWidth(d: Directive): nat {
    if d.Char? then 1 else 2
  }

  function Width(fmt: seq<Directive>): nat {
    if fmt == [] then 0 else DirectiveWidth(fmt[0]) + Width(fmt[1..])
  }

  /** The characters `strftime` produces for `fmt`, before the size check. */
  function Expand(fmt: seq<Directive>, t: Tm): (s: string)
    requires ValidTm(t)
    ensures |s| == Width(fmt)
  {
    if fmt == [] then [] else Render(fmt[0], t) + Expand(fmt[1..], t)
  }

  /** No ordinary character of the format is NUL. */
  predicate NoNulChar(fmt: seq<Directive>) {
    forall i :: 0 <= i < |fmt| ==> fmt[i] != Char(NUL)
  }

  /** A format whose ordinary characters are not NUL expands to NUL-free text. */
  lemma {:induction false} ExpandHasNoNul(fmt: seq<Directive>, t: Tm)
    requires ValidTm(t)
    requires NoNulChar(fmt)
    ensures NUL !in Expand(fmt, t)
  {
    if fmt != [] {
      ExpandHasNoNul(fmt[1..], t);
      assert fmt[0] != Char(NUL);
    }
  }

  /** Model of `strftime(s, maxsize, fmt, t)`: `None` is the call that returns
      zero, leaving the array's contents indeterminate. */
  function Strftime(maxsize: nat, fmt: seq<Directive>, t: Tm): (r: Option<string>)
    requires ValidTm(t)
    ensures r.Some? <==> Width(fmt) + 1 <= maxsize
    ensures r.Some? ==> r.value == Expand(fmt, t)
  {
    var s := Expand(fmt, t);
    if |s| + 1 <= maxsize then Some(s) else None
  }

  /** `strftime` writing into a real buffer of at least `maxsize` characters;
      `n` is its return value. */
  method StrftimeInto(buf: array<char>, maxsize: nat, fmt: seq<Directive>, t: Tm) returns (n: nat)
    requires ValidTm(t) && maxsize <= buf.Length
    modifies buf
    ensures Strftime(maxsize, fmt, t).Some? ==>
              n == |Strftime(maxsize, fmt, t).value| &&
              buf[..] == Store(old(buf[..]), Strftime(maxsize, fmt, t).value)
    ensures Strftime(maxsize, fmt, t).None? ==> n == 0
  {
    var s := Expand(fmt, t);
    if |s| + 1 <= maxsize {
      WriteText(buf, s);
      n := |s|;
    } else {
      n := 0;
    }
  }
}
