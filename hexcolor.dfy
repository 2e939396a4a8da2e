/** The watchface's time-to-colour mapping: the six digits `HHMMSS` (or
    `IIMMSS`) are read as the hex colour `#HHMMSS`, so each channel is a
    two-digit clock field written in binary-coded decimal. */
module HexColor {
  import opened CString
  import opened TimeFormat

  /** `(hi - '0')*16 + (lo - '0')`: a pair of digit characters read as two
      hex nibbles. */
  function Channel(hi: char, lo: char): (c: int)
    ensures IsDigit(hi) && IsDigit(lo) ==> c == 16 * DigitValue(hi) + DigitValue(lo) && 0 <= c <= 153
    ensures IsDigit(hi) && IsDigit(lo) ==> BcdDecode(c) == 10 * DigitValue(hi) + DigitValue(lo)
  {
    (hi as int - '0' as int) * 16 + (lo as int - '0' as int)
  }

  /** Binary-coded decimal: the tens digit in the high nibble, the units digit
      in the low nibble. */
  function Bcd(v: nat): nat
    requires v < 100
  {
    16 * (v / 10) + v % 10
  }

  /** Reads a nibble pair back as a decimal number. */
  function BcdDecode(c: int): int {
    (c / 16) * 10 + c % 16
  }

  /** The digit pair `strftime` prints for a field is that field in BCD. */
  lemma DigitPairIsBcd(v: nat)
    requires v < 100
    ensures Channel(TwoDigits(v)[0], TwoDigits(v)[1]) == Bcd(v)
  {
    var s := TwoDigits(v);
    assert s == [DigitChar(v / 10), DigitChar(v % 10)];
  }

  lemma BcdRoundTrip(v: nat)
    requires v < 100
    ensures BcdDecode(Bcd(v)) == v
  {
  }

  /** Distinct field values give distinct channels. */
  lemma BcdInjective(u: nat, v: nat)
    requires u < 100 && v < 100 && Bcd(u) == Bcd(v)
    ensures u == v
  {
    BcdRoundTrip(u);
    BcdRoundTrip(v);
  }

  /** A later field value gives a larger channel. */
  lemma BcdMonotone(u: nat, v: nat)
    requires u < v < 100
    ensures Bcd(u) < Bcd(v)
  {
    if u / 10 < v / 10 {
      assert 16 * (u / 10) + 16 <= 16 * (v / 10);
    } else {
      assert u / 10 == v / 10;
    }
  }

  /** Every channel fits in an unsigned byte, never reaching 160. */
  lemma BcdBelow160(v: nat)
    requires v < 100
    ensures 0 <= Bcd(v) <= 153 < 160
  {
    if v < 99 {
      BcdMonotone(v, 99);
    }
  }

  /** The hour field the colour is built from: `%H` in 24-hour mode, `%I`
      otherwise. */
  function HourField(t: Tm, is24h: bool): (h: nat)
    requires ValidTm(t)
    ensures is24h ==> h == t.hour
    ensures !is24h ==> h == Hour12(t.hour)
  {
    Field(if is24h then Hour24 else Hour12Clock, t)
  }

  datatype Rgb = Rgb(r: int, g: int, b: int)

  /** Reference definition of the colour for a time: hour, minute and second in
      BCD as red, green and blue. */
  function ClockColor(t: Tm, is24h: bool): Rgb
    requires ValidTm(t)
  {
    Rgb(Bcd(HourField(t, is24h)), Bcd(t.min), Bcd(t.sec))
  }

  /** The ranges the three channels can take. */
  lemma ClockColorBounds(t: Tm, is24h: bool)
    requires ValidTm(t)
    ensures is24h ==> 0 <= ClockColor(t, is24h).r <= 35
    ensures !is24h ==> 1 <= ClockColor(t, is24h).r <= 9 || 16 <= ClockColor(t, is24h).r <= 18
    ensures 0 <= ClockColor(t, is24h).g <= 89
    ensures 0 <= ClockColor(t, is24h).b <= 96
    ensures ClockColor(t, is24h).r < 160 && ClockColor(t, is24h).g < 160 && ClockColor(t, is24h).b < 160
  {
    var h := HourField(t, is24h);
    if h < 23 { BcdMonotone(h, 23); }
    if t.min < 59 { BcdMonotone(t.min, 59); }
    if t.sec < 60 { BcdMonotone(t.sec, 60); }
    if !is24h {
      if h < 10 {
        assert Bcd(h) == h;
      } else {
        assert Bcd(h) == h + 6;
      }
    }
  }

  /** Every red value the 12-hour clock can show is shown at some hour. */
  lemma TwelveHourRedReached(r: int)
    requires 1 <= r <= 9 || 16 <= r <= 18
    ensures 1 <= BcdDecode(r) <= 12 && Bcd(Hour12(BcdDecode(r))) == r
  {
  }

  /** In 24-hour mode the colour determines the time of day. */
  lemma ClockColorInjective24(t1: Tm, t2: Tm)
    requires ValidTm(t1) && ValidTm(t2) && ClockColor(t1, true) == ClockColor(t2, true)
    ensures t1.hour == t2.hour && t1.min == t2.min && t1.sec == t2.sec
  {
    BcdInjective(t1.hour, t2.hour);
    BcdInjective(t1.min, t2.min);
    BcdInjective(t1.sec, t2.sec);
  }

  /** In 12-hour mode two times share a colour exactly when they agree on
      minute, second and the hour modulo 12. */
  lemma ClockColorTwelveHour(t1: Tm, t2: Tm)
    requires ValidTm(t1) && ValidTm(t2)
    ensures ClockColor(t1, false) == ClockColor(t2, false) <==>
            t1.hour % 12 == t2.hour % 12 && t1.min == t2.min && t1.sec == t2.sec
  {
    if ClockColor(t1, false) == ClockColor(t2, false) {
      BcdInjective(Hour12(t1.hour), Hour12(t2.hour));
      BcdInjective(t1.min, t2.min);
      BcdInjective(t1.sec, t2.sec);
    }
  }

  /** The digit string `update_color` formats: `%H%M%S` or `%I%M%S`. */
  function HexFormat(is24h: bool): (f: seq<Directive>)
    ensures |f| == 3 && f[0].Conv? && (f[0].conv == Hour24 <==> is24h)
    ensures !is24h ==> f[0] == Conv(Hour12Clock)
    ensures f[1] == Conv(Minute) && f[2] == Conv(Second)
    ensures Width(f) == 6 && NoNulChar(f)
  {
    var f := [Conv(if is24h then Hour24 else Hour12Clock), Conv(Minute), Conv(Second)];
    assert f[1..][1..][1..] == [];
    assert Width(f[1..][1..]) == 2;
    assert Width(f[1..]) == 4;
    f
  }

  lemma HexDigits(t: Tm, is24h: bool)
    requires ValidTm(t)
    ensures Expand(HexFormat(is24h), t) ==
            TwoDigits(HourField(t, is24h)) + TwoDigits(t.min) + TwoDigits(t.sec)
  {
    var f := HexFormat(is24h);
    assert Expand(f[2..], t) == TwoDigits(t.sec) by {
      assert f[2..][1..] == [];
    }
    assert Expand(f[1..], t) == TwoDigits(t.min) + TwoDigits(t.sec) by {
      assert f[1..][1..] == f[2..];
    }
  }

  /** Reading the six formatted digits in pairs gives the reference colour. */
  lemma HexDigitsGiveClockColor(t: Tm, is24h: bool)
    requires ValidTm(t)
    ensures var s := Expand(HexFormat(is24h), t);
            |s| == 6 &&
            Rgb(Channel(s[0], s[1]), Channel(s[2], s[3]), Channel(s[4], s[5])) == ClockColor(t, is24h)
  {
    HexDigits(t, is24h);
    DigitPairIsBcd(HourField(t, is24h));
    DigitPairIsBcd(t.min);
    DigitPairIsBcd(t.sec);
  }

  /** The worked example `14:05:09` in 24-hour mode. */
  lemma ExampleAfternoon()
    ensures ClockColor(Tm(14, 5, 9, 0, 1), true) == Rgb(20, 5, 9)
  {
  }

  /** `14:05:09` and `02:05:09` show the same colour on the 12-hour clock. */
  lemma ExampleTwelveHour()
    ensures ClockColor(Tm(14, 5, 9, 0, 1), false) == ClockColor(Tm(2, 5, 9, 0, 1), false) == Rgb(2, 5, 9)
  {
  }
}
