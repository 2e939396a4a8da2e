/** The watchface's state and its three update steps: `update_color` (colour
    channels and layer colours), `update_time` (time and date labels) and
    `battery_handler` (battery label). The static `char` buffers are arrays of
    their C sizes; a text layer shows the text stored in its buffer. */
module Watchface {
  import opened CString
  import opened TimeFormat
  import opened Snprintf
  import opened HexColor
  import opened Luminance

  // ---- the formats and the labels they produce ----

  /** `"#%H"` in 24-hour mode, `"#%I"` otherwise, into `sizeof("#00")` == 4. */
  function HourFormat(is24h: bool): (f: seq<Directive>)
    ensures |f| == 2 && f[0] == Char('#') && f[1].Conv? && (f[1].conv == Hour24 <==> is24h)
    ensures !is24h ==> f[1] == Conv(Hour12Clock)
    ensures Width(f) == 3 && NoNulChar(f)
  {
    var f := [Char('#'), Conv(if is24h then Hour24 else Hour12Clock)];
    assert f[1..][1..] == [];
    assert Width(f[1..]) == DirectiveWidth(f[1]) == 2;
    f
  }

  /** `"%M"` and `"%S"`, each into `sizeof("00")` == 3. */
  function MinuteFormat(): (f: seq<Directive>)
    ensures Width(f) == 2 && NoNulChar(f) && f == [Conv(Minute)]
  {
    [Conv(Minute)]
  }

  function SecondFormat(): (f: seq<Directive>)
    ensures Width(f) == 2 && NoNulChar(f) && f == [Conv(Second)]
  {
    [Conv(Second)]
  }

  /** `"%m.%d"` into `sizeof("00.00")` == 6. */
  function DateFormat(): (f: seq<Directive>)
    ensures |f| == 3 && f[0] == Conv(Month) && f[1] == Char('.') && f[2] == Conv(MonthDay)
    ensures Width(f) == 5 && NoNulChar(f)
  {
    var f := [Conv(Month), Char('.'), Conv(MonthDay)];
    assert f[1..][1..][1..] == [];
    f
  }

  /** Reference labels: `#` and the two-digit hour; the month (`tm_mon + 1`),
      a dot and the day of the month. */
  function HourLabel(t: Tm, is24h: bool): string
    requires ValidTm(t)
  {
    "#" + TwoDigits(HourField(t, is24h))
  }

  function DateLabel(t: Tm): string
    requires ValidTm(t)
  {
    TwoDigits(t.mon + 1) + "." + TwoDigits(t.mday)
  }

  /** What the labels say: the hour of the selected clock, the calendar month
      and the day, each readable back as a number. */
  lemma LabelsReadBack(t: Tm, is24h: bool)
    requires ValidTm(t)
    ensures var h := HourLabel(t, is24h);
            |h| == 3 && h[0] == '#' && AllDigits(h[1..]) && ParseDecimal(h[1..]) == HourField(t, is24h)
    ensures is24h ==> ParseDecimal(HourLabel(t, is24h)[1..]) <= 23
    ensures !is24h ==> 1 <= ParseDecimal(HourLabel(t, is24h)[1..]) <= 12
    ensures var d := DateLabel(t);
            |d| == 5 && d[2] == '.' && AllDigits(d[..2]) && AllDigits(d[3..]) &&
            ParseDecimal(d[..2]) == t.mon + 1 && 1 <= ParseDecimal(d[..2]) <= 12 &&
            ParseDecimal(d[3..]) == t.mday
  {
    var h := HourLabel(t, is24h);
    assert h[1..] == TwoDigits(HourField(t, is24h));
    var d := DateLabel(t);
    assert d[..2] == TwoDigits(t.mon + 1);
    assert d[3..] == TwoDigits(t.mday);
  }

  /** Every `strftime` call of the watchface fits its buffer exactly
      (characters plus NUL equal the size passed), so none returns zero. */
  lemma DisplayFormatsFit(t: Tm, is24h: bool)
    requires ValidTm(t)
    ensures Width(HexFormat(is24h)) == 7 - 1 && Strftime(7, HexFormat(is24h), t).Some?
    ensures Width(HourFormat(is24h)) == 4 - 1 && Strftime(4, HourFormat(is24h), t) == Some(HourLabel(t, is24h))
    ensures Width(MinuteFormat()) == 3 - 1 && Strftime(3, MinuteFormat(), t) == Some(TwoDigits(t.min))
    ensures Width(SecondFormat()) == 3 - 1 && Strftime(3, SecondFormat(), t) == Some(TwoDigits(t.sec))
    ensures Width(DateFormat()) == 6 - 1 && Strftime(6, DateFormat(), t) == Some(DateLabel(t))
  {
    HexDigits(t, is24h);
    var hf := HourFormat(is24h);
    assert Expand(hf, t) == HourLabel(t, is24h) by {
      assert hf[1..][1..] == [];
    }
    assert MinuteFormat()[1..] == [] && SecondFormat()[1..] == [];
    SingleConversion(Minute, t);
    SingleConversion(Second, t);
    var df := DateFormat();
    assert Expand(df, t) == DateLabel(t) by {
      assert df[1..][1..][1..] == [];
      assert Expand(df[1..], t) == "." + TwoDigits(t.mday) by {
        assert Expand(df[1..][1..], t) == TwoDigits(t.mday);
      }
    }
  }

  lemma SingleConversion(c: Conversion, t: Tm)
    requires ValidTm(t)
    ensures Width([Conv(c)]) == 2 && Expand([Conv(c)], t) == TwoDigits(Field(c, t))
  {
    assert [Conv(c)][1..] == [];
  }

  /** The text `snprintf(buf, 4, "%d%%", p)` leaves in the battery buffer. */
  function BatteryText(p: int): (s: string)
    ensures |s| <= 3 && |s| <= |PercentText(p)| && s == PercentText(p)[..|s|]
  {
    SnprintfOutput(4, PercentText(p))
  }

  /** A percentage below 100 is shown with its percent sign. */
  lemma BatteryTextBelow100(p: int)
    requires 0 <= p <= 99
    ensures BatteryText(p) == NatToDecimal(p) + "%"
  {
    DecimalLength(p);
  }

  /** From 100 up the percent sign and any fourth digit are cut off: the buffer
      holds the first three digits only. */
  lemma BatteryTextTruncated(p: int)
    requires p >= 100
    ensures |NatToDecimal(p)| >= 3 && BatteryText(p) == NatToDecimal(p)[..3] && '%' !in BatteryText(p)
  {
    DecimalLength(p);
    assert PercentText(p)[..3] == NatToDecimal(p)[..3];
  }

  lemma BatteryTextFull()
    ensures BatteryText(100) == "100"
  {
    BatteryTextTruncated(100);
  }

  lemma BatteryTextExample()
    ensures BatteryText(42) == "42%"
  {
    BatteryTextBelow100(42);
  }

  /** A buffer holding the six digits of `HexFormat` yields the reference
      colour when read in pairs. */
  lemma ChannelsOfBuffer(hex: seq<char>, t: Tm, is24h: bool)
    requires ValidTm(t) && |hex| >= 6 && hex[..6] == Expand(HexFormat(is24h), t)
    ensures Rgb(Channel(hex[0], hex[1]), Channel(hex[2], hex[3]), Channel(hex[4], hex[5])) == ClockColor(t, is24h)
  {
    HexDigitsGiveClockColor(t, is24h);
    assert forall i :: 0 <= i < 6 ==> hex[i] == hex[..6][i];
  }

  /** The first half of `update_color`: `strftime` of `%H%M%S` (or `%I%M%S`)
      into the local `hex` buffer, then each digit pair read as two nibbles. */
  method HexChannels(t: Tm, is24h: bool) returns (r: int, g: int, b: int)
    requires ValidTm(t)
    ensures Rgb(r, g, b) == ClockColor(t, is24h)
  {
    var hex := NewBuffer("000000");
    HexDigitsGiveClockColor(t, is24h);
    var n := StrftimeInto(hex, 7, HexFormat(is24h), t);
    assert hex[..][..6] == Expand(HexFormat(is24h), t);
    ChannelsOfBuffer(hex[..], t, is24h);
    r := Channel(hex[0], hex[1]);
    g := Channel(hex[2], hex[3]);
    b := Channel(hex[4], hex[5]);
  }

  /** A `static char name[] = "init"`: the initialiser and its NUL. */
  method NewBuffer(init: string) returns (a: array<char>)
    ensures fresh(a) && a[..] == init + [NUL]
  {
    a := new char[|init| + 1](i => if 0 <= i < |init| then init[i] else NUL);
  }

  class Watchface {
    /** The globals `r_val`, `g_val`, `b_val`. */
    var rVal: int
    var gVal: int
    var bVal: int

    /** The colours `update_color` pushes: the window background, the date and
        battery text, and the accent of hour, minute, second and date background. */
    var windowBackground: Color
    var dateTextColor: Color
    var batteryTextColor: Color
    var hourTextColor: Color
    var minuteTextColor: Color
    var secondTextColor: Color
    var dateBackground: Color

    /** `bufferHr`, `bufferMin`, `bufferSec`, `bufferDate`, `s_battery_buffer`. */
    const hrBuffer: array<char>
    const minBuffer: array<char>
    const secBuffer: array<char>
    const dateBuffer: array<char>
    const batteryBuffer: array<char>

    ghost predicate Valid()
      reads this
    {
      hrBuffer.Length == 4 && minBuffer.Length == 3 && secBuffer.Length == 3 &&
      dateBuffer.Length == 6 && batteryBuffer.Length == 4 &&
      hrBuffer != minBuffer && hrBuffer != secBuffer && hrBuffer != dateBuffer &&
      hrBuffer != batteryBuffer && minBuffer != secBuffer && minBuffer != dateBuffer &&
      minBuffer != batteryBuffer && secBuffer != dateBuffer && secBuffer != batteryBuffer &&
      dateBuffer != batteryBuffer
    }

    /** What the hour, minute, second, date and battery layers display. */
    function HourText(): (s: string)
      reads this, hrBuffer
      ensures |s| <= hrBuffer.Length && s == hrBuffer[..|s|] && NUL !in s
      ensures |s| < hrBuffer.Length ==> hrBuffer[|s|] == NUL
    {
      Text(hrBuffer[..])
    }

    function MinuteText(): (s: string)
      reads this, minBuffer
      ensures |s| <= minBuffer.Length && s == minBuffer[..|s|] && NUL !in s
      ensures |s| < minBuffer.Length ==> minBuffer[|s|] == NUL
    {
      Text(minBuffer[..])
    }

    function SecondText(): (s: string)
      reads this, secBuffer
      ensures |s| <= secBuffer.Length && s == secBuffer[..|s|] && NUL !in s
      ensures |s| < secBuffer.Length ==> secBuffer[|s|] == NUL
    {
      Text(secBuffer[..])
    }

    function DateText(): (s: string)
      reads this, dateBuffer
      ensures |s| <= dateBuffer.Length && s == dateBuffer[..|s|] && NUL !in s
      ensures |s| < dateBuffer.Length ==> dateBuffer[|s|] == NUL
    {
      Text(dateBuffer[..])
    }

    function BatteryLayerText(): (s: string)
      reads this, batteryBuffer
      ensures |s| <= batteryBuffer.Length && s == batteryBuffer[..|s|] && NUL !in s
      ensures |s| < batteryBuffer.Length ==> batteryBuffer[|s|] == NUL
    {
      Text(batteryBuffer[..])
    }

    /** The program's initial state: the channels zero, the buffers holding their
        initialisers. */
    constructor ()
      ensures Valid()
      ensures fresh(hrBuffer) && fresh(minBuffer) && fresh(secBuffer) && fresh(dateBuffer) && fresh(batteryBuffer)
      ensures rVal == 0 && gVal == 0 && bVal == 0
      ensures hrBuffer[..] == "#00" + [NUL] && minBuffer[..] == "00" + [NUL] && secBuffer[..] == "00" + [NUL]
      ensures dateBuffer[..] == "00.00" + [NUL] && batteryBuffer[..] == "00%" + [NUL]
      ensures windowBackground == dateTextColor == batteryTextColor == Unset
      ensures hourTextColor == minuteTextColor == secondTextColor == dateBackground == Unset
    {
      rVal, gVal, bVal := 0, 0, 0;
      windowBackground, dateTextColor, batteryTextColor := Unset, Unset, Unset;
      hourTextColor, minuteTextColor, secondTextColor, dateBackground := Unset, Unset, Unset, Unset;
      var hr := NewBuffer("#00");
      var min := NewBuffer("00");
      var sec := NewBuffer("00");
      var date := NewBuffer("00.00");
      var battery := NewBuffer("00%");
      hrBuffer, minBuffer, secBuffer, dateBuffer, batteryBuffer := hr, min, sec, date, battery;
    }

    /** `battery_handler`: formats the charge percentage into the battery
        buffer. */
    method BatteryHandler(chargePercent: int)
      requires Valid()
      modifies batteryBuffer
      ensures batteryBuffer[..] == Store(old(batteryBuffer[..]), BatteryText(chargePercent))
      ensures BatteryLayerText() == BatteryText(chargePercent)
    {
      var written := SnprintfInto(batteryBuffer, batteryBuffer.Length, PercentText(chargePercent));
      assert NUL !in BatteryText(chargePercent) by {
        IntRoundTrip(chargePercent);
        assert forall i :: 0 <= i < |BatteryText(chargePercent)| ==>
          BatteryText(chargePercent)[i] == PercentText(chargePercent)[i];
      }
      TextOfStore(old(batteryBuffer[..]), BatteryText(chargePercent));
    }

    /** `update_time`: formats the hour, minute, second and date labels into
        their buffers; each fills its buffer exactly. */
    method UpdateTime(t: Tm, is24h: bool)
      requires Valid() && ValidTm(t)
      modifies hrBuffer, minBuffer, secBuffer, dateBuffer
      ensures hrBuffer[..] == HourLabel(t, is24h) + [NUL]
      ensures minBuffer[..] == TwoDigits(t.min) + [NUL]
      ensures secBuffer[..] == TwoDigits(t.sec) + [NUL]
      ensures dateBuffer[..] == DateLabel(t) + [NUL]
      ensures HourText() == HourLabel(t, is24h) && MinuteText() == TwoDigits(t.min)
      ensures SecondText() == TwoDigits(t.sec) && DateText() == DateLabel(t)
      ensures batteryBuffer[..] == old(batteryBuffer[..])
    {
      DisplayFormatsFit(t, is24h);
      var n := StrftimeInto(hrBuffer, 4, HourFormat(is24h), t);
      n := StrftimeInto(minBuffer, 3, MinuteFormat(), t);
      n := StrftimeInto(secBuffer, 3, SecondFormat(), t);
      n := StrftimeInto(dateBuffer, 6, DateFormat(), t);
      ExpandHasNoNul(HourFormat(is24h), t);
      ExpandHasNoNul(MinuteFormat(), t);
      ExpandHasNoNul(SecondFormat(), t);
      ExpandHasNoNul(DateFormat(), t);
      TextOfStore(hrBuffer[..], HourLabel(t, is24h));
      TextOfStore(minBuffer[..], TwoDigits(t.min));
      TextOfStore(secBuffer[..], TwoDigits(t.sec));
      TextOfStore(dateBuffer[..], DateLabel(t));
      assert hrBuffer[..] == Store(hrBuffer[..], HourLabel(t, is24h));
      assert minBuffer[..] == Store(minBuffer[..], TwoDigits(t.min));
      assert secBuffer[..] == Store(secBuffer[..], TwoDigits(t.sec));
      assert dateBuffer[..] == Store(dateBuffer[..], DateLabel(t));
    }

    /** `update_color`: formats the time as six digits, reads them in pairs as
        the channels, then colours the window background, the date text and the
        battery text from those channels, and the four accent elements dark gray
        or white by the score of that colour. `fromRgb` is the platform's
        `GColorFromRGB`. */
    method UpdateColor(t: Tm, is24h: bool, fromRgb: (int, int, int) -> GColor)
      requires Valid() && ValidTm(t)
      modifies this
      ensures Valid()
      ensures Rgb(rVal, gVal, bVal) == ClockColor(t, is24h)
      ensures windowBackground == Of(fromRgb(rVal, gVal, bVal))
      ensures dateTextColor == windowBackground && batteryTextColor == windowBackground
      ensures hourTextColor == Accent(fromRgb(rVal, gVal, bVal))
      ensures hourTextColor == DarkGray || hourTextColor == White
      ensures hourTextColor == DarkGray <==> Score(fromRgb(rVal, gVal, bVal)) >= Threshold
      ensures minuteTextColor == hourTextColor && secondTextColor == hourTextColor
      ensures dateBackground == hourTextColor
    {
      rVal, gVal, bVal := HexChannels(t, is24h);

      var background := fromRgb(rVal, gVal, bVal);
      windowBackground := Of(background);
      dateTextColor := Of(background);
      batteryTextColor := Of(background);

      var accent := Accent(background);
      hourTextColor := accent;
      minuteTextColor := accent;
      secondTextColor := accent;
      dateBackground := accent;
    }
  }
}
