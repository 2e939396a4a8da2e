# hexwatch: time-as-colour watchface, modelled in Dafny

hexwatch is a watchface. Once a second it shows the time, the date and the
battery level, and it paints the screen with a colour taken from the time
itself. The digits `HHMMSS` (`IIMMSS` on a 12-hour clock) are read as the hex
colour `#HHMMSS`. Each colour channel is therefore one clock field in
binary-coded decimal (BCD): 14:05:09 gives red 0x14 = 20, green 5, blue 9.

The hour, minute and second text and the date background get an accent colour.
It is dark gray when the brightness score `(r+r+b+g+g+g)/6.0` of the
background's `GColor` is at least 1.9, and white otherwise.

The model covers the four pieces of `src/main.c` that compute something:
`update_color`, `calcLuminance`, `battery_handler` and `update_time`. Its parts:

- `CString` (cstring.dfy): NUL-terminated text in `char` buffers, decimal
  digits, the `%d` numeral and two-digit zero padding. Each comes with its parse
  as a partner, and round trips are proved.
- `TimeFormat` (strftime.dfy): the `tm` fields with their ISO C ranges. Also the
  conversions `%H %I %M %S %m %d` and the size rule of `strftime` from section
  7.27.3.5 of ISO C11: output that does not fit `maxsize` with its NUL returns
  zero.
- `Snprintf` (snprintf.dfy): the truncation rule of `snprintf` from section
  7.21.6.5 of ISO C11. At most `n-1` characters are stored, then a NUL, and the
  return value is the full length.
- `HexColor` (hexcolor.dfy): a digit pair read as nibbles, BCD as the reference
  definition, channel bounds, injectivity and 12-hour folding.
- `Luminance` (luminance.dfy): the score, computed exactly as a `real`, and its
  integer form `2r+3g+b >= 12`. Also the accent, and the consequence of a
  stated assumption about `GColorFromRGB`.
- `Watchface` (watchface.dfy): a class holding the globals `r_val`, `g_val`,
  `b_val`, the colours pushed to the layers, and the static buffers. The buffers
  are arrays of their C sizes. `UpdateColor`, `UpdateTime` and `BatteryHandler`
  change that state in place.

Some calls reach the platform and are not modelled:

- `GColorFromRGB` is a function parameter of `UpdateColor`.
- The 12/24-hour setting (`clock_is_24h_style`) is a boolean parameter.
- The time from `time`/`localtime` is a `Tm` value.
- The charge from the battery service is an integer.
- `text_layer_set_text` is modelled by the functions `HourText`, `DateText`,
  and so on. Each reads the text stored in the layer's buffer.

Under the stated assumption that `GColorFromRGB` keeps the top two bits of each
byte (`TopTwoBits`), the quantised red is 0 and green and blue are at most 1.
The sum `2r+3g+b` therefore never exceeds 4, and the accent is always white
(`AccentAlwaysWhite`). The dark-gray branch is reachable only through some other
`GColorFromRGB`.

Two points about the code are easy to misread:

- The score is computed on the 2-bit fields of the `GColor` built from the
  channels (src/main.c:98-100, 139), not on the channel values (0..153).
- The channels never cover 0..153. Red is at most 35 (1..9 or 16..18 on a
  12-hour clock), green at most 89, blue at most 96.

## Model

| member | source | states |
|---|---|---|
| `CString.Text` | src/main.c:178-181 | what a text layer shows: the longest NUL-free prefix of its buffer, followed by the NUL or the end of the buffer |
| `CString.Store` | src/main.c:93 | the buffer after a store: the output, then a NUL, then the old characters unchanged |
| `CString.WriteText` | src/main.c:93 | writing into an array leaves it equal to `Store` of its old contents |
| `CString.TextOfStore` | src/main.c:92-94 | a NUL-free string stored with its terminator reads back exactly |
| `CString.NatToDecimal` | src/main.c:93 | the `%d` numeral of a non-negative value: digits only, with a leading zero exactly for 0 |
| `CString.DecimalRoundTrip` | src/main.c:93 | parsing the numeral of `n` gives back `n` |
| `CString.DecimalInjective` | src/main.c:93 | distinct values have distinct numerals |
| `CString.DecimalLength` | src/main.c:92-93 | one digit exactly below 10, at most two exactly below 100, at most three exactly below 1000 |
| `CString.IntToDecimal` | src/main.c:93 | the `%d` text of any int, with a leading `-` exactly for negative values |
| `CString.IntRoundTrip` | src/main.c:93 | parsing the `%d` text of `x` gives back `x` |
| `CString.TwoDigits` | src/main.c:115-118 | a two-digit conversion prints exactly two decimal digits whose value is the field |
| `CString.TwoDigitsPadsNumeral` | src/main.c:173-175 | two-digit output is the numeral zero-padded to width 2 |
| `CString.TwoDigitsInjective` | src/main.c:115-118 | distinct fields print differently |
| `TimeFormat.Hour12` | src/main.c:118 | the `%I` hour lies in 1..12 and is congruent to the hour mod 12: 0 shows as 12, 1..12 as themselves, 13..23 as hour-12 |
| `TimeFormat.Field` | src/main.c:167-175 | every conversion prints a value below 100: `%H` the hour, `%I` the 12-hour hour (1..12, congruent mod 12), `%M` the minute, `%S` the second, `%m` `tm_mon + 1` in 1..12, `%d` the day |
| `TimeFormat.Expand` | src/main.c:115-118 | the expansion's length is fixed by the format: one per ordinary character, two per conversion |
| `TimeFormat.ExpandHasNoNul` | src/main.c:167-175 | the formats used expand to NUL-free text |
| `TimeFormat.Strftime` | src/main.c:115 | the call succeeds exactly when the width plus the NUL fits `maxsize`; it then yields the expansion |
| `TimeFormat.StrftimeInto` | src/main.c:167-175 | on success the buffer holds the expansion and a NUL, and the return value is its length; otherwise it returns 0 |
| `Snprintf.SnprintfOutput` | src/main.c:93 | the stored text is a prefix of the full text; it is empty for `n = 0`, the whole text if it fits, and `n-1` characters otherwise |
| `Snprintf.SnprintfInto` | src/main.c:93 | returns the full length; leaves the buffer unchanged for `n = 0`, otherwise stores the truncated text and a NUL |
| `Snprintf.PercentText` | src/main.c:93 | `"%d%%"` is the `%d` numeral of the argument (`IntToDecimal`) followed by `%`, and the text before the `%` parses back to the argument |
| `HexColor.Channel` | src/main.c:121-123 | the source's `(hi-'0')*16 + (lo-'0')`: on two digits it is `16*hi + lo`, in 0..153, and reading its nibbles as decimal gives the two-digit number |
| `HexColor.DigitPairIsBcd` | src/main.c:121-123 | the source's `(hex[i]-'0')*16 + (hex[i+1]-'0')` on a printed field is that field in BCD |
| `HexColor.BcdRoundTrip` | src/main.c:121-123 | `(c/16)*10 + c%16` recovers the field from its channel |
| `HexColor.BcdInjective` | src/main.c:121-123 | distinct field values give distinct channels |
| `HexColor.BcdMonotone` | src/main.c:121-123 | a later field value gives a strictly larger channel |
| `HexColor.BcdBelow160` | src/main.c:121-123 | every channel lies in 0..153, below 160, so it fits a byte |
| `HexColor.HourField` | src/main.c:113-119 | the red digits come from the 24-hour hour, or the 12-hour hour when the 24-hour style is off |
| `HexColor.ClockColorBounds` | src/main.c:113-123 | red is at most 35 in 24-hour mode and in 1..9 or 16..18 otherwise; green is at most 89, blue at most 96; all are below 160 |
| `HexColor.TwelveHourRedReached` | src/main.c:118-121 | every red value in 1..9 and 16..18 is shown at some 12-hour hour |
| `HexColor.ClockColorInjective24` | src/main.c:115-123 | in 24-hour mode the colour determines hour, minute and second |
| `HexColor.ClockColorTwelveHour` | src/main.c:118-123 | in 12-hour mode two times share a colour exactly when minute, second and hour mod 12 agree |
| `HexColor.HexFormat` | src/main.c:113-119 | the format `%H%M%S` (24-hour) or `%I%M%S`: three conversions, width 6, no NUL |
| `HexColor.HexDigits` | src/main.c:111-119 | the six digits are the hour, minute and second pairs in that order |
| `HexColor.HexDigitsGiveClockColor` | src/main.c:111-123 | the six formatted digits read in pairs give the BCD colour |
| `HexColor.ExampleAfternoon` | src/main.c:115-123 | 14:05:09 in 24-hour mode gives (20, 5, 9) |
| `HexColor.ExampleTwelveHour` | src/main.c:118-123 | 14:05:09 and 02:05:09 both give (2, 5, 9) on a 12-hour clock |
| `Luminance.Score` | src/main.c:97-107 | `calcLuminance`: six times the score is `2r+3g+b`, and for 2-bit fields the score lies in 0..3 |
| `Luminance.BrightIffScore` | src/main.c:97-107 | the integer test `2r+3g+b >= 12` agrees with `(r+r+b+g+g+g)/6.0 >= 1.9` on every colour |
| `Luminance.Accent` | src/main.c:139-150 | the accent is dark gray exactly when the score reaches 1.9, and white otherwise |
| `Luminance.TopTwoBits` | src/main.c:131 | the assumed `GColorFromRGB` yields 2-bit fields |
| `Luminance.AccentAlwaysWhite` | src/main.c:131-150 | under that assumption `2r+3g+b <= 4` for every valid time, so the accent is white |
| `Watchface.HourFormat` | src/main.c:165-171 | `#%H` in 24-hour style, `#%I` otherwise: width 3, no NUL |
| `Watchface.MinuteFormat` | src/main.c:173 | `%M`: width 2 |
| `Watchface.SecondFormat` | src/main.c:174 | `%S`: width 2 |
| `Watchface.DateFormat` | src/main.c:175 | `%m.%d`: width 5, the dot between the month and the day |
| `Watchface.LabelsReadBack` | src/main.c:159-175 | the hour label is `#` and two digits that read back as the selected hour (0..23 or 1..12); the date label is `MM.DD` with month `tm_mon+1` in 1..12 and the day |
| `Watchface.DisplayFormatsFit` | src/main.c:115-175 | every `strftime` call's output plus NUL exactly fills the size passed, so none returns 0, and each yields its label |
| `Watchface.BatteryText` | src/main.c:92-93 | the battery text is at most 3 characters and is a prefix of the `"%d%%"` text |
| `Watchface.BatteryTextBelow100` | src/main.c:92-93 | for 0..99 the battery text is the numeral followed by `%` |
| `Watchface.BatteryTextTruncated` | src/main.c:92-93 | from 100 upwards only the first three digits remain, with no `%` |
| `Watchface.BatteryTextFull` | src/main.c:92-93 | a full charge shows `100` |
| `Watchface.BatteryTextExample` | src/main.c:92-93 | 42 shows `42%` |
| `Watchface.HexChannels` | src/main.c:111-123 | formatting into the local 7-character `hex` buffer and reading the digit pairs gives the BCD colour of the time |
| `Watchface.NewBuffer` | src/main.c:92 | a `static char b[] = "..."` array: the initialiser followed by its NUL (also src/main.c:111, 159-162) |
| `Watchface.Watchface.HourText` | src/main.c:178 | the hour layer shows its hour buffer up to the first NUL: a NUL-free prefix followed by the NUL or the end of the buffer |
| `Watchface.Watchface.MinuteText` | src/main.c:179 | the minute layer shows its minute buffer up to the first NUL: a NUL-free prefix followed by the NUL or the end of the buffer |
| `Watchface.Watchface.SecondText` | src/main.c:180 | the second layer shows its second buffer up to the first NUL: a NUL-free prefix followed by the NUL or the end of the buffer |
| `Watchface.Watchface.DateText` | src/main.c:181 | the date layer shows its date buffer up to the first NUL: a NUL-free prefix followed by the NUL or the end of the buffer |
| `Watchface.Watchface.BatteryLayerText` | src/main.c:94 | the battery layer shows its battery buffer up to the first NUL: a NUL-free prefix followed by the NUL or the end of the buffer |
| `Watchface.Watchface.constructor` | src/main.c:79-81 | the channels start at 0; each buffer holds its initialiser and a NUL (src/main.c:92, 159-162) |
| `Watchface.Watchface.BatteryHandler` | src/main.c:90-95 | the battery buffer holds the truncated `"%d%%"` text and a NUL; the battery layer shows that text |
| `Watchface.Watchface.UpdateTime` | src/main.c:153-182 | the four buffers hold their labels and a NUL, filling them exactly; the layers show the labels; the battery buffer is unchanged |
| `Watchface.Watchface.UpdateColor` | src/main.c:109-151 | `(r_val, g_val, b_val)` is the BCD colour of the time; background, date text and battery text all get `GColorFromRGB` of that same triple; hour, minute, second text and date background all get one accent, `Accent` of that colour: dark gray exactly when its score reaches 1.9, white otherwise |

## Left out

- Window, text layer, font and resource creation and destruction, and `layer_add_child` (src/main.c:184-261): these are platform UI calls with no computation of their own.
- `tick_handler`, the tick and battery service subscriptions, `init`, `deinit`, `main` and `app_event_loop` (src/main.c:263-314): this is event wiring driven by the platform. The debug luminance check on `GColorMayGreenARGB8` in `init` only prints, and it uses an SDK constant whose value is not part of this model.
- `layer_update_callback` and `draw_dithered_rect_from_RGB` (src/main.c:83-88): the callback is never installed, and the drawing library is not part of this model.
- The `supportedColors` table (src/main.c:16-77): it is unused, and its entries are SDK constants whose values are not part of this model.
- `printf` logging, and `time`/`localtime`: the time arrives as `Tm` fields.
- `Luminance.BrightIffScore`: compares the score exactly as a `real`. It does not model the `double` division or the conversion to the `float` return type of `calcLuminance`. The integer sums 11 and 12 give 1.83 and 2.0, far enough from 1.9 that rounding cannot change the outcome.
- `GColorFromRGB` is a parameter, because its definition in `pebble.h` is not part of this model. `AccentAlwaysWhite` holds only under the stated top-two-bits assumption.
- `TimeFormat.StrftimeInto`: when the output does not fit, it states only the zero return value. ISO C leaves the array's contents indeterminate in that case, and the watchface never reaches it (`DisplayFormatsFit`).
- `TimeFormat.Strftime` requires the `tm` fields to be in their normal ranges. ISO C leaves the output unspecified otherwise, and `localtime` supplies valid fields.
- The model identifies each text layer with its buffer from construction on (`HourText` and the rest). In the source, window load first sets each layer to a literal, the date layer's being `"0000"` (src/main.c:194-214), and only the calls at src/main.c:248 and 251 make the layers show the buffers; window load is not part of this model.
- A tap-triggered display mode: src/main.c has none, and its single tick subscription is per second (src/main.c:283).
- build/basalt/appinfo.auto.c: a generated application header holding only constants.
