/** The accent choice of `update_color`: the brightness score of
    `calcLuminance` over the channel fields of a `GColor`, and the colours the
    watchface pushes to its layers. */
module Luminance {
  import opened TimeFormat
  import opened HexColor

  /** The red, green and blue fields of a `GColor8`: two bits each on the
      platform (alpha is not read by the watchface). */
  datatype GColor = GColor(r: int, g: int, b: int)

  predicate TwoBitFields(c: GColor) {
    0 <= c.r <= 3 && 0 <= c.g <= 3 && 0 <= c.b <= 3
  }

  /** The score `(r+r+b+g+g+g)/6.0` of `calcLuminance`, computed exactly. */
  function Score(c: GColor): (s: real)
    ensures 6.0 * s == (2 * c.r + 3 * c.g + c.b) as real
    ensures TwoBitFields(c) ==> 0.0 <= s <= 3.0
  {
    (c.r + c.r + c.b + c.g + c.g + c.g) as real / 6.0
  }

  /** The threshold the score is compared with. */
  const Threshold: real := 1.9

  /** The integer form of `Score(c) >= 1.9`. */
  predicate Bright(c: GColor) {
    2 * c.r + 3 * c.g + c.b >= 12
  }

  /** The integer test and the score comparison agree on every colour. */
  lemma BrightIffScore(c: GColor)
    ensures Bright(c) <==> Score(c) >= Threshold
  {
    var s := c.r + c.r + c.b + c.g + c.g + c.g;
    if s >= 12 {
      assert s as real >= 12.0;
    } else {
      assert s <= 11;
      assert s as real <= 11.0;
    }
  }

  /** What a layer's colour can be set to. `Unset` stands for whatever the layer
      held before `update_color` first ran. */
  datatype Color = Unset | DarkGray | White | Of(c: GColor)

  /** The accent for a background: dark gray on bright backgrounds, white
      otherwise. */
  function Accent(c: GColor): (a: Color)
    ensures a == DarkGray || a == White
    ensures a == DarkGray <==> Score(c) >= Threshold
  {
    BrightIffScore(c);
    if Bright(c) then DarkGray else White
  }

  /** `GColorFromRGB` under the stated assumption that it keeps the top two bits
      of each channel after conversion to an unsigned byte. */
  function TopTwoBits(red: int, green: int, blue: int): (c: GColor)
    ensures TwoBitFields(c)
  {
    GColor((red % 256) / 64, (green % 256) / 64, (blue % 256) / 64)
  }

  /** Under that assumption no time of day makes the background bright: the
      sum `2r + 3g + b` never exceeds 4, so the accent is always white. */
  lemma AccentAlwaysWhite(t: Tm, is24h: bool)
    requires ValidTm(t)
    ensures var rgb := ClockColor(t, is24h);
            var c := TopTwoBits(rgb.r, rgb.g, rgb.b);
            2 * c.r + 3 * c.g + c.b <= 4 && Accent(c) == White
  {
    var rgb := ClockColor(t, is24h);
    ClockColorBounds(t, is24h);
    TopBitsOfSmall(rgb.r);
    TopBitsOfSmall(rgb.g);
    TopBitsOfSmall(rgb.b);
    var c := TopTwoBits(rgb.r, rgb.g, rgb.b);
    assert c.r == 0 && c.g <= 1 && c.b <= 1;
    BrightIffScore(c);
  }

  /** The top two bits of a byte below 128. */
  lemma TopBitsOfSmall(x: int)
    requires 0 <= x < 128
    ensures (x % 256) / 64 == (if x < 64 then 0 else 1)
  {
  }
}
