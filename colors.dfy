/** code/utils/colors.py: an RGB colour, blending between two colours,
    scaling brightness, and the rainbow colour wheel over 0..255. */
module Colors {
  import opened Text

  /** Color(r, g, b); its fields are only ever set by the constructor. */
  datatype Color = Color(r: int, g: int, b: int)

  const LedOff := Color(0, 0, 0)
  const LedWhite := Color(255, 255, 255)
  const Green := Color(0, 125, 0)

  /** rgb_list */
  function RgbList(c: Color): (rgb: seq<int>)
    ensures |rgb| == 3
  {
    [c.r, c.g, c.b]
  }

  /** to_color(rgb): the first three entries of a list. */
  function ToColor(rgb: seq<int>): Color
    requires |rgb| >= 3
  {
    Color(rgb[0], rgb[1], rgb[2])
  }

  lemma ToColorRgbList(c: Color)
    ensures ToColor(RgbList(c)) == c
    ensures RgbList(ToColor(RgbList(c))) == RgbList(c)
  {
  }

  /** _lerp(a, b, r) = a + (b - a) * r */
  function Lerp(a: real, b: real, r: real): (v: real)
    ensures r == 0.0 ==> v == a
    ensures r == 1.0 ==> v == b
  {
    a + (b - a) * r
  }

  /** For 0 <= r <= 1 the interpolated value lies between a and b. */
  lemma LerpBetween(a: real, b: real, r: real)
    requires 0.0 <= r <= 1.0
    ensures a <= b ==> a <= Lerp(a, b, r) <= b
    ensures b <= a ==> b <= Lerp(a, b, r) <= a
  {
    var d := b - a;
    var p := d * r;
    assert Lerp(a, b, r) == a + p;
    if d >= 0.0 {
      ScaledWithin(d, r);
    } else {
      ScaledWithin(-d, r);
      assert (-d) * r == -p;
    }
  }

  /** to_blended_color: each component int() of the interpolation. */
  function ToBlendedColor(rgb1: seq<int>, rgb2: seq<int>, r: real): Color
    requires |rgb1| >= 3 && |rgb2| >= 3
  {
    Color(Trunc(Lerp(rgb1[0] as real, rgb2[0] as real, r)),
          Trunc(Lerp(rgb1[1] as real, rgb2[1] as real, r)),
          Trunc(Lerp(rgb1[2] as real, rgb2[2] as real, r)))
  }

  /** The blend starts at the first colour and ends at the second. */
  lemma BlendEnds(rgb1: seq<int>, rgb2: seq<int>)
    requires |rgb1| >= 3 && |rgb2| >= 3
    ensures ToBlendedColor(rgb1, rgb2, 0.0) == ToColor(rgb1)
    ensures ToBlendedColor(rgb1, rgb2, 1.0) == ToColor(rgb2)
  {
    TruncOfInteger(rgb1[0]);
    TruncOfInteger(rgb1[1]);
    TruncOfInteger(rgb1[2]);
    TruncOfInteger(rgb2[0]);
    TruncOfInteger(rgb2[1]);
    TruncOfInteger(rgb2[2]);
  }

  /** A non-negative amount scaled by a factor in [0, 1] stays between 0
      and the amount. */
  lemma ScaledWithin(d: real, r: real)
    requires d >= 0.0 && 0.0 <= r <= 1.0
    ensures 0.0 <= d * r <= d
  {
    if d > 0.0 && r > 0.0 {
      assert d * r > 0.0;
    }
    if d > 0.0 && r < 1.0 {
      assert d * (1.0 - r) > 0.0;
      assert d - d * r == d * (1.0 - r);
    }
  }

  /** int() of a value between two integers stays between them. */
  lemma TruncBetween(lo: int, hi: int, v: real)
    requires lo as real <= v <= hi as real
    ensures lo <= Trunc(v) <= hi
  {
  }

  predicate ComponentBetween(v: int, a: int, b: int)
  {
    (a <= v <= b) || (b <= v <= a)
  }

  /** For 0 <= r <= 1 each blended component lies between the two
      colours' components. */
  lemma BlendBetween(rgb1: seq<int>, rgb2: seq<int>, r: real)
    requires |rgb1| >= 3 && |rgb2| >= 3 && 0.0 <= r <= 1.0
    ensures var c := ToBlendedColor(rgb1, rgb2, r);
      ComponentBetween(c.r, rgb1[0], rgb2[0]) && ComponentBetween(c.g, rgb1[1], rgb2[1]) && ComponentBetween(c.b, rgb1[2], rgb2[2])
  {
    forall i | 0 <= i < 3
      ensures ComponentBetween(Trunc(Lerp(rgb1[i] as real, rgb2[i] as real, r)), rgb1[i], rgb2[i])
    {
      LerpBetween(rgb1[i] as real, rgb2[i] as real, r);
      if rgb1[i] <= rgb2[i] {
        TruncBetween(rgb1[i], rgb2[i], Lerp(rgb1[i] as real, rgb2[i] as real, r));
      } else {
        TruncBetween(rgb2[i], rgb1[i], Lerp(rgb1[i] as real, rgb2[i] as real, r));
      }
    }
  }

  /** adjust_brightness: each component scaled and truncated. */
  function AdjustBrightness(c: Color, brightness: real): (d: Color)
    ensures brightness == 1.0 ==> d == c
    ensures brightness == 0.0 ==> d == LedOff
  {
    TruncOfInteger(c.r);
    TruncOfInteger(c.g);
    TruncOfInteger(c.b);
    Color(Trunc(c.r as real * brightness), Trunc(c.g as real * brightness), Trunc(c.b as real * brightness))
  }

  /** Dimming a colour with non-negative components keeps every component
      between 0 and its old value. */
  lemma DimmingBounds(c: Color, brightness: real)
    requires 0.0 <= brightness <= 1.0 && c.r >= 0 && c.g >= 0 && c.b >= 0
    ensures var d := AdjustBrightness(c, brightness);
      0 <= d.r <= c.r && 0 <= d.g <= c.g && 0 <= d.b <= c.b
  {
    ComponentDims(c.r, brightness);
    ComponentDims(c.g, brightness);
    ComponentDims(c.b, brightness);
  }

  lemma ComponentDims(v: int, brightness: real)
    requires 0.0 <= brightness <= 1.0 && v >= 0
    ensures 0 <= Trunc(v as real * brightness) <= v
  {
    ScaledWithin(v as real, brightness);
    TruncBetween(0, v, v as real * brightness);
  }

  /** wheel(pos): red rises as green falls over 0..84, then blue rises as
      red falls over 85..169, then green rises as blue falls. The position
      is truncated with int() first. */
  function Wheel(pos: real): Color
  {
    var p := Trunc(pos);
    if p < 85 then Color(p * 3, 255 - p * 3, 0)
    else if p < 170 then Color(255 - (p - 85) * 3, 0, (p - 85) * 3)
    else Color(0, (p - 170) * 3, 255 - (p - 170) * 3)
  }

  /** Over positions 0..255 every component is in 0..255 and the three sum
      to 255. */
  lemma WheelRange(pos: real)
    requires 0.0 <= pos < 256.0
    ensures var c := Wheel(pos);
      && 0 <= c.r <= 255 && 0 <= c.g <= 255 && 0 <= c.b <= 255
      && c.r + c.g + c.b == 255
  {
  }

  lemma WheelPoints()
    ensures Wheel(0.0) == Color(0, 255, 0)
    ensures Wheel(85.0) == Color(255, 0, 0)
    ensures Wheel(170.0) == Color(0, 0, 255)
  {
    TruncOfInteger(85);
    TruncOfInteger(170);
  }

  /** Only the integer part of the position matters. */
  lemma WheelTruncates(pos: real)
    ensures Wheel(pos) == Wheel(Trunc(pos) as real)
  {
    TruncOfInteger(Trunc(pos));
  }
}
