/** Colour algebra of the light controller: linear-intensity RGB triples,
    linear interpolation, per-channel blending, the named colours and the
    rainbow palette. Channels and fractions are exact reals. */
module Color {

  /** A colour: three channels, nominally in [0, 1] but never clamped.
      The constructor plays the part of the program's `rgb(r, g, b)`,
      which returns its triple unchanged. */
  datatype Rgb = Rgb(r: real, g: real, b: real)

  /** Channel k of a colour, in r, g, b order. */
  function Channel(c: Rgb, k: nat): real
    requires k < 3
  {
    if k == 0 then c.r else if k == 1 then c.g else c.b
  }

  /** A channel value that a light can show. */
  predicate InUnit(x: real) { 0.0 <= x <= 1.0 }

  /** Every channel of the colour is in [0, 1]. */
  predicate InGamut(c: Rgb) { InUnit(c.r) && InUnit(c.g) && InUnit(c.b) }

  function Min(a: real, b: real): real { if a <= b then a else b }
  function Max(a: real, b: real): real { if a <= b then b else a }

  /** Linear interpolation from a (f = 0) to b (f = 1); any other f
      extrapolates along the same line. */
  function Lerp(a: real, b: real, f: real): (x: real)
    ensures f == 0.0 ==> x == a
    ensures f == 1.0 ==> x == b
    ensures a == b ==> x == a
    ensures 0.0 <= f <= 1.0 ==> Min(a, b) <= x <= Max(a, b)
  {
    var delta := b - a;
    LerpBetween(a, b, f);
    a + delta * f
  }

  /** The product that makes up the interpolation stays between the end points. */
  lemma LerpBetween(a: real, b: real, f: real)
    ensures 0.0 <= f <= 1.0 ==> Min(a, b) <= a + (b - a) * f <= Max(a, b)
  {
    if 0.0 <= f <= 1.0 {
      if a <= b {
        MulMonotone(b - a, 0.0, f);
        MulMonotone(b - a, f, 1.0);
        assert (b - a) * 0.0 == 0.0 && (b - a) * 1.0 == b - a;
      } else {
        MulMonotone(a - b, 0.0, f);
        MulMonotone(a - b, f, 1.0);
        assert (a - b) * 0.0 == 0.0 && (a - b) * 1.0 == a - b;
        assert (b - a) * f == -((a - b) * f);
      }
    }
  }

  lemma MulMonotone(k: real, f1: real, f2: real)
    requires 0.0 <= k && f1 <= f2
    ensures k * f1 <= k * f2
  {
    assert k * f2 - k * f1 == k * (f2 - f1);
    assert 0.0 <= k * (f2 - f1);
  }

  /** Going further along the fraction never moves back towards a when a <= b. */
  lemma LerpMonotone(a: real, b: real, f1: real, f2: real)
    requires a <= b && f1 <= f2
    ensures Lerp(a, b, f1) <= Lerp(a, b, f2)
  {
    calc {
      Lerp(a, b, f1);
    ==
      a + (b - a) * f1;
    <= { MulMonotone(b - a, f1, f2); }
      a + (b - a) * f2;
    ==
      Lerp(a, b, f2);
    }
  }

  /** Blend two colours channel by channel, by a fraction between
      0 (color1) and 1 (color2). */
  function Blend(color1: Rgb, color2: Rgb, f: real): (c: Rgb)
    ensures f == 0.0 ==> c == color1
    ensures f == 1.0 ==> c == color2
    ensures color1 == color2 ==> c == color1
    ensures InGamut(color1) && InGamut(color2) && 0.0 <= f <= 1.0 ==> InGamut(c)
  {
    var red := Lerp(color1.r, color2.r, f);
    var green := Lerp(color1.g, color2.g, f);
    var blue := Lerp(color1.b, color2.b, f);
    Rgb(red, green, blue)
  }

  /** Blending treats each channel on its own: channel k of the blend is
      the interpolation of the two channels k with the same fraction. */
  lemma BlendPerChannel(color1: Rgb, color2: Rgb, f: real, k: nat)
    requires k < 3
    ensures Channel(Blend(color1, color2, f), k) == Lerp(Channel(color1, k), Channel(color2, k), f)
  {
  }

  /** Each channel of a blend moves monotonically with the fraction towards
      the channel of color2 when that channel is the larger. */
  lemma BlendMonotone(color1: Rgb, color2: Rgb, f1: real, f2: real, k: nat)
    requires k < 3 && f1 <= f2
    requires Channel(color1, k) <= Channel(color2, k)
    ensures Channel(Blend(color1, color2, f1), k) <= Channel(Blend(color1, color2, f2), k)
  {
    BlendPerChannel(color1, color2, f1, k);
    BlendPerChannel(color1, color2, f2, k);
    LerpMonotone(Channel(color1, k), Channel(color2, k), f1, f2);
  }

  const Red    := Rgb(1.0, 0.0, 0.0)
  const Green  := Rgb(0.0, 1.0, 0.0)
  const Blue   := Rgb(0.0, 0.0, 1.0)
  const Yellow := Rgb(1.0, 1.0, 0.0)
  const Cyan   := Rgb(0.0, 1.0, 1.0)
  const Purple := Rgb(1.0, 0.0, 1.0)
  const Black  := Rgb(0.0, 0.0, 0.0)
  const White  := Rgb(1.0, 1.0, 1.0)

  /** The named colours are all in gamut, so all of them make packets;
      blending black into white goes through grey. */
  lemma NamedColors()
    ensures InGamut(Red) && InGamut(Green) && InGamut(Blue) && InGamut(Yellow)
    ensures InGamut(Cyan) && InGamut(Purple) && InGamut(Black) && InGamut(White)
    ensures Blend(Black, White, 0.5) == Rgb(0.5, 0.5, 0.5)
  {
  }

  /** The colour-space conversion the rainbow is built with; only its
      signature is part of this model. */
  type HsvToRgb = (real, real, real) -> Rgb

  /** Hue of entry x of an n-entry rainbow. */
  function RainbowHue(n: int, x: int): real
    requires 0 < n
  {
    x as real / n as real
  }

  /** Value (brightness) of entry x: the luminosity divided by x + 1. */
  function RainbowValue(luminosity: real, x: nat): real
  {
    luminosity / (x as real + 1.0)
  }

  /** A palette of n colours around the HSV colour wheel, one per strand:
      entry x has hue x/n, the given saturation and value luminosity/(x+1).
      A count of zero or less gives the empty palette. */
  function RainbowPalette(hsv: HsvToRgb, n: int, saturation: real, luminosity: real): (p: seq<Rgb>)
    ensures |p| == if n <= 0 then 0 else n
    ensures forall x :: 0 <= x < |p| ==> p[x] == hsv(RainbowHue(n, x), saturation, RainbowValue(luminosity, x))
  {
    if n <= 0 then []
    else seq(n, x requires 0 <= x < n => hsv(RainbowHue(n, x), saturation, RainbowValue(luminosity, x)))
  }

  /** Every hue of an n-entry rainbow lies in [0, 1), and the first is 0. */
  lemma RainbowHueRange(n: int, x: int)
    requires 0 < n && 0 <= x < n
    ensures RainbowHue(n, 0) == 0.0
    ensures 0.0 <= RainbowHue(n, x) < 1.0
  {
    var m := n as real;
    assert RainbowHue(n, x) < 1.0 by {
      assert x as real < m;
    }
  }

  /** The hues of an n-entry rainbow go up strictly, in equal steps of 1/n,
      so no two entries share a hue. */
  lemma RainbowHuesEvenlySpaced(n: int, x: int, y: int)
    requires 0 < n && 0 <= x < y < n
    ensures RainbowHue(n, x) < RainbowHue(n, y)
    ensures RainbowHue(n, x + 1) - RainbowHue(n, x) == 1.0 / n as real
  {
    var m := n as real;
    assert RainbowHue(n, x + 1) - RainbowHue(n, x) == 1.0 / m by {
      assert (x + 1) as real / m == x as real / m + 1.0 / m;
    }
    assert RainbowHue(n, x) < RainbowHue(n, y) by {
      assert RainbowHue(n, y) - RainbowHue(n, x) == (y - x) as real / m;
    }
  }

  /** A one-colour rainbow is the conversion of hue 0 at full luminosity. */
  lemma RainbowSingle(hsv: HsvToRgb, saturation: real, luminosity: real)
    ensures RainbowPalette(hsv, 1, saturation, luminosity) == [hsv(0.0, saturation, luminosity)]
  {
    var p := RainbowPalette(hsv, 1, saturation, luminosity);
    assert p[0] == hsv(RainbowHue(1, 0), saturation, RainbowValue(luminosity, 0));
  }

  /** For a positive luminosity the value dims strictly along the palette. */
  lemma RainbowValueDims(luminosity: real, x: nat, y: nat)
    requires 0.0 < luminosity && x < y
    ensures 0.0 < RainbowValue(luminosity, y) < RainbowValue(luminosity, x) <= luminosity
  {
    DivAntitone(luminosity, 1.0, x as real + 1.0);
    DivAntitone(luminosity, x as real + 1.0, y as real + 1.0);
    assert luminosity / 1.0 == luminosity;
  }

  /** Dividing a positive number by a larger divisor gives a smaller positive quotient. */
  lemma DivAntitone(l: real, d1: real, d2: real)
    requires 0.0 < l && 0.0 < d1 <= d2
    ensures 0.0 < l / d2 <= l / d1
    ensures d1 < d2 ==> l / d2 < l / d1
  {
    var q1, q2 := l / d1, l / d2;
    assert q1 * d1 == l && q2 * d2 == l;
    assert 0.0 < q2 by {
      if q2 <= 0.0 {
        MulMonotone(d2, q2, 0.0);
        assert false;
      }
    }
    assert q2 * d1 <= q2 * d2 by { MulMonotone(q2, d1, d2); }
    if q1 < q2 {
      StrictMul(d1, q1, q2);
      assert false;
    }
    if d1 < d2 && q1 == q2 {
      StrictMul(q2, d1, d2);
      assert false;
    }
  }

  lemma StrictMul(k: real, f1: real, f2: real)
    requires 0.0 < k && f1 < f2
    ensures k * f1 < k * f2
  {
    assert k * f2 - k * f1 == k * (f2 - f1);
    assert 0.0 < k * (f2 - f1);
  }
}
