/**
 * `interpolateColor` of Frontend/route.js and Frontend/utils.js: a link's
 * intensity, as a share of the largest expected intensity `M`, shades from
 * green to red. route.js defaults `M` to 2, utils.js to 200; both compute
 * the same way. Arithmetic is exact here, except that the division by
 * `M = 0` follows JavaScript: Infinity, NaN or -Infinity.
 */
module Colors {
  import opened Base
  import opened Decimal
  import opened CssColor

  /** The default of `M` in Frontend/route.js. */
  const RouteMax: real := 2.0
  /** The default of `M` in Frontend/utils.js. */
  const UtilsMax: real := 200.0

  /**
   * The red channel: the ratio `intensity / M`, capped at 1, scaled to 255
   * and rounded down. Red is 255 exactly when the cap is reached; below it,
   * red is the largest whole number not above `255 * intensity / M`. With
   * `M = 0` a positive intensity gives the ratio Infinity, capped to 1; an
   * intensity of 0 or less gives NaN or -Infinity, which is no number (None).
   */
  function Red(intensity: real, m: real): (r: Option<int>)
    ensures r.None? <==> m == 0.0 && intensity <= 0.0
    ensures m == 0.0 && intensity > 0.0 ==> r == Some(255)
    ensures m != 0.0 ==> r.Some? && r.value <= 255
    ensures m != 0.0 ==> (r == Some(255) <==> intensity / m >= 1.0)
    ensures m != 0.0 && intensity / m < 1.0 ==>
      r.Some? && r.value as real <= 255.0 * (intensity / m) < (r.value + 1) as real
    ensures intensity >= 0.0 && m > 0.0 ==> r.Some? && 0 <= r.value
  {
    if m == 0.0 then
      if intensity > 0.0 then Some(255) else None
    else
      var rho := intensity / m;
      var capped := if rho < 1.0 then rho else 1.0;
      Some((capped * 255.0).Floor)
  }

  /** The green channel: what red leaves of 255. */
  function Complement(red: int): int {
    255 - red
  }

  /** The colour of a red channel: green is its complement, blue is 0; the text reads back as the two. */
  function ColorOf(red: int): (s: string)
    ensures ParseRgb(s) == Some((red, Complement(red)))
  {
    RgbRoundTrip(red, Complement(red));
    Rgb(red, Complement(red))
  }

  /**
   * The text JavaScript prints for the channels that are no number: NaN
   * stays NaN in `255 - rho`, and -Infinity turns into Infinity.
   */
  function NonFiniteColor(intensity: real): string {
    "rgb(" + NonFiniteChannels(intensity)
  }

  /** What follows `rgb(` in that text. */
  function NonFiniteChannels(intensity: real): string {
    if intensity == 0.0 then "NaN, NaN, 0)" else "-Infinity, Infinity, 0)"
  }

  /** The colour text of a channel that is no number holds no integer channels. */
  lemma NonFiniteUnreadable(intensity: real)
    ensures ParseRgb(NonFiniteColor(intensity)) == None
  {
    var s1 := NonFiniteChannels(intensity);
    AfterConcat("rgb(", s1);
    if intensity == 0.0 {
      assert DigitRun(s1) == 0;
    } else {
      assert DigitRun(s1[1..]) == 0;
    }
  }

  /**
   * `interpolateColor`: the colour text reads back as the red channel and
   * green `255 - red`; where the channel is no number, the text is the one
   * JavaScript prints for it, from which no integer channel can be read
   * (`NonFiniteUnreadable`).
   */
  function InterpolateColor(intensity: real, m: real): (s: string)
    ensures Red(intensity, m).Some? ==>
      ParseRgb(s) == Some((Red(intensity, m).value, Complement(Red(intensity, m).value)))
    ensures Red(intensity, m).None? ==> s == NonFiniteColor(intensity)
  {
    var red := Red(intensity, m);
    if red.Some? then ColorOf(red.value) else NonFiniteColor(intensity)
  }

  /**
   * The colour the browser is given reads back as the red channel and its
   * complement: the two channels always sum to 255.
   */
  lemma ColorCarriesChannels(red: int)
    ensures ParseRgb(ColorOf(red)) == Some((red, Complement(red)))
    ensures ParseRgb(ColorOf(red)).value.0 + ParseRgb(ColorOf(red)).value.1 == 255
  {
    RgbRoundTrip(red, Complement(red));
  }

  /**
   * With route.js's default `M = 2` a link is fully red from intensity 2 on,
   * and with utils.js's `M = 200` from intensity 200 on.
   */
  lemma DefaultMaxima(intensity: real)
    ensures Red(intensity, RouteMax) == Some(255) <==> intensity >= 2.0
    ensures Red(intensity, UtilsMax) == Some(255) <==> intensity >= 200.0
  {
    assert intensity / RouteMax >= 1.0 <==> intensity >= 2.0;
    assert intensity / UtilsMax >= 1.0 <==> intensity >= 200.0;
  }
}
