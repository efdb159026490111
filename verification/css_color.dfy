/**
 * The CSS colour text `rgb(r, g, 0)` that Frontend/route.js and
 * Frontend/utils.js hand to the map, and a reader for it.
 */
module CssColor {
  import opened Base
  import opened Decimal

  /** The CSS colour text `rgb(r, g, 0)`. */
  function Rgb(r: int, g: int): string {
    "rgb(" + (IntToString(r) + (", " + (IntToString(g) + ", 0)")))
  }

  /** The text after `prefix`, when `s` starts with it. */
  function After(s: string, prefix: string): (r: Option<string>)
    ensures r.Some? <==> prefix <= s
    ensures r.Some? ==> r.value == s[|prefix|..]
  {
    if prefix <= s then Some(s[|prefix|..]) else None
  }

  lemma AfterConcat(prefix: string, t: string)
    ensures After(prefix + t, prefix) == Some(t)
  {
    assert (prefix + t)[..|prefix|] == prefix;
    assert (prefix + t)[|prefix|..] == t;
  }

  /** Reads `rgb(r, g, 0)` back into its two channels. */
  function ParseRgb(s: string): Option<(int, int)> {
    match After(s, "rgb(")
    case None => None
    case Some(s1) =>
      match ParseInt(s1)
      case None => None
      case Some((r, s2)) =>
        match After(s2, ", ")
        case None => None
        case Some(s3) =>
          match ParseInt(s3)
          case None => None
          case Some((g, s4)) => if s4 == ", 0)" then Some((r, g)) else None
  }

  /** The colour text carries exactly the two channels it was made of. */
  lemma RgbRoundTrip(r: int, g: int)
    ensures ParseRgb(Rgb(r, g)) == Some((r, g))
  {
    var tail2 := ", 0)";
    var rest2 := IntToString(g) + tail2;
    var tail1 := ", " + rest2;
    var rest1 := IntToString(r) + tail1;
    AfterConcat("rgb(", rest1);
    IntRoundTrip(r, tail1);
    AfterConcat(", ", rest2);
    IntRoundTrip(g, tail2);
  }
}
