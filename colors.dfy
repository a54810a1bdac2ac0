/**
 * src/gui/workout_design/visualization/colors.rs: the colour of an effort in the chart. The
 * mean of its starting and ending value, as a share of 500 W capped at 1, points between two
 * neighbouring entries of a 40-entry palette, and the colour is the mean of those two.
 */
module Colors {
  import opened Wrappers
  import opened Efforts

  /** `COLOR_GRADIENT`: from blue through green to red. */
  const ColorGradient: seq<string> := [
    "#0c0af0", "#0d12e7", "#0e1adf", "#0f23d7", "#102bce", "#1134c6", "#123cbe", "#1344b6",
    "#154dad", "#1655a5", "#175e9d", "#186694", "#196e8c", "#1a7784", "#1b7f7c", "#1d8873",
    "#1e906b", "#1f9963", "#20a15b", "#21a952", "#22b24a", "#23ba42", "#25c339", "#26cb31",
    "#27d329", "#28dc21", "#29e418", "#2aed10", "#2bf508", "#2dfe00", "#41e400", "#56cb00",
    "#6bb100", "#809800", "#957f00", "#aa6500", "#bf4c00", "#d43200", "#e91900", "#fe0000"
  ]

  /** `MAX_WATTAGE`: the value from which on the last palette entry is used. */
  const MaxWattage: real := 500.0

  /** `iced::Color`: red, green, blue and alpha channels. */
  datatype Color = Color(r: real, g: real, b: real, a: real)

  /** A channel value `u8 as f32 / 255.0` lies between 0 and 1. */
  predicate UnitChannels(c: Color) {
    0.0 <= c.r <= 1.0 && 0.0 <= c.g <= 1.0 && 0.0 <= c.b <= 1.0 && 0.0 <= c.a <= 1.0
  }

  /** `char::to_digit(16)`. */
  function HexDigitValue(c: char): (d: Option<nat>)
    ensures d.Some? ==> d.value < 16
  {
    if '0' <= c <= '9' then Some(c as nat - '0' as nat)
    else if 'a' <= c <= 'f' then Some(c as nat - 'a' as nat + 10)
    else if 'A' <= c <= 'F' then Some(c as nat - 'A' as nat + 10)
    else None
  }

  /**
   * `u8::from_str_radix(pair, 16)` on two characters: a sign `+` before a single digit is
   * accepted, anything else must be two hexadecimal digits.
   */
  function ParseHexByte(pair: string): (r: Option<nat>)
    requires |pair| == 2
    ensures r.Some? ==> r.value < 256
  {
    if pair[0] == '+' then HexDigitValue(pair[1])
    else
      match (HexDigitValue(pair[0]), HexDigitValue(pair[1]))
      case (Some(high), Some(low)) => Some(16 * high + low)
      case _ => None
  }

  /**
   * `color_from_hex`: the three byte pairs after the first character, each channel the byte
   * over 255, fully opaque. None stands for the panic on a text too short or on a pair that is
   * not a byte.
   */
  function ColorFromHex(hex: string): (c: Option<Color>)
    ensures c.Some? ==> UnitChannels(c.value) && c.value.a == 1.0
    ensures c.Some? <==>
      |hex| >= 7 && ParseHexByte(hex[1..3]).Some? && ParseHexByte(hex[3..5]).Some? && ParseHexByte(hex[5..7]).Some?
  {
    if |hex| < 7 then None
    else
      match (ParseHexByte(hex[1..3]), ParseHexByte(hex[3..5]), ParseHexByte(hex[5..7]))
      case (Some(red), Some(green), Some(blue)) =>
        Some(Color(red as real / 255.0, green as real / 255.0, blue as real / 255.0, 1.0))
      case _ => None
  }

  /** The lower-case hexadecimal digit of a value below 16. */
  function HexDigit(d: nat): (c: char)
    requires d < 16
    ensures HexDigitValue(c) == Some(d)
  {
    if d < 10 then ('0' as nat + d) as char else ('a' as nat + d - 10) as char
  }

  /** A byte as two lower-case hexadecimal digits, the way the palette is written. */
  function HexByte(n: nat): (s: string)
    requires n < 256
    ensures |s| == 2
  {
    [HexDigit(n / 16), HexDigit(n % 16)]
  }

  /** Reading a written byte gives it back. */
  lemma {:induction false} HexByteRoundTrip(n: nat)
    requires n < 256
    ensures ParseHexByte(HexByte(n)) == Some(n)
  {
    assert HexByte(n)[0] != '+';
  }

  /** `#` and the three written bytes read back as the colour of those bytes. */
  lemma {:induction false} ColorFromHexRoundTrip(red: nat, green: nat, blue: nat)
    requires red < 256 && green < 256 && blue < 256
    ensures ColorFromHex("#" + HexByte(red) + HexByte(green) + HexByte(blue))
      == Some(Color(red as real / 255.0, green as real / 255.0, blue as real / 255.0, 1.0))
  {
    var hex := "#" + HexByte(red) + HexByte(green) + HexByte(blue);
    assert hex[1..3] == HexByte(red);
    assert hex[3..5] == HexByte(green);
    assert hex[5..7] == HexByte(blue);
    HexByteRoundTrip(red);
    HexByteRoundTrip(green);
    HexByteRoundTrip(blue);
  }

  /** A lower-case hexadecimal digit. */
  predicate LowerHexDigit(c: char) {
    '0' <= c <= '9' || 'a' <= c <= 'f'
  }

  /** A palette entry: `#` and six lower-case hexadecimal digits. */
  predicate HexColor(s: string) {
    |s| == 7 && s[0] == '#' && LowerHexDigit(s[1]) && LowerHexDigit(s[2]) && LowerHexDigit(s[3])
    && LowerHexDigit(s[4]) && LowerHexDigit(s[5]) && LowerHexDigit(s[6])
  }

  /** A palette entry always reads as a colour. */
  lemma {:induction false} HexColorReads(s: string)
    requires HexColor(s)
    ensures ColorFromHex(s).Some?
  {
    assert s[1..3][0] == s[1] && s[1..3][1] == s[2];
    assert s[3..5][0] == s[3] && s[3..5][1] == s[4];
    assert s[5..7][0] == s[5] && s[5..7][1] == s[6];
  }

  /** Every entry of the palette is written as `#` and six hexadecimal digits. */
  lemma {:induction false} GradientWellFormed()
    ensures |ColorGradient| == 40
    ensures forall i :: 0 <= i < |ColorGradient| ==> HexColor(ColorGradient[i])
  {
  }

  /** `min` on two floats: the second when it is smaller, otherwise the first. */
  function Min(a: real, b: real): (r: real)
    ensures r <= a && r <= b && (r == a || r == b)
  {
    if a > b then b else a
  }

  /** `f64::floor`. */
  function Floor(x: real): (n: int)
    ensures n as real <= x < n as real + 1.0
  {
    x.Floor
  }

  /** `f64::ceil`. */
  function Ceil(x: real): (n: int)
    ensures n as real - 1.0 < x <= n as real
  {
    -((-x).Floor)
  }

  /** `as usize` on a float: negative values saturate to 0. */
  function ToUsize(n: int): (u: nat)
    ensures n >= 0 ==> u == n
    ensures n < 0 ==> u == 0
  {
    if n < 0 then 0 else n
  }

  /** The indices `select_color_string_from_gradients` reads: floor and ceiling of the capped share times 39. */
  function SelectIndices(wattage: real): (r: (nat, nat))
  {
    var percentOfMaxWattage := Min(wattage / MaxWattage, 1.0);
    var maxIndexColorGradient := (|ColorGradient| - 1) as real;
    var position := percentOfMaxWattage * maxIndexColorGradient;
    (ToUsize(Floor(position)), ToUsize(Ceil(position)))
  }

  /** Both indices lie in the palette, the first no later than the second and at most one apart. */
  lemma {:induction false} SelectIndicesInPalette(wattage: real)
    ensures SelectIndices(wattage).0 <= SelectIndices(wattage).1 <= SelectIndices(wattage).0 + 1
    ensures SelectIndices(wattage).1 < |ColorGradient|
  {
    var percent := Min(wattage / MaxWattage, 1.0);
    var position := percent * 39.0;
    assert position <= 39.0;
  }

  /** For a value in 0..500 the indices bracket its place on the palette: floor and ceiling of w/500*39. */
  lemma {:induction false} SelectIndicesBracket(wattage: real)
    requires 0.0 <= wattage <= MaxWattage
    ensures SelectIndices(wattage).0 as real <= wattage / MaxWattage * 39.0 <= SelectIndices(wattage).1 as real
    ensures SelectIndices(wattage).0 == Floor(wattage / MaxWattage * 39.0)
    ensures SelectIndices(wattage).1 == Ceil(wattage / MaxWattage * 39.0)
  {
    assert wattage / MaxWattage <= 1.0;
  }

  /** No value (or a negative one) picks the first entry twice. */
  lemma {:induction false} SelectIndicesAtMost0(wattage: real)
    requires wattage <= 0.0
    ensures SelectIndices(wattage) == (0, 0)
  {
    var position := Min(wattage / MaxWattage, 1.0) * 39.0;
    assert position <= 0.0;
  }

  /** 500 W or more picks the last entry twice. */
  lemma {:induction false} SelectIndicesAtLeastMax(wattage: real)
    requires wattage >= MaxWattage
    ensures SelectIndices(wattage) == (39, 39)
  {
    assert wattage / MaxWattage >= 1.0;
  }

  /** `select_color_string_from_gradients`: the two palette entries around the value. */
  function SelectColorStringFromGradients(wattage: real): (r: (string, string))
    ensures r.0 == ColorGradient[SelectIndices(wattage).0] && r.1 == ColorGradient[SelectIndices(wattage).1]
    ensures HexColor(r.0) && HexColor(r.1)
  {
    SelectIndicesInPalette(wattage);
    GradientWellFormed();
    (ColorGradient[SelectIndices(wattage).0], ColorGradient[SelectIndices(wattage).1])
  }

  /** The samples of the source's tests: 0, 1, 201 and 500 W. */
  lemma {:induction false} SelectColorSamples()
    ensures SelectColorStringFromGradients(0.0) == ("#0c0af0", "#0c0af0")
    ensures SelectColorStringFromGradients(1.0) == ("#0c0af0", "#0d12e7")
    ensures SelectColorStringFromGradients(500.0) == ("#fe0000", "#fe0000")
    ensures SelectColorStringFromGradients(201.0) == ("#1d8873", "#1e906b")
  {
    SelectIndicesAtMost0(0.0);
    SelectIndicesAtLeastMax(500.0);
    SelectIndicesBracket(1.0);
    assert Floor(1.0 / MaxWattage * 39.0) == 0;
    assert Ceil(1.0 / MaxWattage * 39.0) == 1;
    SelectIndicesBracket(201.0);
    assert Floor(201.0 / MaxWattage * 39.0) == 15;
    assert Ceil(201.0 / MaxWattage * 39.0) == 16;
  }

  /** `select_colors_from_gradients`: the two palette colours around the value. */
  function SelectColorsFromGradients(wattage: real): (r: (Color, Color))
    ensures UnitChannels(r.0) && UnitChannels(r.1) && r.0.a == 1.0 && r.1.a == 1.0
    ensures Some(r.0) == ColorFromHex(SelectColorStringFromGradients(wattage).0)
    ensures Some(r.1) == ColorFromHex(SelectColorStringFromGradients(wattage).1)
  {
    var (before, after) := SelectColorStringFromGradients(wattage);
    HexColorReads(before);
    HexColorReads(after);
    (ColorFromHex(before).value, ColorFromHex(after).value)
  }

  /** `interpolate_colors`: the channel-wise mean of two colours. */
  function InterpolateColors(first: Color, second: Color): (c: Color)
  {
    Color((first.r + second.r) / 2.0, (first.g + second.g) / 2.0, (first.b + second.b) / 2.0,
          (first.a + second.a) / 2.0)
  }

  /** The mean lies channel by channel between the two colours, does not depend on their order, and keeps a colour mixed with itself. */
  lemma {:induction false} InterpolateColorsBetween(first: Color, second: Color)
    ensures InterpolateColors(first, second) == InterpolateColors(second, first)
    ensures InterpolateColors(first, first) == first
    ensures var c := InterpolateColors(first, second);
      (first.r <= c.r <= second.r || second.r <= c.r <= first.r)
      && (first.g <= c.g <= second.g || second.g <= c.g <= first.g)
      && (first.b <= c.b <= second.b || second.b <= c.b <= first.b)
      && (first.a <= c.a <= second.a || second.a <= c.a <= first.a)
  {
  }

  /** The sample of the source's test: red and green mix to half of each. */
  lemma {:induction false} InterpolateColorsSample()
    ensures InterpolateColors(Color(255.0, 0.0, 0.0, 0.0), Color(0.0, 255.0, 0.0, 0.0))
      == Color(127.5, 127.5, 0.0, 0.0)
  {
  }

  /** `Effort::average_wattage`: the mean of the starting and the ending value. */
  function AverageWattage(e: Effort): (w: real)
  {
    (e.startingValue + e.endingValue) / 2.0
  }

  /** The mean lies between the two values, and is the value itself for a steady effort. */
  lemma {:induction false} AverageWattageBetween(e: Effort)
    ensures e.startingValue <= AverageWattage(e) <= e.endingValue
         || e.endingValue <= AverageWattage(e) <= e.startingValue
    ensures !IsRamp(e) ==> AverageWattage(e) == e.startingValue
    ensures AverageWattage(Effort(0.0, 100.0, 60.0, Idle)) == 80.0
  {
  }

  /** `Effort::to_color`: the mean of the two palette colours around the mean value of the effort. */
  function ToColor(e: Effort): (c: Color)
    ensures UnitChannels(c) && c.a == 1.0
  {
    var (before, after) := SelectColorsFromGradients(AverageWattage(e));
    InterpolateColors(before, after)
  }

  /** Below 0 W or from 500 W on, both indices agree and the colour is one palette entry. */
  lemma {:induction false} ToColorAtEnds(e: Effort)
    requires AverageWattage(e) <= 0.0 || AverageWattage(e) >= MaxWattage
    ensures Some(ToColor(e)) == ColorFromHex(ColorGradient[if AverageWattage(e) <= 0.0 then 0 else 39])
  {
    if AverageWattage(e) <= 0.0 {
      SelectIndicesAtMost0(AverageWattage(e));
    } else {
      SelectIndicesAtLeastMax(AverageWattage(e));
    }
    var (before, after) := SelectColorsFromGradients(AverageWattage(e));
    InterpolateColorsBetween(before, after);
  }
}
