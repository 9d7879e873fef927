/**
 * Home Assistant colours: RGB, RGBW, RGBWW, hue/saturation, colour
 * temperature in kelvins or mireds, and named colours.
 *
 * Each colour class of the library is one constructor of `Color`; the
 * constructor checks (HS) and clamps (kelvins, mireds) are the factories
 * below, and `ToString` is the text every colour prints.
 */
module Colors {
  import opened Outcomes
  import opened Text
  import opened Json

  datatype Color =
    | Rgb(r: byte, g: byte, b: byte)
    | Rgbw(r: byte, g: byte, b: byte, w: byte)
    | Rgbww(r: byte, g: byte, b: byte, cw: byte, ww: byte)
    | Hs(hue: uint32, saturation: uint32)
    | Kelvin(kelvins: uint32)
    | Mireds(mireds: uint32)
    | Named(name: string)

  /** A `System.Drawing.Color`: alpha, red, green and blue bytes. */
  datatype DrawingColor = DrawingColor(a: byte, r: byte, g: byte, b: byte)

  const HUE_MAX: int := 360
  const SATURATION_MAX: int := 100
  const KELVIN_MIN: int := 1000
  const KELVIN_MAX: int := 40000
  const MIREDS_MIN: int := 153
  const MIREDS_MAX: int := 500

  /** The colours that print as a JSON array of numbers. */
  predicate IsArray(c: Color) {
    c.Rgb? || c.Rgbw? || c.Rgbww? || c.Hs?
  }

  /** An RGB colour or one of its subclasses (RGBW, RGBWW). */
  predicate IsRgbFamily(c: Color) {
    c.Rgb? || c.Rgbw? || c.Rgbww?
  }

  /** The components an array colour prints, in order. */
  function Components(c: Color): (xs: seq<nat>)
    requires IsArray(c)
    ensures |xs| == (match c
                     case Rgb(_, _, _) => 3
                     case Rgbw(_, _, _, _) => 4
                     case Rgbww(_, _, _, _, _) => 5
                     case _ => 2)
  {
    match c
    case Rgb(r, g, b) => [r, g, b]
    case Rgbw(r, g, b, w) => [r, g, b, w]
    case Rgbww(r, g, b, cw, ww) => [r, g, b, cw, ww]
    case Hs(hue, saturation) => [hue, saturation]
  }

  /** The largest value plus one that a component of `c` can hold: a byte or a `uint`. */
  function ComponentLimit(c: Color): int
    requires IsArray(c)
  {
    if c.Hs? then UINT_LIMIT else 256
  }

  /** `RgbColor.ToString` and its overrides, `Kelvins.ToString()`, `Mireds.ToString()` and the name. */
  function ToString(c: Color): string {
    match c
    case Kelvin(k) => NatToString(k)
    case Mireds(m) => NatToString(m)
    case Named(name) => name
    case _ => ListText(Components(c))
  }

  /** The values a colour object can hold once one of the constructors has made it. */
  predicate Valid(c: Color) {
    match c
    case Hs(hue, saturation) => hue <= HUE_MAX && saturation <= SATURATION_MAX
    case Kelvin(k) => KELVIN_MIN <= k <= KELVIN_MAX
    case Mireds(m) => MIREDS_MIN <= m <= MIREDS_MAX
    case _ => true
  }

  function FromRgb(red: byte, green: byte, blue: byte): Color {
    Rgb(red, green, blue)
  }

  function FromRgbw(red: byte, green: byte, blue: byte, white: byte): Color {
    Rgbw(red, green, blue, white)
  }

  function FromRgbww(red: byte, green: byte, blue: byte, coldWhite: byte, warmWhite: byte): Color {
    Rgbww(red, green, blue, coldWhite, warmWhite)
  }

  /** The RGB factories keep every component, in order. */
  lemma RgbFactoriesKeepComponents(red: byte, green: byte, blue: byte, white: byte, warm: byte)
    ensures Components(FromRgb(red, green, blue)) == [red, green, blue]
    ensures Components(FromRgbw(red, green, blue, white)) == [red, green, blue, white]
    ensures Components(FromRgbww(red, green, blue, white, warm)) == [red, green, blue, white, warm]
  {
  }

  /** `new RgbColor(System.Drawing.Color)`, also the implicit conversion. */
  function RgbFromDrawing(d: DrawingColor): (c: Color)
    ensures c.Rgb? && Components(c) == [d.r, d.g, d.b]
  {
    FromRgb(d.r, d.g, d.b)
  }

  /** `new RgbwColor(System.Drawing.Color)`: the alpha channel becomes W. */
  function RgbwFromDrawing(d: DrawingColor): (c: Color)
    ensures c.Rgbw? && Components(c) == [d.r, d.g, d.b, d.a]
  {
    FromRgbw(d.r, d.g, d.b, d.a)
  }

  /** `new RgbwwColor(System.Drawing.Color)`: the alpha channel becomes both whites. */
  function RgbwwFromDrawing(d: DrawingColor): (c: Color)
    ensures c.Rgbww? && Components(c) == [d.r, d.g, d.b, d.a, d.a]
  {
    FromRgbww(d.r, d.g, d.b, d.a, d.a)
  }

  /** `new HsColor(hue, saturation)`: hue above 360 or saturation above 100 is out of range. */
  function FromHs(hue: uint32, saturation: uint32): (r: Result<Color>)
    ensures r.Ok? <==> hue <= HUE_MAX && saturation <= SATURATION_MAX
    ensures r.Ok? ==> r.value.Hs? && Components(r.value) == [hue, saturation] && Valid(r.value)
    ensures r.Err? ==> r.error == ArgumentOutOfRange
  {
    if hue > HUE_MAX then Err(ArgumentOutOfRange)
    else if saturation > SATURATION_MAX then Err(ArgumentOutOfRange)
    else Ok(Hs(hue, saturation))
  }

  /** `Math.Min(Math.Max(x, low), high)`. */
  function Clamp(x: uint32, low: uint32, high: uint32): (v: uint32)
    requires low <= high
    ensures low <= v <= high
    ensures low <= x <= high ==> v == x
    ensures x < low ==> v == low
    ensures x > high ==> v == high
  {
    var atLeast := if x > low then x else low;
    if atLeast < high then atLeast else high
  }

  /** Clamping a clamped value changes nothing. */
  lemma ClampIdempotent(x: uint32, low: uint32, high: uint32)
    requires low <= high
    ensures Clamp(Clamp(x, low, high), low, high) == Clamp(x, low, high)
  {
  }

  /** `new KelvinTemperatureColor(kelvins)`: clamped into [1000, 40000]. */
  function FromKelvinTemperature(kelvins: uint32): (c: Color)
    ensures c.Kelvin? && Valid(c)
    ensures KELVIN_MIN <= kelvins <= KELVIN_MAX ==> c.kelvins == kelvins
    ensures kelvins < KELVIN_MIN ==> c.kelvins == KELVIN_MIN
    ensures kelvins > KELVIN_MAX ==> c.kelvins == KELVIN_MAX
  {
    Kelvin(Clamp(kelvins, KELVIN_MIN, KELVIN_MAX))
  }

  /** `new MiredsTemperatureColor(mireds)`: clamped into [153, 500]. */
  function FromMireds(mireds: uint32): (c: Color)
    ensures c.Mireds? && Valid(c)
    ensures MIREDS_MIN <= mireds <= MIREDS_MAX ==> c.mireds == mireds
    ensures mireds < MIREDS_MIN ==> c.mireds == MIREDS_MIN
    ensures mireds > MIREDS_MAX ==> c.mireds == MIREDS_MAX
  {
    Mireds(Clamp(mireds, MIREDS_MIN, MIREDS_MAX))
  }

  /** Constructing a temperature colour from a constructed one keeps it. */
  lemma TemperatureFactoriesIdempotent(x: uint32)
    ensures FromKelvinTemperature(FromKelvinTemperature(x).kelvins) == FromKelvinTemperature(x)
    ensures FromMireds(FromMireds(x).mireds) == FromMireds(x)
  {
    ClampIdempotent(x, KELVIN_MIN, KELVIN_MAX);
    ClampIdempotent(x, MIREDS_MIN, MIREDS_MAX);
  }

  /** Every colour the factories build is valid. */
  lemma FactoriesAreValid(hue: uint32, saturation: uint32, t: uint32, d: DrawingColor)
    ensures FromHs(hue, saturation).Ok? ==> Valid(FromHs(hue, saturation).value)
    ensures Valid(FromKelvinTemperature(t)) && Valid(FromMireds(t))
    ensures Valid(RgbFromDrawing(d)) && Valid(RgbwFromDrawing(d)) && Valid(RgbwwFromDrawing(d))
  {
  }

  /** A temperature prints as the decimal text of its value, and reads back from it. */
  lemma TemperatureText(c: Color)
    requires c.Kelvin? || c.Mireds?
    ensures AllDigits(ToString(c))
    ensures DigitsValue(ToString(c)) == (if c.Kelvin? then c.kelvins else c.mireds)
  {
  }

  /** An array colour prints as a bracketed list with one number per component. */
  lemma ArrayText(c: Color)
    requires IsArray(c)
    ensures ParseNumberArray(ToString(c)) == Ok(JArray(Numbers(Components(c))))
  {
    ParseListText(Components(c));
  }
}
