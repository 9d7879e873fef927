/**
 * The JSON converter for colours.
 *
 * Writing: a named colour becomes its name, a temperature a bare number, and
 * every other colour the array its `ToString` prints. Reading depends on the
 * requested colour class and on whether an existing object is given: a new
 * colour goes through the checking and clamping factories, while an existing
 * object has its fields overwritten in place without any check.
 */
module ColorConverter {
  import opened Outcomes
  import opened Text
  import opened Json
  import opened Colors

  /** The class that `ReadJson` is asked for; `OtherType` is any class the converter does not know. */
  datatype ColorType =
    | RgbColor
    | RgbwColor
    | RgbwwColor
    | HsColor
    | NameColor
    | MiredsTemperatureColor
    | KelvinTemperatureColor
    | OtherType

  /** The run-time class of a colour. */
  function TypeOf(c: Color): (t: ColorType)
    ensures t != OtherType
  {
    match c
    case Rgb(_, _, _) => RgbColor
    case Rgbw(_, _, _, _) => RgbwColor
    case Rgbww(_, _, _, _, _) => RgbwwColor
    case Hs(_, _) => HsColor
    case Kelvin(_) => KelvinTemperatureColor
    case Mireds(_) => MiredsTemperatureColor
    case Named(_) => NameColor
  }

  /** `existingValue as T` is not null: RGBW and RGBWW colours are also RGB colours. */
  predicate IsInstance(c: Color, t: ColorType) {
    if t == RgbColor then IsRgbFamily(c) else t != OtherType && TypeOf(c) == t
  }

  /** The classes read from a JSON array. */
  predicate IsArrayType(t: ColorType) {
    t.RgbColor? || t.RgbwColor? || t.RgbwwColor? || t.HsColor?
  }

  /** How many array elements a class reads. */
  function Arity(t: ColorType): nat
    requires IsArrayType(t)
  {
    match t
    case RgbColor => 3
    case RgbwColor => 4
    case RgbwwColor => 5
    case HsColor => 2
  }

  /** Elements are cast to `byte` for the RGB classes and to `uint` for HS. */
  function TypeLimit(t: ColorType): int
    requires IsArrayType(t)
  {
    if t == HsColor then UINT_LIMIT else 256
  }

  lemma InstanceShape(c: Color, t: ColorType)
    requires IsArrayType(t) && IsInstance(c, t)
    ensures IsArray(c) && Arity(t) <= |Components(c)| && TypeLimit(t) == ComponentLimit(c)
  {
  }

  // ---------------------------------------------------------------- writing

  /** `ColorConverter.WriteJson`. */
  function WriteJson(c: Color): Result<Json> {
    if c.Named? then Ok(JString(ToString(c)))
    else if c.Kelvin? then Ok(JNumber(c.kelvins))
    else if c.Mireds? then Ok(JNumber(c.mireds))
    else ParseNumberArray(ToString(c))
  }

  /** Writing never fails: a name, a bare number, or one array element per component. */
  lemma WriteJsonShape(c: Color)
    ensures WriteJson(c).Ok?
    ensures c.Named? ==> WriteJson(c).value == JString(c.name)
    ensures c.Kelvin? ==> WriteJson(c).value == JNumber(c.kelvins)
    ensures c.Mireds? ==> WriteJson(c).value == JNumber(c.mireds)
    ensures IsArray(c) ==> WriteJson(c).value == JArray(Numbers(Components(c)))
  {
    if IsArray(c) {
      ArrayText(c);
    }
  }

  // ---------------------------------------------------------------- token conversions

  /**
   * The explicit `(byte)` or `(uint)` cast of an array element: numbers must
   * fit, booleans give 1 or 0, strings are parsed as integers, and null or
   * nested arrays cannot be converted.
   */
  function ToComponent(token: Json, limit: int): (r: Result<nat>)
    requires limit >= 2
    ensures r.Ok? ==> r.value < limit
    ensures token.JNumber? ==> (r.Ok? <==> 0 <= token.n < limit) && (r.Ok? ==> r.value == token.n)
    ensures r.Err? ==> r.error in {Overflow, Format, Argument}
  {
    match token
    case JNumber(n) => if 0 <= n < limit then Ok(n) else Err(Overflow)
    case JBool(b) => Ok(if b then 1 else 0)
    case JString(s) =>
      var v := ParseInteger(s);
      if v.None? then Err(Format) else if 0 <= v.value < limit then Ok(v.value) else Err(Overflow)
    case _ => Err(Argument)
  }

  /** `(byte)values[i]`: an index past the end is out of range. */
  function ElementAt(values: seq<Json>, i: nat, limit: int): (r: Result<nat>)
    requires limit >= 2
    ensures r.Ok? ==> r.value < limit
  {
    if i < |values| then ToComponent(values[i], limit) else Err(ArgumentOutOfRange)
  }

  /**
   * Elements 0, 1, ... n-1 converted in order, stopping at the first one that
   * fails: the values converted before it, and its error.
   */
  function ConvertPrefix(values: seq<Json>, n: nat, limit: int): (r: (seq<nat>, Outcome))
    requires limit >= 2
    ensures |r.0| <= n
    ensures r.1.Pass? <==> |r.0| == n
    ensures forall i :: 0 <= i < |r.0| ==> r.0[i] < limit && ElementAt(values, i, limit) == Ok(r.0[i])
    ensures r.1.Fail? ==> ElementAt(values, |r.0|, limit) == Err(r.1.error)
    decreases n
  {
    if n == 0 then ([], Pass)
    else
      var front := ConvertPrefix(values, n - 1, limit);
      if front.1.Fail? then front
      else
        var last := ElementAt(values, n - 1, limit);
        if last.Err? then (front.0, Fail(last.error)) else (front.0 + [last.value], Pass)
  }

  /** Elements 0 .. |done|-1 convert to `done`. */
  predicate Converted(values: seq<Json>, done: seq<nat>, limit: int)
    requires limit >= 2
  {
    forall i :: 0 <= i < |done| ==> done[i] < limit && ElementAt(values, i, limit) == Ok(done[i])
  }

  /** One more element converts. */
  lemma ConvertedExtends(values: seq<Json>, done: seq<nat>, v: nat, limit: int)
    requires limit >= 2 && Converted(values, done, limit)
    requires ElementAt(values, |done|, limit) == Ok(v)
    ensures Converted(values, done + [v], limit)
  {
  }

  /** The converted prefix is determined by which elements convert. */
  lemma {:induction false} ConvertPrefixOf(values: seq<Json>, n: nat, limit: int, vs: seq<nat>, o: Outcome)
    requires limit >= 2
    requires |vs| <= n
    requires o.Pass? <==> |vs| == n
    requires Converted(values, vs, limit)
    requires o.Fail? ==> ElementAt(values, |vs|, limit) == Err(o.error)
    ensures ConvertPrefix(values, n, limit) == (vs, o)
  {
    var p := ConvertPrefix(values, n, limit);
    assert |p.0| == |vs|;
    assert p.0 == vs;
  }

  /** The elements written for a list of components convert back to those components. */
  lemma ConvertNumbers(xs: seq<nat>, limit: int)
    requires limit >= 2
    requires forall i :: 0 <= i < |xs| ==> xs[i] < limit
    ensures ConvertPrefix(Numbers(xs), |xs|, limit) == (xs, Pass)
  {
    ConvertPrefixOf(Numbers(xs), |xs|, limit, xs, Pass);
  }

  /** `serializer.Deserialize<JArray>(reader)`; indexing the null it gives for `null` fails. */
  function ReadArray(token: Json): Result<seq<Json>> {
    match token
    case JArray(items) => Ok(items)
    case JNull => Err(NullReference)
    case _ => Err(JsonSerialization)
  }

  /** `serializer.Deserialize<uint>(reader)`. */
  function DeserializeUInt(token: Json): (r: Result<uint32>)
    ensures token.JNumber? ==> (r.Ok? <==> 0 <= token.n < UINT_LIMIT) && (r.Ok? ==> r.value == token.n)
    ensures r.Err? ==> r.error == JsonSerialization
  {
    match token
    case JNumber(n) => if 0 <= n < UINT_LIMIT then Ok(n) else Err(JsonSerialization)
    case JBool(b) => Ok(if b then 1 else 0)
    case JString(s) =>
      var v := ParseInteger(s);
      if v.Some? && 0 <= v.value < UINT_LIMIT then Ok(v.value) else Err(JsonSerialization)
    case _ => Err(JsonSerialization)
  }

  /** `serializer.Deserialize<string>(reader)` for the tokens that have a text. */
  function DeserializeString(token: Json): (r: Result<string>)
    ensures token.JString? ==> r == Ok(token.s)
    ensures r.Err? ==> r.error == JsonSerialization
  {
    match token
    case JString(s) => Ok(s)
    case JNumber(n) => Ok(IntToString(n))
    case JBool(b) => Ok(if b then "True" else "False")
    case _ => Err(JsonSerialization)
  }

  // ---------------------------------------------------------------- reading a new colour

  /** `Color.FromRgb`, `FromRgbw`, `FromRgbww` or `FromHs` applied to the converted elements. */
  function Build(t: ColorType, vs: seq<nat>): (r: Result<Color>)
    requires IsArrayType(t) && |vs| == Arity(t)
    requires forall i :: 0 <= i < |vs| ==> vs[i] < TypeLimit(t)
    ensures r.Ok? ==> TypeOf(r.value) == t && Components(r.value) == vs && Valid(r.value)
    ensures r.Ok? <==> (t == HsColor ==> vs[0] <= HUE_MAX && vs[1] <= SATURATION_MAX)
  {
    assert t != HsColor ==> TypeLimit(t) == 256;
    assert t == HsColor ==> TypeLimit(t) == UINT_LIMIT;
    match t
    case RgbColor => Ok(FromRgb(vs[0], vs[1], vs[2]))
    case RgbwColor => Ok(FromRgbw(vs[0], vs[1], vs[2], vs[3]))
    case RgbwwColor => Ok(FromRgbww(vs[0], vs[1], vs[2], vs[3], vs[4]))
    case HsColor => FromHs(vs[0], vs[1])
  }

  /**
   * `ReadJson` without an existing value: a new colour of the requested class,
   * built through the factories, or null for a class the converter does not know.
   */
  function ReadNew(t: ColorType, token: Json): (r: Result<Option<Color>>)
    ensures t == OtherType ==> r == Ok(None)
    ensures t != OtherType && r.Ok? ==> r.value.Some? && TypeOf(r.value.value) == t && Valid(r.value.value)
  {
    match t
    case OtherType => Ok(None)
    case NameColor =>
      var name :- DeserializeString(token);
      Ok(Some(Named(name)))
    case MiredsTemperatureColor =>
      var mireds :- DeserializeUInt(token);
      Ok(Some(FromMireds(mireds)))
    case KelvinTemperatureColor =>
      var kelvins :- DeserializeUInt(token);
      Ok(Some(FromKelvinTemperature(kelvins)))
    case RgbColor | RgbwColor | RgbwwColor | HsColor => ReadNewArray(t, token)
  }

  /** The array branches without an existing value: every element converted, then the factory. */
  function ReadNewArray(t: ColorType, token: Json): (r: Result<Option<Color>>)
    requires IsArrayType(t)
    ensures r.Ok? ==> r.value.Some? && TypeOf(r.value.value) == t && Valid(r.value.value)
  {
    var values := ReadArray(token);
    if values.Err? then Err(values.error)
    else
      var converted := ConvertPrefix(values.value, Arity(t), TypeLimit(t));
      if converted.1.Fail? then Err(converted.1.error)
      else
        var c := Build(t, converted.0);
        if c.Err? then Err(c.error) else Ok(Some(c.value))
  }

  // ---------------------------------------------------------------- reading into an existing colour

  /** The property setter for component `i` (`R`, `G`, `B`, then `W` or `CW`, `WW`; `Hue`, `Saturation`). */
  function SetComponent(c: Color, i: nat, v: nat): (r: Color)
    requires IsArray(c) && i < |Components(c)| && v < ComponentLimit(c)
    ensures IsArray(r) && TypeOf(r) == TypeOf(c)
    ensures Components(r) == Components(c)[i := v]
  {
    if c.Hs? then (if i == 0 then c.(hue := v) else c.(saturation := v))
    else if i == 0 then c.(r := v)
    else if i == 1 then c.(g := v)
    else if i == 2 then c.(b := v)
    else if i == 3 then (if c.Rgbw? then c.(w := v) else c.(cw := v))
    else c.(ww := v)
  }

  /** Every value is below the limit. */
  predicate Below(vs: seq<nat>, limit: int) {
    forall i :: 0 <= i < |vs| ==> vs[i] < limit
  }

  /** The first components of `c` overwritten by `vs`, one setter after the other. */
  function Overlay(c: Color, vs: seq<nat>): (r: Color)
    requires IsArray(c) && |vs| <= |Components(c)| && Below(vs, ComponentLimit(c))
    ensures IsArray(r) && TypeOf(r) == TypeOf(c)
    ensures Components(r) == vs + Components(c)[|vs|..]
    decreases |vs|
  {
    if vs == [] then c
    else
      var front := vs[..|vs| - 1];
      var before := Overlay(c, front);
      OverlayExtends(c, Components(before), vs);
      SetComponent(before, |vs| - 1, vs[|vs| - 1])
  }

  /** Setting component `|vs| - 1` of the overlay of `vs`'s front gives the overlay of `vs`. */
  lemma OverlayExtends(c: Color, before: seq<nat>, vs: seq<nat>)
    requires IsArray(c) && vs != [] && |vs| <= |Components(c)|
    requires before == vs[..|vs| - 1] + Components(c)[|vs| - 1..]
    ensures |vs| - 1 < |before| && before[|vs| - 1 := vs[|vs| - 1]] == vs + Components(c)[|vs|..]
  {
    var k := |vs| - 1;
    var after := before[k := vs[k]];
    assert forall i :: 0 <= i < |after| ==> after[i] == (vs + Components(c)[|vs|..])[i];
  }

  /** One more setter extends the overlay by one component. */
  lemma OverlayStep(c: Color, vs: seq<nat>, v: nat)
    requires IsArray(c) && |vs| < |Components(c)| && Below(vs, ComponentLimit(c))
    requires v < ComponentLimit(c)
    ensures Overlay(c, vs + [v]) == SetComponent(Overlay(c, vs), |vs|, v)
  {
    assert (vs + [v])[..|vs|] == vs;
  }

  /**
   * `ReadJson` with an existing colour: the colour the object holds afterwards
   * and whether the call threw. Element 0 is converted before the cast to the
   * requested class is used, so a failing element 0 wins over a wrong class;
   * a later failing element leaves the fields assigned before it overwritten.
   * Nothing is range-checked or clamped.
   */
  function ReadInto(c: Color, t: ColorType, token: Json): (r: (Color, Outcome))
    ensures TypeOf(r.0) == TypeOf(c)
    ensures t != OtherType && !IsInstance(c, t) ==> r.0 == c && r.1.Fail?
    ensures t == OtherType ==> r == (c, Pass)
  {
    match t
    case OtherType => (c, Pass)
    case NameColor =>
      var name := DeserializeString(token);
      if name.Err? then (c, Fail(name.error))
      else if !c.Named? then (c, Fail(NullReference))
      else (Named(name.value), Pass)
    case MiredsTemperatureColor =>
      var mireds := DeserializeUInt(token);
      if mireds.Err? then (c, Fail(mireds.error))
      else if !c.Mireds? then (c, Fail(NullReference))
      else (Mireds(mireds.value), Pass)
    case KelvinTemperatureColor =>
      var kelvins := DeserializeUInt(token);
      if kelvins.Err? then (c, Fail(kelvins.error))
      else if !c.Kelvin? then (c, Fail(NullReference))
      else (Kelvin(kelvins.value), Pass)
    case RgbColor | RgbwColor | RgbwwColor | HsColor => ReadIntoArray(c, t, token)
  }

  /** The array branches with an existing value. */
  function ReadIntoArray(c: Color, t: ColorType, token: Json): (r: (Color, Outcome))
    requires IsArrayType(t)
    ensures TypeOf(r.0) == TypeOf(c)
    ensures !IsInstance(c, t) ==> r.0 == c && r.1.Fail?
  {
    var values := ReadArray(token);
    if values.Err? then (c, Fail(values.error))
    else
      var converted := ConvertPrefix(values.value, Arity(t), TypeLimit(t));
      if converted.0 == [] then (c, converted.1)
      else if !IsInstance(c, t) then (c, Fail(NullReference))
      else
        InstanceShape(c, t);
        (Overlay(c, converted.0), converted.1)
  }

  // ---------------------------------------------------------------- round trips

  /** An array colour is determined by its class and its components. */
  lemma ComponentsDetermine(a: Color, b: Color)
    requires IsArray(a) && IsArray(b) && TypeOf(a) == TypeOf(b)
    requires Components(a) == Components(b)
    ensures a == b
  {
    var xs := Components(a);
    assert xs[0] == Components(b)[0] && xs[1] == Components(b)[1];
  }

  /**
   * Reading back what was written, without an existing value: a valid colour
   * comes back unchanged; a temperature outside its range comes back clamped
   * and a hue or saturation out of range is rejected.
   */
  lemma ReadNewOfWrite(c: Color)
    ensures WriteJson(c).Ok?
    ensures Valid(c) ==> ReadNew(TypeOf(c), WriteJson(c).value) == Ok(Some(c))
    ensures c.Kelvin? ==> ReadNew(TypeOf(c), WriteJson(c).value) == Ok(Some(FromKelvinTemperature(c.kelvins)))
    ensures c.Mireds? ==> ReadNew(TypeOf(c), WriteJson(c).value) == Ok(Some(FromMireds(c.mireds)))
    ensures c.Hs? && !Valid(c) ==> ReadNew(TypeOf(c), WriteJson(c).value) == Err(ArgumentOutOfRange)
  {
    WriteJsonShape(c);
    if IsArray(c) {
      ReadNewArrayOfWrite(c);
    }
  }

  /** The array classes of `ReadNewOfWrite`: the factory gets back exactly the written components. */
  lemma ReadNewArrayOfWrite(c: Color)
    requires IsArray(c)
    ensures var r := ReadNewArray(TypeOf(c), JArray(Numbers(Components(c))));
      (Valid(c) ==> r == Ok(Some(c))) && (!Valid(c) ==> r == Err(ArgumentOutOfRange))
  {
    var t := TypeOf(c);
    var xs := Components(c);
    ConvertNumbers(xs, TypeLimit(t));
    var built := Build(t, xs);
    if built.Ok? {
      ComponentsDetermine(built.value, c);
    }
  }

  /** Written colours print the same text after a new read, as long as they are valid. */
  lemma ReadNewKeepsText(c: Color)
    requires Valid(c)
    ensures WriteJson(c).Ok? && ReadNew(TypeOf(c), WriteJson(c).value).Ok?
    ensures ToString(ReadNew(TypeOf(c), WriteJson(c).value).value.value) == ToString(c)
  {
    ReadNewOfWrite(c);
  }

  /**
   * Reading what was written into an existing object of the same class gives
   * exactly the written colour, in or out of range: nothing is checked or clamped.
   */
  lemma ReadIntoOfWrite(c: Color, d: Color)
    requires TypeOf(c) == TypeOf(d)
    ensures WriteJson(d).Ok?
    ensures ReadInto(c, TypeOf(d), WriteJson(d).value) == (d, Pass)
  {
    WriteJsonShape(d);
    if IsArray(d) {
      ReadIntoArrayOfWrite(c, d);
    }
  }

  /** The array classes of `ReadIntoOfWrite`: every component is overwritten with the written one. */
  lemma ReadIntoArrayOfWrite(c: Color, d: Color)
    requires IsArray(d) && TypeOf(c) == TypeOf(d)
    ensures ReadIntoArray(c, TypeOf(d), JArray(Numbers(Components(d)))) == (d, Pass)
  {
    var t := TypeOf(d);
    var xs := Components(d);
    ConvertNumbers(xs, TypeLimit(t));
    InstanceShape(c, t);
    ReadIntoStops(c, t, Numbers(xs), xs, Pass);
    ComponentsDetermine(Overlay(c, xs), d);
  }

  /** An RGB read into an RGBW or RGBWW object overwrites R, G and B and keeps the whites. */
  lemma ReadRgbIntoSubclass(c: Color, d: Color)
    requires IsRgbFamily(c) && d.Rgb?
    ensures WriteJson(d).Ok?
    ensures ReadInto(c, RgbColor, WriteJson(d).value).1 == Pass
    ensures var after := ReadInto(c, RgbColor, WriteJson(d).value).0;
      IsArray(after) && TypeOf(after) == TypeOf(c) && Components(after) == Components(d) + Components(c)[3..]
  {
    WriteJsonShape(d);
    var xs := Components(d);
    ConvertPrefixOf(Numbers(xs), 3, 256, xs, Pass);
    ReadIntoStops(c, RgbColor, Numbers(xs), xs, Pass);
  }

  /**
   * Hue and saturation: a new read range-checks them through `FromHs`, a read
   * into an existing HS object stores them as they are.
   */
  lemma HsReadChecksOnlyNewValues(c: Color, hue: uint32, saturation: uint32)
    requires c.Hs?
    ensures var token := JArray([JNumber(hue), JNumber(saturation)]);
      && ReadInto(c, HsColor, token) == (Hs(hue, saturation), Pass)
      && (ReadNew(HsColor, token).Ok? <==> hue <= HUE_MAX && saturation <= SATURATION_MAX)
      && (ReadNew(HsColor, token).Ok? ==> ReadNew(HsColor, token).value == Some(Hs(hue, saturation)))
  {
    var d := Hs(hue, saturation);
    assert Numbers(Components(d)) == [JNumber(hue), JNumber(saturation)];
    ReadIntoArrayOfWrite(c, d);
    ReadNewArrayOfWrite(d);
  }

  /**
   * Temperatures: a new read clamps through the factory, a read into an
   * existing object stores the number as it is.
   */
  lemma TemperatureReadClampsOnlyNewValues(c: Color, x: uint32)
    ensures c.Kelvin? ==> ReadInto(c, KelvinTemperatureColor, JNumber(x)) == (Kelvin(x), Pass)
    ensures c.Mireds? ==> ReadInto(c, MiredsTemperatureColor, JNumber(x)) == (Mireds(x), Pass)
    ensures ReadNew(KelvinTemperatureColor, JNumber(x)) == Ok(Some(FromKelvinTemperature(x)))
    ensures ReadNew(MiredsTemperatureColor, JNumber(x)) == Ok(Some(FromMireds(x)))
  {
  }

  /** A colour class the converter does not know reads as null and leaves an existing object alone. */
  lemma UnknownClassReadsNull(c: Color, token: Json)
    ensures ReadNew(OtherType, token) == Ok(None)
    ensures ReadInto(c, OtherType, token) == (c, Pass)
  {
  }

  // ---------------------------------------------------------------- the converter on objects

  /** A colour object on the heap; the converter overwrites its fields in place. */
  class ColorObject {
    var color: Color

    constructor(c: Color)
      ensures color == c
    {
      color := c;
    }
  }

  /**
   * `ColorConverter.ReadJson`: without an existing object a fresh one is
   * returned (or null); with one, that same object is overwritten and returned.
   */
  method ReadJson(objectType: ColorType, token: Json, existingValue: Option<ColorObject>)
    returns (r: Result<Option<ColorObject>>)
    modifies if existingValue.Some? then {existingValue.value} else {}
    ensures existingValue.None? ==>
      && (r.Ok? <==> ReadNew(objectType, token).Ok?)
      && (r.Err? ==> r.error == ReadNew(objectType, token).error)
      && (r.Ok? ==> (r.value.Some? <==> ReadNew(objectType, token).value.Some?))
      && (r.Ok? && r.value.Some? ==> fresh(r.value.value) && r.value.value.color == ReadNew(objectType, token).value.value)
    ensures existingValue.Some? ==>
      var after := ReadInto(old(existingValue.value.color), objectType, token);
      && existingValue.value.color == after.0
      && (after.1.Fail? ==> r == Err(after.1.error))
      && (after.1.Pass? ==> r == Ok(if objectType == OtherType then None else Some(existingValue.value)))
  {
    if objectType == OtherType {
      return Ok(None);
    }
    if IsArrayType(objectType) {
      r := ReadArrayColor(objectType, token, existingValue);
      return;
    }
    if objectType == NameColor {
      var colorName :- DeserializeString(token);
      if existingValue.Some? {
        var nameColor := existingValue.value;
        if !nameColor.color.Named? {
          return Err(NullReference);
        }
        nameColor.color := nameColor.color.(name := colorName);
        return Ok(Some(nameColor));
      }
      var created := new ColorObject(Named(colorName));
      return Ok(Some(created));
    }
    if objectType == MiredsTemperatureColor {
      var mireds :- DeserializeUInt(token);
      if existingValue.Some? {
        var color := existingValue.value;
        if !color.color.Mireds? {
          return Err(NullReference);
        }
        color.color := color.color.(mireds := mireds);
        return Ok(Some(color));
      }
      var created := new ColorObject(FromMireds(mireds));
      return Ok(Some(created));
    }
    var kelvins :- DeserializeUInt(token);
    if existingValue.Some? {
      var color := existingValue.value;
      if !color.color.Kelvin? {
        return Err(NullReference);
      }
      color.color := color.color.(kelvins := kelvins);
      return Ok(Some(color));
    }
    var created := new ColorObject(FromKelvinTemperature(kelvins));
    return Ok(Some(created));
  }

  /** The array branches of `ReadJson`: RGBW, RGBWW, RGB and HS. */
  method ReadArrayColor(objectType: ColorType, token: Json, existingValue: Option<ColorObject>)
    returns (r: Result<Option<ColorObject>>)
    requires IsArrayType(objectType)
    modifies if existingValue.Some? then {existingValue.value} else {}
    ensures existingValue.None? ==>
      && (r.Ok? <==> ReadNew(objectType, token).Ok?)
      && (r.Err? ==> r.error == ReadNew(objectType, token).error)
      && (r.Ok? ==> r.value.Some? && fresh(r.value.value) && r.value.value.color == ReadNew(objectType, token).value.value)
    ensures existingValue.Some? ==>
      var after := ReadInto(old(existingValue.value.color), objectType, token);
      && existingValue.value.color == after.0
      && (after.1.Fail? ==> r == Err(after.1.error))
      && (after.1.Pass? ==> r == Ok(Some(existingValue.value)))
  {
    var values :- ReadArray(token);
    var limit := TypeLimit(objectType);
    var n := Arity(objectType);
    if existingValue.Some? {
      var x := existingValue.value;
      match objectType {
        case RgbwColor => r := OverwriteRgbw(x, values);
        case RgbwwColor => r := OverwriteRgbww(x, values);
        case RgbColor => r := OverwriteRgb(x, values);
        case HsColor => r := OverwriteHs(x, values);
      }
      return;
    }
    var converted := ConvertPrefix(values, n, limit);
    if converted.1.Fail? {
      return Err(converted.1.error);
    }
    var made :- Build(objectType, converted.0);
    var created := new ColorObject(made);
    return Ok(Some(created));
  }

  /** Element 0 does not convert: the object is untouched and the call throws. */
  lemma ReadIntoFirstFails(c: Color, t: ColorType, values: seq<Json>, e: Exception)
    requires IsArrayType(t)
    requires ElementAt(values, 0, TypeLimit(t)) == Err(e)
    ensures ReadIntoArray(c, t, JArray(values)) == (c, Fail(e))
  {
    ConvertPrefixOf(values, Arity(t), TypeLimit(t), [], Fail(e));
  }

  /** Element 0 converts but the object is of another class: untouched, null reference. */
  lemma ReadIntoWrongClass(c: Color, t: ColorType, values: seq<Json>)
    requires IsArrayType(t) && !IsInstance(c, t)
    requires ElementAt(values, 0, TypeLimit(t)).Ok?
    ensures ReadIntoArray(c, t, JArray(values)) == (c, Fail(NullReference))
  {
  }

  /** One more element converts: the overlay grows by one setter. */
  lemma Advance(c: Color, t: ColorType, values: seq<Json>, done: seq<nat>, v: nat)
    requires IsArrayType(t) && IsInstance(c, t) && |done| < Arity(t)
    requires Converted(values, done, TypeLimit(t))
    requires ElementAt(values, |done|, TypeLimit(t)) == Ok(v)
    ensures IsArray(c) && |done| < |Components(c)| && TypeLimit(t) == ComponentLimit(c)
    ensures Converted(values, done + [v], TypeLimit(t))
    ensures Overlay(c, done + [v]) == SetComponent(Overlay(c, done), |done|, v)
  {
    InstanceShape(c, t);
    ConvertedExtends(values, done, v, TypeLimit(t));
    OverlayStep(c, done, v);
  }

  /** The first `|done|` elements convert and the next one fails, or all of them convert. */
  lemma ReadIntoStops(c: Color, t: ColorType, values: seq<Json>, done: seq<nat>, o: Outcome)
    requires IsArrayType(t) && IsInstance(c, t)
    requires done != [] && |done| <= Arity(t)
    requires o.Pass? <==> |done| == Arity(t)
    requires Converted(values, done, TypeLimit(t))
    requires o.Fail? ==> ElementAt(values, |done|, TypeLimit(t)) == Err(o.error)
    ensures IsArray(c) && |done| <= |Components(c)| && TypeLimit(t) == ComponentLimit(c)
    ensures ReadIntoArray(c, t, JArray(values)) == (Overlay(c, done), o)
  {
    InstanceShape(c, t);
    ConvertPrefixOf(values, Arity(t), TypeLimit(t), done, o);
    ReadIntoConverted(c, t, values, done, o);
  }

  /** An instance whose element 0 converts gets the converted prefix overlaid. */
  lemma ReadIntoConverted(c: Color, t: ColorType, values: seq<Json>, done: seq<nat>, o: Outcome)
    requires IsArrayType(t) && IsInstance(c, t)
    requires IsArray(c) && Arity(t) <= |Components(c)| && TypeLimit(t) == ComponentLimit(c)
    requires ConvertPrefix(values, Arity(t), TypeLimit(t)) == (done, o) && done != []
    ensures ReadIntoArray(c, t, JArray(values)) == (Overlay(c, done), o)
  {
    assert ReadArray(JArray(values)) == Ok(values);
  }

  /** What `ReadIntoArray` says about an object overwritten in place and the value returned. */
  predicate Reports(after: (Color, Outcome), now: Color, r: Result<Option<ColorObject>>, x: ColorObject) {
    && now == after.0
    && (after.1.Fail? ==> r == Err(after.1.error))
    && (after.1.Pass? ==> r == Ok(Some(x)))
  }

  /** The existing-value RGBW branch: R, G, B and W assigned in turn. */
  method OverwriteRgbw(x: ColorObject, values: seq<Json>) returns (r: Result<Option<ColorObject>>)
    modifies x
    ensures Reports(ReadIntoArray(old(x.color), RgbwColor, JArray(values)), x.color, r, x)
  {
    ghost var c := x.color;
    var red := ElementAt(values, 0, 256);
    if red.Err? {
      ReadIntoFirstFails(c, RgbwColor, values, red.error);
      return Err(red.error);
    }
    if !(x.color.Rgbw?) {
      ReadIntoWrongClass(c, RgbwColor, values);
      return Err(NullReference);
    }
    ghost var done: seq<nat> := [];
    Advance(c, RgbwColor, values, done, red.value);
    x.color := SetComponent(x.color, 0, red.value);
    done := done + [red.value];
    var green := ElementAt(values, 1, 256);
    if green.Err? {
      ReadIntoStops(c, RgbwColor, values, done, Fail(green.error));
      return Err(green.error);
    }
    Advance(c, RgbwColor, values, done, green.value);
    x.color := SetComponent(x.color, 1, green.value);
    done := done + [green.value];
    var blue := ElementAt(values, 2, 256);
    if blue.Err? {
      ReadIntoStops(c, RgbwColor, values, done, Fail(blue.error));
      return Err(blue.error);
    }
    Advance(c, RgbwColor, values, done, blue.value);
    x.color := SetComponent(x.color, 2, blue.value);
    done := done + [blue.value];
    var white := ElementAt(values, 3, 256);
    if white.Err? {
      ReadIntoStops(c, RgbwColor, values, done, Fail(white.error));
      return Err(white.error);
    }
    Advance(c, RgbwColor, values, done, white.value);
    x.color := SetComponent(x.color, 3, white.value);
    done := done + [white.value];
    ReadIntoStops(c, RgbwColor, values, done, Pass);
    return Ok(Some(x));
  }

  /** The existing-value RGBWW branch: R, G, B, CW and WW assigned in turn. */
  method OverwriteRgbww(x: ColorObject, values: seq<Json>) returns (r: Result<Option<ColorObject>>)
    modifies x
    ensures Reports(ReadIntoArray(old(x.color), RgbwwColor, JArray(values)), x.color, r, x)
  {
    ghost var c := x.color;
    var red := ElementAt(values, 0, 256);
    if red.Err? {
      ReadIntoFirstFails(c, RgbwwColor, values, red.error);
      return Err(red.error);
    }
    if !(x.color.Rgbww?) {
      ReadIntoWrongClass(c, RgbwwColor, values);
      return Err(NullReference);
    }
    ghost var done: seq<nat> := [];
    Advance(c, RgbwwColor, values, done, red.value);
    x.color := SetComponent(x.color, 0, red.value);
    done := done + [red.value];
    var green := ElementAt(values, 1, 256);
    if green.Err? {
      ReadIntoStops(c, RgbwwColor, values, done, Fail(green.error));
      return Err(green.error);
    }
    Advance(c, RgbwwColor, values, done, green.value);
    x.color := SetComponent(x.color, 1, green.value);
    done := done + [green.value];
    var blue := ElementAt(values, 2, 256);
    if blue.Err? {
      ReadIntoStops(c, RgbwwColor, values, done, Fail(blue.error));
      return Err(blue.error);
    }
    Advance(c, RgbwwColor, values, done, blue.value);
    x.color := SetComponent(x.color, 2, blue.value);
    done := done + [blue.value];
    var coldWhite := ElementAt(values, 3, 256);
    if coldWhite.Err? {
      ReadIntoStops(c, RgbwwColor, values, done, Fail(coldWhite.error));
      return Err(coldWhite.error);
    }
    Advance(c, RgbwwColor, values, done, coldWhite.value);
    x.color := SetComponent(x.color, 3, coldWhite.value);
    done := done + [coldWhite.value];
    var warmWhite := ElementAt(values, 4, 256);
    if warmWhite.Err? {
      ReadIntoStops(c, RgbwwColor, values, done, Fail(warmWhite.error));
      return Err(warmWhite.error);
    }
    Advance(c, RgbwwColor, values, done, warmWhite.value);
    x.color := SetComponent(x.color, 4, warmWhite.value);
    done := done + [warmWhite.value];
    ReadIntoStops(c, RgbwwColor, values, done, Pass);
    return Ok(Some(x));
  }

  /** The existing-value RGB branch: R, G and B assigned in turn; an RGBW or RGBWW object keeps its whites. */
  method OverwriteRgb(x: ColorObject, values: seq<Json>) returns (r: Result<Option<ColorObject>>)
    modifies x
    ensures Reports(ReadIntoArray(old(x.color), RgbColor, JArray(values)), x.color, r, x)
  {
    ghost var c := x.color;
    var red := ElementAt(values, 0, 256);
    if red.Err? {
      ReadIntoFirstFails(c, RgbColor, values, red.error);
      return Err(red.error);
    }
    if !(IsRgbFamily(x.color)) {
      ReadIntoWrongClass(c, RgbColor, values);
      return Err(NullReference);
    }
    ghost var done: seq<nat> := [];
    Advance(c, RgbColor, values, done, red.value);
    x.color := SetComponent(x.color, 0, red.value);
    done := done + [red.value];
    var green := ElementAt(values, 1, 256);
    if green.Err? {
      ReadIntoStops(c, RgbColor, values, done, Fail(green.error));
      return Err(green.error);
    }
    Advance(c, RgbColor, values, done, green.value);
    x.color := SetComponent(x.color, 1, green.value);
    done := done + [green.value];
    var blue := ElementAt(values, 2, 256);
    if blue.Err? {
      ReadIntoStops(c, RgbColor, values, done, Fail(blue.error));
      return Err(blue.error);
    }
    Advance(c, RgbColor, values, done, blue.value);
    x.color := SetComponent(x.color, 2, blue.value);
    done := done + [blue.value];
    ReadIntoStops(c, RgbColor, values, done, Pass);
    return Ok(Some(x));
  }

  /** The existing-value HS branch: Hue and Saturation assigned without the range checks. */
  method OverwriteHs(x: ColorObject, values: seq<Json>) returns (r: Result<Option<ColorObject>>)
    modifies x
    ensures Reports(ReadIntoArray(old(x.color), HsColor, JArray(values)), x.color, r, x)
  {
    ghost var c := x.color;
    var hue := ElementAt(values, 0, UINT_LIMIT);
    if hue.Err? {
      ReadIntoFirstFails(c, HsColor, values, hue.error);
      return Err(hue.error);
    }
    if !(x.color.Hs?) {
      ReadIntoWrongClass(c, HsColor, values);
      return Err(NullReference);
    }
    ghost var done: seq<nat> := [];
    Advance(c, HsColor, values, done, hue.value);
    x.color := SetComponent(x.color, 0, hue.value);
    done := done + [hue.value];
    var saturation := ElementAt(values, 1, UINT_LIMIT);
    if saturation.Err? {
      ReadIntoStops(c, HsColor, values, done, Fail(saturation.error));
      return Err(saturation.error);
    }
    Advance(c, HsColor, values, done, saturation.value);
    x.color := SetComponent(x.color, 1, saturation.value);
    done := done + [saturation.value];
    ReadIntoStops(c, HsColor, values, done, Pass);
    return Ok(Some(x));
  }
}
