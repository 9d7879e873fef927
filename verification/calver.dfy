/**
 * Calendar versions such as `2022.2.4b3`: the Home Assistant version that the
 * server announces during authentication.
 *
 * `ParseVersion` holds the checks of `CalVer.Parse`; the `CalVer` class keeps
 * the four properties that a successful parse assigns.
 */
module CalendarVersion {
  import opened Outcomes
  import opened Text

  /** The four parsed components: Year, Month, Micro and Modifier. */
  datatype Version = Version(year: int, month: int, micro: int, modifier: string)

  /**
   * The regular expression `(?<micro>^\d*)(?<modifier>[\w\d]*)` applied to the
   * third part: the leading digits, then the word characters right after them.
   */
  function MatchMicroModifier(part: string): (r: (string, string))
    ensures r.0 + r.1 <= part
    ensures AllDigits(r.0) && AllWordChars(r.1)
    ensures |r.0| == |part| || !IsDigit(part[|r.0|])
    ensures |r.0| + |r.1| == |part| || !IsWordChar(part[|r.0| + |r.1|])
  {
    var micro := TakeDigits(part);
    var modifier := TakeWordChars(part[|micro|..]);
    assert part == micro + part[|micro|..];
    (micro, modifier)
  }

  /** A version that `ParseVersion` can produce. */
  predicate Canonical(v: Version) {
    && InInt32(v.year)
    && InInt32(v.month)
    && 0 <= v.micro <= INT_MAX
    && AllWordChars(v.modifier)
    && (v.modifier == [] || !IsDigit(v.modifier[0]))
  }

  /**
   * The third part: the leading digits give Micro (0 when there are none, an
   * overflow when they exceed `int`), the word characters after them give
   * Modifier, and a part with neither is rejected.
   */
  function ParseMicroModifier(part: string): (r: Result<(int, string)>)
    ensures r.Ok? ==> Canonical(Version(0, 0, r.value.0, r.value.1))
    ensures r.Err? ==> r.error == Argument || r.error == Overflow
  {
    var (microText, modifier) := MatchMicroModifier(part);
    if microText == [] && modifier == [] then Err(Argument)
    else if microText != [] && DigitsValue(microText) > INT_MAX then Err(Overflow)
    else
      var micro := if microText != [] then DigitsValue(microText) else 0;
      assert modifier != [] ==> !IsDigit(modifier[0]) by {
        if modifier != [] {
          assert part[|microText|] == modifier[0];
        }
      }
      Ok((micro, modifier))
  }

  /**
   * The checks of `CalVer.Parse`, in source order: null input, two or three
   * '.'-separated parts, a year and a month that `int.TryParse` accepts, and a
   * third part that `ParseMicroModifier` accepts.
   */
  function ParseVersion(input: Option<string>): (r: Result<Version>)
    ensures input.None? <==> r == Err(ArgumentNull)
    ensures input.Some? && (|Split(input.value, '.')| < 2 || |Split(input.value, '.')| > 3) ==> r == Err(Argument)
    ensures input.Some? && |Split(input.value, '.')| == 2 && r.Ok? ==> r.value.micro == 0 && r.value.modifier == ""
    ensures r.Ok? ==> Canonical(r.value)
  {
    if input.None? then Err(ArgumentNull)
    else
      var parts := Split(input.value, '.');
      if |parts| < 2 || |parts| > 3 then Err(Argument)
      else
        var year := ParseInt32(parts[0]);
        var month := ParseInt32(parts[1]);
        if year.None? then Err(Argument)
        else if month.None? then Err(Argument)
        else if |parts| == 2 then Ok(Version(year.value, month.value, 0, ""))
        else
          var third := ParseMicroModifier(parts[2]);
          if third.Err? then Err(third.error)
          else Ok(Version(year.value, month.value, third.value.0, third.value.1))
  }

  /** `CalVer.ToString`: "Year.Month.Micro" followed by the modifier. */
  function Render(v: Version): string {
    IntToString(v.year) + "." + IntToString(v.month) + "." + IntToString(v.micro) + v.modifier
  }

  lemma NoDotInDecimal(i: int)
    ensures '.' !in IntToString(i)
  {
    if i < 0 {
      assert IntToString(i) == ['-'] + NatToString(-i);
    }
  }

  /** The printed version splits into year, month and micro-plus-modifier. */
  lemma RenderSplits(v: Version)
    requires Canonical(v)
    ensures Split(Render(v), '.') == [IntToString(v.year), IntToString(v.month), IntToString(v.micro) + v.modifier]
  {
    var digits := IntToString(v.micro);
    var third := digits + v.modifier;
    NoDotInDecimal(v.year);
    NoDotInDecimal(v.month);
    NoDotInDecimal(v.micro);
    forall k | 0 <= k < |third|
      ensures third[k] != '.'
    {
      if k < |digits| {
        assert third[k] == digits[k];
      } else {
        assert third[k] == v.modifier[k - |digits|];
      }
    }
    var parts := [IntToString(v.year), IntToString(v.month), third];
    assert Join(parts, '.') == Render(v) by {
      assert parts[1..][1..] == [third];
      assert Join(parts[1..], '.') == IntToString(v.month) + ['.'] + third;
      assert Render(v) == IntToString(v.year) + ['.'] + (IntToString(v.month) + ['.'] + third);
    }
    SplitJoin(parts, '.');
  }

  /** The regular expression splits a printed micro and modifier apart again. */
  lemma MatchRenderedMicro(micro: nat, modifier: string)
    requires AllWordChars(modifier) && (modifier == [] || !IsDigit(modifier[0]))
    ensures MatchMicroModifier(NatToString(micro) + modifier) == (NatToString(micro), modifier)
  {
    var digits := NatToString(micro);
    var third := digits + modifier;
    TakeDigitsOfDigits(digits, modifier);
    assert third[|digits|..] == modifier;
    TakeWordCharsOfWord(modifier);
  }

  /** A canonical version prints to a string that parses back to it. */
  lemma ParseRender(v: Version)
    requires Canonical(v)
    ensures ParseVersion(Some(Render(v))) == Ok(v)
  {
    RenderSplits(v);
    var parts := Split(Render(v), '.');
    ParseInt32OfIntToString(v.year);
    ParseInt32OfIntToString(v.month);
    assert ParseInt32(parts[0]) == Some(v.year);
    assert ParseInt32(parts[1]) == Some(v.month);
    MatchRenderedMicro(v.micro, v.modifier);
    assert ParseMicroModifier(parts[2]) == Ok((v.micro, v.modifier)) by {
      assert parts[2] == NatToString(v.micro) + v.modifier;
      if v.micro == 0 {
        assert NatToString(v.micro) == "0";
      }
    }
  }

  /** Printing a parsed version and parsing the text again is stable. */
  lemma ParseIsStable(input: Option<string>)
    requires ParseVersion(input).Ok?
    ensures ParseVersion(Some(Render(ParseVersion(input).value))) == ParseVersion(input)
  {
    ParseRender(ParseVersion(input).value);
  }

  /** The mutable `CalVer` object; only a successful `Parse` assigns its fields. */
  class CalVer {
    var year: int
    var month: int
    var micro: int
    var modifier: string

    /** A `CalVer` before any parse; its unset Modifier prints like "". */
    constructor()
      ensures Value() == Version(0, 0, 0, "")
    {
      year, month, micro, modifier := 0, 0, 0, "";
    }

    function Value(): Version
      reads this
    {
      Version(year, month, micro, modifier)
    }

    function ToString(): string
      reads this
    {
      Render(Value())
    }

    /** `CalVer.Parse`: all four fields are assigned, or none is. */
    method Parse(input: Option<string>) returns (r: Outcome)
      modifies this
      ensures ParseVersion(input).Ok? ==> r == Pass && Value() == ParseVersion(input).value
      ensures ParseVersion(input).Err? ==> r == Fail(ParseVersion(input).error) && Value() == old(Value())
    {
      var parsed := ParseVersion(input);
      if parsed.Err? {
        return Fail(parsed.error);
      }
      year := parsed.value.year;
      month := parsed.value.month;
      micro := parsed.value.micro;
      modifier := parsed.value.modifier;
      r := Pass;
    }
  }

  /** `CalVer.Create`: a fresh object parsed from `input`. */
  method Create(input: Option<string>) returns (r: Result<CalVer>)
    ensures r.Ok? <==> ParseVersion(input).Ok?
    ensures r.Ok? ==> fresh(r.value) && r.value.Value() == ParseVersion(input).value
    ensures r.Err? ==> r.error == ParseVersion(input).error
  {
    var value := new CalVer();
    var outcome := value.Parse(input);
    if outcome.Fail? {
      return Err(outcome.error);
    }
    r := Ok(value);
  }
}
