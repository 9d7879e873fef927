/**
 * JSON tokens as the converters see them, and the text form of a flat array
 * of numbers, which is what the array colours print.
 */
module Json {
  import opened Outcomes
  import opened Text

  /** A JSON token; numbers are integers only. */
  datatype Json =
    | JNull
    | JBool(b: bool)
    | JNumber(n: int)
    | JString(s: string)
    | JArray(items: seq<Json>)

  /** The elements of a printed number list, each followed by ", " but the last. */
  function ItemsText(xs: seq<nat>): string
    requires |xs| >= 1
    decreases |xs|
  {
    if |xs| == 1 then NatToString(xs[0]) else NatToString(xs[0]) + ", " + ItemsText(xs[1..])
  }

  /** `[a, b, c]`: the text an array colour prints. */
  function ListText(xs: seq<nat>): string
    requires |xs| >= 1
  {
    "[" + ItemsText(xs) + "]"
  }

  function Numbers(xs: seq<nat>): (r: seq<Json>)
    ensures |r| == |xs| && forall i :: 0 <= i < |xs| ==> r[i] == JNumber(xs[i])
  {
    seq(|xs|, i requires 0 <= i < |xs| => JNumber(xs[i]))
  }

  /** One array element: a decimal number with optional white space around it. */
  function ParseElement(piece: string): Result<Json> {
    var t := TrimEnd(TrimStart(piece));
    if t != [] && AllDigits(t) then Ok(JNumber(DigitsValue(t))) else Err(JsonReader)
  }

  function ParseElements(pieces: seq<string>): (r: Result<seq<Json>>)
    ensures r.Ok? ==> |r.value| == |pieces|
    decreases |pieces|
  {
    if pieces == [] then Ok([])
    else
      var head := ParseElement(pieces[0]);
      var tail := ParseElements(pieces[1..]);
      if head.Err? then Err(head.error)
      else if tail.Err? then Err(tail.error)
      else Ok([head.value] + tail.value)
  }

  /**
   * `JArray.Parse` on a flat list of non-negative integers: brackets around
   * comma-separated numbers; any other text is rejected.
   */
  function ParseNumberArray(text: string): Result<Json> {
    if |text| < 2 || text[0] != '[' || text[|text| - 1] != ']' then Err(JsonReader)
    else
      var inner := text[1..|text| - 1];
      if TrimEnd(TrimStart(inner)) == [] then Ok(JArray([]))
      else
        var elements := ParseElements(Split(inner, ','));
        if elements.Err? then Err(elements.error) else Ok(JArray(elements.value))
  }

  lemma NoCommaInDecimal(n: nat, pad: string)
    requires pad == "" || pad == " "
    ensures ',' !in pad + NatToString(n)
  {
    var s := pad + NatToString(n);
    forall k | 0 <= k < |s|
      ensures s[k] != ','
    {
      if k >= |pad| {
        assert s[k] == NatToString(n)[k - |pad|];
      }
    }
  }

  lemma ParseElementOfDecimal(n: nat, pad: string)
    requires pad == "" || pad == " "
    ensures ParseElement(pad + NatToString(n)) == Ok(JNumber(n))
  {
    var d := NatToString(n);
    assert TrimStart(d) == d && TrimEnd(d) == d by {
      assert IsDigit(d[0]) && IsDigit(d[|d| - 1]);
    }
    if pad == " " {
      var s := " " + d;
      assert s[1..] == d;
      assert TrimStart(s) == d;
    } else {
      assert pad + d == d;
    }
  }

  lemma NumbersCons(xs: seq<nat>)
    requires |xs| >= 1
    ensures Numbers(xs) == [JNumber(xs[0])] + Numbers(xs[1..])
  {
  }

  /** Parsing one more piece in front puts its element in front. */
  lemma ParseElementsCons(p: string, ps: seq<string>, j: Json, js: seq<Json>)
    requires ParseElement(p) == Ok(j) && ParseElements(ps) == Ok(js)
    ensures ParseElements([p] + ps) == Ok([j] + js)
  {
    assert ([p] + ps)[1..] == ps;
  }

  /** A list of two or more numbers prints its first number, a comma, then a space and the rest. */
  lemma ItemsTextCons(xs: seq<nat>, pad: string)
    requires |xs| >= 2
    ensures pad + ItemsText(xs) == (pad + NatToString(xs[0])) + [','] + (" " + ItemsText(xs[1..]))
  {
    Regroup(pad, NatToString(xs[0]), ItemsText(xs[1..]));
  }

  /** `pad + (a + ", " + b)` regrouped around the comma. */
  lemma Regroup(pad: string, a: string, b: string)
    ensures pad + (a + ", " + b) == (pad + a) + [','] + (" " + b)
  {
    assert ", " == [','] + " ";
  }

  /** Splitting a printed list at commas gives one piece per number, then parses back. */
  lemma {:induction false} ParseItemsText(xs: seq<nat>, pad: string)
    requires |xs| >= 1
    requires pad == "" || pad == " "
    ensures ParseElements(Split(pad + ItemsText(xs), ',')) == Ok(Numbers(xs))
    decreases |xs|
  {
    var first := pad + NatToString(xs[0]);
    NoCommaInDecimal(xs[0], pad);
    ParseElementOfDecimal(xs[0], pad);
    NumbersCons(xs);
    if |xs| == 1 {
      assert pad + ItemsText(xs) == first;
      SplitWithoutSeparator(first, ',');
      ParseElementsCons(first, [], JNumber(xs[0]), []);
      assert [first] + [] == [first];
    } else {
      var rest := " " + ItemsText(xs[1..]);
      ItemsTextCons(xs, pad);
      SplitAfterPiece(first, ',', rest);
      ParseItemsText(xs[1..], " ");
      ParseElementsCons(first, Split(rest, ','), JNumber(xs[0]), Numbers(xs[1..]));
    }
  }

  /** A printed list starts and ends with a digit. */
  lemma {:induction false} ItemsTextBounds(xs: seq<nat>)
    requires |xs| >= 1
    ensures var t := ItemsText(xs); t != [] && IsDigit(t[0]) && IsDigit(t[|t| - 1])
    decreases |xs|
  {
    var d := NatToString(xs[0]);
    if |xs| > 1 {
      ItemsTextBounds(xs[1..]);
      var t := ItemsText(xs);
      assert t == d + (", " + ItemsText(xs[1..]));
      assert t[0] == d[0];
    }
  }

  /** `JArray.Parse` reads back exactly the numbers a list was printed from. */
  lemma ParseListText(xs: seq<nat>)
    requires |xs| >= 1
    ensures ParseNumberArray(ListText(xs)) == Ok(JArray(Numbers(xs)))
  {
    var inner := ItemsText(xs);
    ItemsTextBounds(xs);
    Bracketed(inner);
    TrimmedDigits(inner);
    ParseItemsText(xs, "");
    assert "" + inner == inner;
  }

  /** `"[" + inner + "]"` opens and closes with the brackets and holds `inner` between them. */
  lemma Bracketed(inner: string)
    ensures var text := "[" + inner + "]";
      |text| >= 2 && text[0] == '[' && text[|text| - 1] == ']' && text[1..|text| - 1] == inner
  {
  }

  /** Text that starts and ends with a digit has no white space to trim. */
  lemma TrimmedDigits(t: string)
    requires t != [] && IsDigit(t[0]) && IsDigit(t[|t| - 1])
    ensures TrimStart(t) == t && TrimEnd(t) == t && TrimEnd(TrimStart(t)) == t
  {
  }
}
