/**
 * The JSON converter between a set of string pairs, as Home Assistant sends
 * it (`[["key", "value"], ...]`), and a string dictionary.
 *
 * A `Dictionary<string, string>` is an association list with distinct keys,
 * in insertion order; a null value is `None`. The deserialised `string[][]`
 * is an optional list of optional string arrays whose elements may be null.
 */
module TupleSetConverter {
  import opened Outcomes

  type Entry = (string, Option<string>)
  type Dictionary = seq<Entry>

  /** A deserialised `string[]`, or null. */
  type StringArray = Option<seq<Option<string>>>

  predicate HasKey(d: Dictionary, key: string) {
    exists i :: 0 <= i < |d| && d[i].0 == key
  }

  /** No key occurs twice. */
  predicate DistinctKeys(d: Dictionary) {
    forall i, j :: 0 <= i < j < |d| ==> d[i].0 != d[j].0
  }

  /** `Dictionary.Add`: a key already present is rejected. */
  function Add(d: Dictionary, key: string, value: Option<string>): (r: Result<Dictionary>)
    ensures r.Ok? <==> !HasKey(d, key)
    ensures r.Ok? ==> r.value == d + [(key, value)]
    ensures r.Err? ==> r.error == Argument
  {
    if exists i :: 0 <= i < |d| && d[i].0 == key then Err(Argument) else Ok(d + [(key, value)])
  }

  /** `x.Length > 1 ? x[1] : null`. */
  function ValueOf(x: seq<Option<string>>): Option<string> {
    if |x| > 1 then x[1] else None
  }

  /** The pair an inner array stands for, when it has a non-null key. */
  predicate WellFormed(x: StringArray) {
    x.Some? && |x.value| >= 1 && x.value[0].Some?
  }

  /**
   * `array.ToDictionary(x => x[0], x => x.Length > 1 ? x[1] : null)`: the
   * inner arrays are added in order; the first that is null, empty, has a null
   * key or repeats a key makes the whole call throw.
   */
  function ToDictionary(xs: seq<StringArray>): (r: Result<Dictionary>)
    ensures r.Ok? ==> |r.value| == |xs| && DistinctKeys(r.value)
    ensures r.Ok? ==> forall i :: 0 <= i < |xs| ==>
      WellFormed(xs[i]) && r.value[i] == (xs[i].value[0].value, ValueOf(xs[i].value))
    decreases |xs|
  {
    if xs == [] then Ok([])
    else
      var front := ToDictionary(xs[..|xs| - 1]);
      var x := xs[|xs| - 1];
      if front.Err? then front
      else if x.None? then Err(NullReference)
      else if |x.value| == 0 then Err(IndexOutOfRange)
      else if x.value[0].None? then Err(ArgumentNull)
      else Add(front.value, x.value[0].value, ValueOf(x.value))
  }

  /** `ReadJson`: null or an empty array gives an empty dictionary. */
  function ReadJson(pairs: Option<seq<StringArray>>): (r: Result<Dictionary>)
    ensures pairs.None? || pairs.value == [] ==> r == Ok([])
    ensures r.Ok? ==> DistinctKeys(r.value)
  {
    if pairs.None? || |pairs.value| == 0 then Ok([]) else ToDictionary(pairs.value)
  }

  /** `WriteJson`: every entry as the two-element array `[key, value]`, in order. */
  function WriteJson(d: Dictionary): (r: seq<StringArray>)
    ensures |r| == |d|
    ensures forall i :: 0 <= i < |d| ==> r[i] == Some([Some(d[i].0), d[i].1])
  {
    seq(|d|, i requires 0 <= i < |d| => Some([Some(d[i].0), d[i].1]))
  }

  /** Reading back what was written gives the same dictionary, entry for entry. */
  lemma {:induction false} ToDictionaryOfWrite(d: Dictionary)
    requires DistinctKeys(d)
    ensures ToDictionary(WriteJson(d)) == Ok(d)
    decreases |d|
  {
    if d != [] {
      var front := d[..|d| - 1];
      var last := d[|d| - 1];
      assert WriteJson(d)[..|d| - 1] == WriteJson(front);
      ToDictionaryOfWrite(front);
      assert !HasKey(front, last.0) by {
        forall i | 0 <= i < |front|
          ensures front[i].0 != last.0
        {
          assert d[i] == front[i];
        }
      }
      assert front + [last] == d;
    }
  }

  lemma ReadJsonOfWrite(d: Dictionary)
    requires DistinctKeys(d)
    ensures ReadJson(Some(WriteJson(d))) == Ok(d)
  {
    ToDictionaryOfWrite(d);
  }

  function KeyOf(x: StringArray): string
    requires WellFormed(x)
  {
    x.value[0].value
  }

  /** Well-formed inner arrays with distinct keys always make a dictionary. */
  lemma {:induction false} DistinctPairsRead(xs: seq<StringArray>)
    requires forall i :: 0 <= i < |xs| ==> WellFormed(xs[i])
    requires forall i, j :: 0 <= i < j < |xs| ==> KeyOf(xs[i]) != KeyOf(xs[j])
    ensures ToDictionary(xs).Ok?
    decreases |xs|
  {
    if xs != [] {
      var front := xs[..|xs| - 1];
      DistinctPairsRead(front);
      var d := ToDictionary(front).value;
      assert !HasKey(d, KeyOf(xs[|xs| - 1])) by {
        forall i | 0 <= i < |d|
          ensures d[i].0 != KeyOf(xs[|xs| - 1])
        {
          assert d[i].0 == KeyOf(front[i]) && front[i] == xs[i];
        }
      }
    }
  }

  /**
   * A key repeated after well-formed, distinct pairs makes `ToDictionary`
   * throw the duplicate-key `ArgumentException` at the repetition.
   */
  lemma RepeatedKeyFails(xs: seq<StringArray>, i: nat)
    requires |xs| >= 1 && i < |xs| - 1
    requires forall k :: 0 <= k < |xs| ==> WellFormed(xs[k])
    requires forall k, l :: 0 <= k < l < |xs| - 1 ==> KeyOf(xs[k]) != KeyOf(xs[l])
    requires KeyOf(xs[i]) == KeyOf(xs[|xs| - 1])
    ensures ToDictionary(xs) == Err(Argument)
  {
    var front := xs[..|xs| - 1];
    DistinctPairsRead(front);
    var d := ToDictionary(front).value;
    assert d[i].0 == KeyOf(xs[i]);
  }
}
