/**
 * The contract resolver that keeps only the selected properties of an object
 * when it is serialised.
 *
 * The properties that the base resolver creates for a type are an input:
 * reflection over .NET types is not part of this model.
 */
module SelectedProperties {
  import opened Outcomes
  import opened Sequences

  /** A serialisable property: its JSON name and the name of the C# member behind it. */
  datatype JsonProperty = JsonProperty(propertyName: string, underlyingName: string)

  /** The properties whose member name is selected, in their original order. */
  function Keep(props: seq<JsonProperty>, selected: set<string>): (r: seq<JsonProperty>)
    ensures |r| <= |props|
    ensures forall p :: p in r <==> p in props && p.underlyingName in selected
    ensures forall p :: multiset(r)[p] == if p.underlyingName in selected then multiset(props)[p] else 0
    decreases |props|
  {
    if props == [] then []
    else
      var rest := Keep(props[1..], selected);
      assert props == [props[0]] + props[1..];
      assert forall p :: p in props <==> p == props[0] || p in props[1..];
      if props[0].underlyingName in selected then [props[0]] + rest else rest
  }

  /** Filtering keeps the base order. */
  lemma {:induction false} KeepIsSubsequence(props: seq<JsonProperty>, selected: set<string>)
    ensures IsSubsequence(Keep(props, selected), props)
    decreases |props|
  {
    if props != [] {
      KeepIsSubsequence(props[1..], selected);
      var rest := Keep(props[1..], selected);
      if props[0].underlyingName in selected {
        assert ([props[0]] + rest)[1..] == rest;
      } else {
        DropFirstSubsequence(rest, props);
      }
    }
  }

  /** With one selected name that exactly one property carries, exactly that property survives. */
  lemma {:induction false} KeepSingle(props: seq<JsonProperty>, i: nat)
    requires i < |props|
    requires forall j :: 0 <= j < |props| && j != i ==> props[j].underlyingName != props[i].underlyingName
    ensures Keep(props, {props[i].underlyingName}) == [props[i]]
    decreases |props|
  {
    var name := props[i].underlyingName;
    if i == 0 {
      NoneKept(props[1..], name);
    } else {
      KeepSingle(props[1..], i - 1);
    }
  }

  lemma {:induction false} NoneKept(props: seq<JsonProperty>, name: string)
    requires forall j :: 0 <= j < |props| ==> props[j].underlyingName != name
    ensures Keep(props, {name}) == []
    decreases |props|
  {
    if props != [] {
      NoneKept(props[1..], name);
    }
  }

  /** `SelectedPropertiesContractResolver`: the white-list of member names, null until set. */
  class SelectedPropertiesContractResolver {
    var selectedProperties: Option<set<string>>

    constructor()
      ensures selectedProperties.None?
    {
      selectedProperties := None;
    }

    /** The `SelectedProperties` setter: `new HashSet<string>(value)`, which rejects null. */
    method SetSelectedProperties(names: Option<seq<string>>) returns (r: Outcome)
      modifies this
      ensures names.None? ==> r == Fail(ArgumentNull) && selectedProperties == old(selectedProperties)
      ensures names.Some? ==> r == Pass && selectedProperties == Some(set n | n in names.value)
    {
      if names.None? {
        return Fail(ArgumentNull);
      }
      selectedProperties := Some(set n | n in names.value);
      r := Pass;
    }

    /**
     * `CreateProperties`: the base properties whose member name is selected,
     * in base order. Before any selection the null set cannot be queried,
     * but `Where` only queries it once there is a base property to test.
     */
    method CreateProperties(allProps: seq<JsonProperty>) returns (r: Result<seq<JsonProperty>>)
      ensures selectedProperties.None? && allProps != [] <==> r == Err(NullReference)
      ensures allProps == [] ==> r == Ok([])
      ensures r.Ok? ==> IsSubsequence(r.value, allProps)
      ensures r.Ok? && selectedProperties.Some? ==>
        forall p :: p in r.value <==> p in allProps && p.underlyingName in selectedProperties.value
    {
      if allProps == [] {
        return Ok([]);
      }
      if selectedProperties.None? {
        return Err(NullReference);
      }
      KeepIsSubsequence(allProps, selectedProperties.value);
      r := Ok(Keep(allProps, selectedProperties.value));
    }
  }
}
