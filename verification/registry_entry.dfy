/**
 * `RegistryEntryBase`: a registry entry that the user can edit through the
 * API. It owns an ordered list of modifiable properties and tracks whether it
 * came from the server (deserialised) and whether it has a unique id.
 *
 * The entry kinds (areas, devices, users, entity entries, storage entries)
 * each hold one `RegistryEntry` whose properties follow the kind's layout.
 */
module RegistryEntries {
  import opened Outcomes
  import opened Modifiable
  import opened Sequences

  /** The name and kind of each property, in declaration order. */
  function Layout(props: seq<Property>): (r: seq<(string, Kind)>)
    ensures |r| == |props|
    ensures forall i :: 0 <= i < |props| ==> r[i] == (props[i].name, KindOf(props[i]))
  {
    seq(|props|, i requires 0 <= i < |props| => (props[i].name, KindOf(props[i])))
  }

  /** The properties of a freshly built entry: each at its default, nothing pending. */
  function NewProperties(layout: seq<(string, Kind)>): (r: seq<Property>)
    ensures Layout(r) == layout
    ensures forall i :: 0 <= i < |r| ==> Consistent(r[i]) && !IsPending(r[i])
  {
    var r := seq(|layout|, i requires 0 <= i < |layout| => NewProperty(layout[i].0, layout[i].1));
    assert forall i :: 0 <= i < |r| ==> Tracks(r[i], {}) || r[i].Single?;
    r
  }

  /** What a text cell holds; a cell of another kind reads as null. */
  function TextOf(v: Scalar): Option<string> {
    if v.Text? then v.text else None
  }

  /** What a flag cell holds; a cell of another kind reads as `false`. */
  function FlagOf(v: Scalar): bool {
    v.Flag? && v.flag
  }

  /** What a `DisabledByEnum?` cell holds; a cell of another kind reads as null. */
  function DisablingOf(v: Scalar): Option<DisabledBy> {
    if v.Disabling? then v.source else None
  }

  /** `stored ?? original`: the override when one is stored, the original value otherwise. */
  function OrOriginal(stored: Option<string>, original: Option<string>): Option<string> {
    if stored.Some? then stored else original
  }

  /**
   * What an override setter (`value != original ? value : null`) stores:
   * nothing for the original value itself. Reading back through `OrOriginal`
   * gives the value set, or the original value for null.
   */
  function Override(value: Option<string>, original: Option<string>): (r: Option<string>)
    ensures OrOriginal(r, original) == if value.None? then original else value
    ensures r.Some? ==> r == value && value != original
    ensures r.None? ==> value.None? || value == original
  {
    if value == original then None else value
  }

  predicate AllConsistent(props: seq<Property>) {
    forall i :: 0 <= i < |props| ==> Consistent(props[i])
  }

  /** `HasPendingChanges`: some property has pending changes. */
  predicate AnyPending(props: seq<Property>) {
    exists i :: 0 <= i < |props| && IsPending(props[i])
  }

  /** `GetModifiablePropertyNames`: every property's name, in order. */
  function Names(props: seq<Property>): (r: seq<string>)
    ensures |r| == |props|
    ensures forall i :: 0 <= i < |props| ==> r[i] == props[i].name
  {
    seq(|props|, i requires 0 <= i < |props| => props[i].name)
  }

  /** `GetModifiedPropertyNames`: the names of the pending properties, in order. */
  function PendingNames(props: seq<Property>): (r: seq<string>)
    decreases |props|
  {
    if props == [] then []
    else if IsPending(props[0]) then [props[0].name] + PendingNames(props[1..])
    else PendingNames(props[1..])
  }

  /**
   * The modified names are exactly the names of pending properties, listed
   * in declaration order, so they form a subsequence of all the names.
   */
  lemma PendingNamesSpec(props: seq<Property>)
    ensures IsSubsequence(PendingNames(props), Names(props))
    ensures forall n :: n in PendingNames(props) <==>
      exists i :: 0 <= i < |props| && IsPending(props[i]) && props[i].name == n
    ensures PendingNames(props) == [] <==> !AnyPending(props)
  {
    PendingNamesInOrder(props);
    PendingNamesMembers(props);
  }

  /** The modified names keep the declaration order. */
  lemma {:induction false} PendingNamesInOrder(props: seq<Property>)
    ensures IsSubsequence(PendingNames(props), Names(props))
    decreases |props|
  {
    if props != [] {
      var rest := props[1..];
      PendingNamesInOrder(rest);
      assert Names(props) == [props[0].name] + Names(rest);
      if IsPending(props[0]) {
        assert ([props[0].name] + PendingNames(rest))[1..] == PendingNames(rest);
      } else {
        DropFirstSubsequence(PendingNames(rest), Names(props));
      }
    }
  }

  /** A name is modified exactly when some pending property has it; none is when nothing is pending. */
  lemma {:induction false} PendingNamesMembers(props: seq<Property>)
    ensures forall n :: n in PendingNames(props) <==>
      exists i :: 0 <= i < |props| && IsPending(props[i]) && props[i].name == n
    ensures PendingNames(props) == [] <==> !AnyPending(props)
    decreases |props|
  {
    if props != [] {
      var rest := props[1..];
      PendingNamesMembers(rest);
      assert forall i :: 1 <= i < |props| ==> props[i] == rest[i - 1];
      assert AnyPending(props) <==> IsPending(props[0]) || AnyPending(rest) by {
        if AnyPending(rest) {
          var k :| 0 <= k < |rest| && IsPending(rest[k]);
          assert IsPending(props[k + 1]);
        }
      }
      forall n
        ensures n in PendingNames(props) <==>
          exists i :: 0 <= i < |props| && IsPending(props[i]) && props[i].name == n
      {
        if exists i :: 1 <= i < |props| && IsPending(props[i]) && props[i].name == n {
          var i :| 1 <= i < |props| && IsPending(props[i]) && props[i].name == n;
          assert IsPending(rest[i - 1]) && rest[i - 1].name == n;
        }
      }
    }
  }

  /** Some property other than the one at `i` has pending changes. */
  predicate PendingExcept(props: seq<Property>, i: nat) {
    exists j :: 0 <= j < |props| && j != i && IsPending(props[j])
  }

  /**
   * Replacing the property at `i` leaves the entry pending exactly when the
   * new property is, or some other property already was.
   */
  lemma PendingAfterUpdate(props: seq<Property>, i: nat, q: Property)
    requires i < |props|
    ensures AnyPending(props[i := q]) <==> IsPending(q) || PendingExcept(props, i)
    ensures PendingExcept(props[i := q], i) == PendingExcept(props, i)
  {
    var after := props[i := q];
    if PendingExcept(props, i) {
      var j :| 0 <= j < |props| && j != i && IsPending(props[j]);
      assert IsPending(after[j]);
    }
    if PendingExcept(after, i) {
      var j :| 0 <= j < |after| && j != i && IsPending(after[j]);
      assert IsPending(props[j]);
    }
    if IsPending(q) {
      assert IsPending(after[i]);
    }
  }

  /**
   * Setting a property of a saved entry to a new value makes the entry
   * pending exactly when the value differs from the current one; setting the
   * old value back clears it again.
   */
  lemma SetBackClears(props: seq<Property>, i: nat, v: Scalar)
    requires i < |props| && props[i].Single? && ScalarKind(v) == KindOf(props[i]) && !AnyPending(props)
    ensures AnyPending(props[i := SetValue(props[i], v)]) <==> v != props[i].current
    ensures !AnyPending(props[i := SetValue(SetValue(props[i], v), props[i].current)])
  {
    assert props[i].current == props[i].saved;
    assert !PendingExcept(props, i);
    PendingAfterUpdate(props, i, SetValue(props[i], v));
    PendingAfterUpdate(props, i, SetValue(SetValue(props[i], v), props[i].current));
  }

  /** The concrete class of an entry, which the `is` tests of the `Equals` overrides look at. */
  datatype EntryKind = AreaKind | DeviceKind | UserKind | EntityKind | InputBooleanKind | PersonKind
  {
    /** The classes derived from `EntityRegistryEntryBase`. */
    predicate IsEntity() {
      EntityKind? || InputBooleanKind? || PersonKind?
    }
  }

  /**
   * The `is` test of an `Equals` override: `EntityRegistryEntryBase` accepts
   * every class derived from it, while `Area`, `Device` and `User` accept
   * only themselves.
   */
  predicate PassesIsTest(own: EntryKind, other: EntryKind) {
    if own.IsEntity() then other.IsEntity() else other == own
  }

  /**
   * `Equals(object obj)` as every entry kind overrides it: a non-null entry
   * that passes the kind's `is` test and has the same unique id, null ids
   * included.
   */
  predicate EntryEquals(a: RegistryEntry, b: RegistryEntry?)
    reads a, b
  {
    b != null && PassesIsTest(a.kind, b.kind) && a.uniqueId == b.uniqueId
  }

  /** The overrides together are symmetric: an entry equal to one of another kind is equal back. */
  lemma EntryEqualsSymmetric(a: RegistryEntry, b: RegistryEntry)
    ensures EntryEquals(a, b) <==> EntryEquals(b, a)
  {
  }

  /** The overrides together are transitive, across kinds too. */
  lemma EntryEqualsTransitive(a: RegistryEntry, b: RegistryEntry, c: RegistryEntry)
    requires EntryEquals(a, b) && EntryEquals(b, c)
    ensures EntryEquals(a, c)
  {
  }

  class RegistryEntry {
    /** The class of the entry that holds this state. */
    const kind: EntryKind
    /** The modifiable properties, in the order the entry kind declares them. */
    var props: seq<Property>
    /** Set once the entry has been read from the server. */
    var isDeserialized: bool
    /** `UniqueId`; null before the server assigns one and after `Untrack`. */
    var uniqueId: Option<string>

    constructor(kind: EntryKind, props: seq<Property>)
      ensures this.kind == kind && this.props == props && !isDeserialized && uniqueId.None?
    {
      this.kind := kind;
      this.props := props;
      isDeserialized := false;
      uniqueId := None;
    }

    /** The entry's properties follow `layout` and each keeps its own invariant. */
    predicate Conforms(layout: seq<(string, Kind)>)
      reads this
    {
      Layout(props) == layout && AllConsistent(props)
    }

    predicate HasPendingChanges()
      reads this
    {
      AnyPending(props)
    }

    /** `IsTracked`: read from the server and still holding a unique id. */
    predicate IsTracked()
      reads this
    {
      isDeserialized && uniqueId.Some?
    }

    function GetModifiablePropertyNames(): seq<string>
      reads this
    {
      Names(props)
    }

    function GetModifiedPropertyNames(): seq<string>
      reads this
    {
      PendingNames(props)
    }

    /** `SaveChanges`: every property saves its current value. */
    method SaveChanges()
      modifies this`props
      ensures |props| == |old(props)|
      ensures forall i :: 0 <= i < |props| ==> props[i] == Save(old(props)[i])
      ensures !HasPendingChanges()
      ensures Layout(props) == Layout(old(props))
      ensures AllConsistent(old(props)) ==> AllConsistent(props)
      ensures isDeserialized == old(isDeserialized) && uniqueId == old(uniqueId)
    {
      var i := 0;
      while i < |props|
        invariant 0 <= i <= |props| == |old(props)|
        invariant forall k :: 0 <= k < i ==> props[k] == Save(old(props)[k])
        invariant forall k :: i <= k < |props| ==> props[k] == old(props)[k]
        invariant isDeserialized == old(isDeserialized) && uniqueId == old(uniqueId)
      {
        props := props[i := Save(props[i])];
        i := i + 1;
      }
      SavedAll(old(props), props);
    }

    /** `DiscardPendingChanges`: every property goes back to its saved value. */
    method DiscardPendingChanges()
      modifies this`props
      ensures |props| == |old(props)|
      ensures forall i :: 0 <= i < |props| ==> props[i] == Discard(old(props)[i])
      ensures !HasPendingChanges()
      ensures AllConsistent(old(props)) ==> Layout(props) == Layout(old(props)) && AllConsistent(props)
      ensures isDeserialized == old(isDeserialized) && uniqueId == old(uniqueId)
    {
      var i := 0;
      while i < |props|
        invariant 0 <= i <= |props| == |old(props)|
        invariant forall k :: 0 <= k < i ==> props[k] == Discard(old(props)[k])
        invariant forall k :: i <= k < |props| ==> props[k] == old(props)[k]
        invariant isDeserialized == old(isDeserialized) && uniqueId == old(uniqueId)
      {
        props := props[i := Discard(props[i])];
        i := i + 1;
      }
      DiscardedAll(old(props), props);
    }

    /** `Untrack`: the unique id is dropped, so the entry is no longer tracked. */
    method Untrack()
      modifies this`uniqueId
      ensures uniqueId.None? && !IsTracked()
      ensures props == old(props) && isDeserialized == old(isDeserialized)
    {
      uniqueId := None;
    }

    /** The `[OnDeserialized]` hook: marks the entry as read from the server, then saves. */
    method OnDeserialized()
      modifies this`isDeserialized, this`props
      ensures isDeserialized && uniqueId == old(uniqueId)
      ensures |props| == |old(props)|
      ensures forall i :: 0 <= i < |props| ==> props[i] == Save(old(props)[i])
      ensures !HasPendingChanges()
      ensures Layout(props) == Layout(old(props))
      ensures AllConsistent(old(props)) ==> AllConsistent(props)
      ensures IsTracked() <==> uniqueId.Some?
    {
      isDeserialized := true;
      SaveChanges();
    }

    /** The `Value` setter of the scalar property at `i`. */
    method SetScalar(i: nat, v: Scalar)
      requires i < |props| && props[i].Single? && ScalarKind(v) == KindOf(props[i])
      modifies this`props
      ensures props == old(props)[i := SetValue(old(props)[i], v)]
      ensures AnyPending(props) <==> v != old(props)[i].saved || PendingExcept(old(props), i)
      ensures PendingExcept(props, i) == PendingExcept(old(props), i)
      ensures Layout(props) == Layout(old(props))
      ensures AllConsistent(old(props)) ==> AllConsistent(props)
      ensures isDeserialized == old(isDeserialized) && uniqueId == old(uniqueId)
    {
      PendingAfterUpdate(props, i, SetValue(props[i], v));
      props := props[i := SetValue(props[i], v)];
      assert Layout(props) == Layout(old(props));
    }

    /** `Value.Add` on the set property at `i`: a rejected item throws and changes nothing. */
    method AddItem(i: nat, x: string) returns (r: Outcome)
      requires i < |props| && props[i].Collection?
      modifies this`props
      ensures Insert(old(props)[i], x).Err? ==> r == Fail(InvalidOperation) && props == old(props)
      ensures Insert(old(props)[i], x).Ok? ==> r == Pass && props == old(props)[i := Insert(old(props)[i], x).value]
      ensures r.Pass? && Consistent(old(props)[i]) ==>
        Elems(props[i].items) == Elems(old(props)[i].items) + {x} && SavedItems(props[i]) == SavedItems(old(props)[i])
      ensures AnyPending(props) <==> IsPending(props[i]) || PendingExcept(old(props), i)
      ensures PendingExcept(props, i) == PendingExcept(old(props), i)
      ensures Layout(props) == Layout(old(props))
      ensures AllConsistent(old(props)) ==> AllConsistent(props)
      ensures isDeserialized == old(isDeserialized) && uniqueId == old(uniqueId)
    {
      var q := Insert(props[i], x);
      if q.Err? {
        PendingAfterUpdate(props, i, props[i]);
        assert props[i := props[i]] == props;
        return Fail(q.error);
      }
      PendingAfterUpdate(props, i, q.value);
      if Consistent(props[i]) {
        InsertTracks(props[i], SavedItems(props[i]), x);
        TracksSaved(q.value, SavedItems(props[i]));
      }
      props := props[i := q.value];
      assert Layout(props) == Layout(old(props));
      r := Pass;
    }

    /** `Value.Remove` on the set property at `i`: reports whether the item was there. */
    method RemoveItem(i: nat, x: string) returns (removed: bool)
      requires i < |props| && props[i].Collection?
      modifies this`props
      ensures removed <==> x in old(props)[i].items
      ensures props == old(props)[i := Remove(old(props)[i], x).0]
      ensures Consistent(old(props)[i]) ==>
        Elems(props[i].items) == Elems(old(props)[i].items) - {x} && SavedItems(props[i]) == SavedItems(old(props)[i])
      ensures AnyPending(props) <==> IsPending(props[i]) || PendingExcept(old(props), i)
      ensures PendingExcept(props, i) == PendingExcept(old(props), i)
      ensures Layout(props) == Layout(old(props))
      ensures AllConsistent(old(props)) ==> AllConsistent(props)
      ensures isDeserialized == old(isDeserialized) && uniqueId == old(uniqueId)
    {
      var q := Remove(props[i], x);
      PendingAfterUpdate(props, i, q.0);
      if Consistent(props[i]) {
        RemoveTracks(props[i], SavedItems(props[i]), x);
        TracksSaved(q.0, SavedItems(props[i]));
      }
      props := props[i := q.0];
      assert Layout(props) == Layout(old(props));
      removed := q.1;
    }

    /** `Value.Clear` on the set property at `i`. */
    method ClearItems(i: nat)
      requires i < |props| && props[i].Collection?
      modifies this`props
      ensures props == old(props)[i := Clear(old(props)[i])]
      ensures Consistent(old(props)[i]) ==> SavedItems(props[i]) == SavedItems(old(props)[i])
      ensures AnyPending(props) <==> IsPending(props[i]) || PendingExcept(old(props), i)
      ensures PendingExcept(props, i) == PendingExcept(old(props), i)
      ensures Layout(props) == Layout(old(props))
      ensures AllConsistent(old(props)) ==> AllConsistent(props)
      ensures isDeserialized == old(isDeserialized) && uniqueId == old(uniqueId)
    {
      var q := Clear(props[i]);
      PendingAfterUpdate(props, i, q);
      if Consistent(props[i]) {
        ClearTracks(props[i], SavedItems(props[i]));
        TracksSaved(q, SavedItems(props[i]));
      }
      props := props[i := q];
      assert Layout(props) == Layout(old(props));
    }
  }

  lemma SaveConsistent(p: Property)
    ensures Consistent(p) ==> Consistent(Save(p))
  {
    if p.Collection? && Consistent(p) {
      SaveTracks(p, SavedItems(p));
      TracksSaved(Save(p), Elems(p.items));
    }
  }

  lemma DiscardConsistent(p: Property)
    ensures Consistent(p) ==> Consistent(Discard(p))
  {
    if p.Collection? && Consistent(p) {
      DiscardTracks(p, SavedItems(p));
      TracksSaved(Discard(p), SavedItems(p));
    }
  }

  /** Saving every property clears the pending flag and keeps names, kinds and invariants. */
  lemma SavedAll(before: seq<Property>, after: seq<Property>)
    requires |after| == |before|
    requires forall i :: 0 <= i < |after| ==> after[i] == Save(before[i])
    ensures !AnyPending(after)
    ensures Layout(after) == Layout(before)
    ensures AllConsistent(before) ==> AllConsistent(after)
  {
    forall i | 0 <= i < |after|
      ensures Consistent(before[i]) ==> Consistent(after[i])
    {
      SaveConsistent(before[i]);
    }
  }

  /** Discarding every property clears the pending flag and keeps names, kinds and invariants. */
  lemma DiscardedAll(before: seq<Property>, after: seq<Property>)
    requires |after| == |before|
    requires forall i :: 0 <= i < |after| ==> after[i] == Discard(before[i])
    ensures !AnyPending(after)
    ensures AllConsistent(before) ==> Layout(after) == Layout(before) && AllConsistent(after)
  {
    forall i | 0 <= i < |after|
      ensures Consistent(before[i]) ==> Consistent(after[i])
    {
      DiscardConsistent(before[i]);
    }
  }
}
