/**
 * Modifiable properties: the dirty-tracking cells of the registry entries.
 *
 * A scalar property keeps its current value and the value saved last; it has
 * pending changes while the two differ. A collection property is an
 * observable hash set: a duplicate-free list of items together with the
 * items added and removed since the last save.
 */
module Modifiable {
  import opened Outcomes
  import opened EntityIds

  /** `DisabledByEnum`: the members the library names; any other source is `OtherSource`. */
  datatype DisabledBy = NoSource | IntegrationSource | UserSource | OtherSource

  /** A scalar value: a nullable string, a `bool`, or a nullable `DisabledByEnum`. */
  datatype Scalar =
    | Text(text: Option<string>)
    | Flag(flag: bool)
    | Disabling(source: Option<DisabledBy>)

  /** The validation function a collection property applies to new items. */
  datatype Validator = AnyValue | EntityIdOf(domain: KnownDomain)

  /** What a property holds; a registry entry's layout is the names and kinds of its properties. */
  datatype Kind = TextKind | FlagKind | DisablingKind | CollectionKind(validator: Validator)

  datatype Property =
    | Single(name: string, current: Scalar, saved: Scalar)
    | Collection(name: string, validator: Validator, items: seq<string>, added: set<string>, removed: seq<string>)

  function ScalarKind(v: Scalar): Kind {
    match v
    case Text(_) => TextKind
    case Flag(_) => FlagKind
    case Disabling(_) => DisablingKind
  }

  function KindOf(p: Property): Kind {
    if p.Single? then ScalarKind(p.current) else CollectionKind(p.validator)
  }

  /** The value of a fresh field of the kind: `default(T)`. */
  function DefaultOf(k: Kind): Scalar
    requires !k.CollectionKind?
  {
    match k
    case TextKind => Text(None)
    case FlagKind => Flag(false)
    case DisablingKind => Disabling(None)
  }

  /** `HasPendingChanges` of a property. */
  /** A scalar's saved value is of the same kind as its current one. */
  predicate WellKinded(p: Property) {
    p.Single? ==> ScalarKind(p.saved) == ScalarKind(p.current)
  }

  predicate IsPending(p: Property) {
    if p.Single? then p.current != p.saved else p.added != {} || p.removed != []
  }

  /** A new property: default value saved, or an empty set. */
  function NewProperty(name: string, k: Kind): (p: Property)
    ensures p.name == name && KindOf(p) == k && WellKinded(p) && !IsPending(p)
    ensures p.Collection? ==> p.items == []
  {
    if k.CollectionKind? then Collection(name, k.validator, [], {}, [])
    else Single(name, DefaultOf(k), DefaultOf(k))
  }

  /** The `Value` setter of a scalar property. */
  function SetValue(p: Property, v: Scalar): (r: Property)
    requires p.Single? && ScalarKind(v) == KindOf(p)
    ensures r.Single? && r.name == p.name && KindOf(r) == KindOf(p)
    ensures WellKinded(p) ==> WellKinded(r)
    ensures r.current == v && r.saved == p.saved
    ensures IsPending(r) <==> v != p.saved
  {
    Single(p.name, v, p.saved)
  }

  /** Elements of a list, as a set. */
  function Elems(s: seq<string>): set<string> {
    set x | x in s
  }

  predicate Distinct(s: seq<string>) {
    forall i, j :: 0 <= i < j < |s| ==> s[i] != s[j]
  }

  /** The items of `s` that are not in `drop`, in order. */
  function Without(s: seq<string>, drop: set<string>): (r: seq<string>)
    ensures forall x :: x in r <==> x in s && x !in drop
    ensures Distinct(s) ==> Distinct(r)
    decreases |s|
  {
    if s == [] then []
    else
      var rest := Without(s[1..], drop);
      assert forall x :: x in s <==> x == s[0] || x in s[1..];
      if s[0] in drop then rest
      else
        assert Distinct(s) ==> s[0] !in s[1..];
        [s[0]] + rest
  }

  /** `Save` of a property: the current value becomes the saved one. */
  function Save(p: Property): (r: Property)
    ensures r.name == p.name && KindOf(r) == KindOf(p) && WellKinded(r) && !IsPending(r)
    ensures p.Single? ==> r.Single? && r.current == p.current
    ensures p.Collection? ==> r.items == p.items
  {
    match p
    case Single(name, current, _) => Single(name, current, current)
    case Collection(name, validator, items, _, _) => Collection(name, validator, items, {}, [])
  }

  /**
   * `DiscardPendingChanges` of a property: a scalar gets its saved value back;
   * a set re-appends the removed items and drops the added ones.
   */
  function Discard(p: Property): (r: Property)
    ensures r.name == p.name && WellKinded(r) && !IsPending(r)
    ensures WellKinded(p) ==> KindOf(r) == KindOf(p)
    ensures p.Single? ==> r.Single? && r.current == p.saved
    ensures p.Collection? ==> r.items == Without(p.items, p.added) + p.removed
  {
    match p
    case Single(name, _, saved) => Single(name, saved, saved)
    case Collection(name, validator, items, added, removed) =>
      Collection(name, validator, Without(items, added) + removed, {}, [])
  }

  /** The validation function of a collection applied to an item. */
  predicate Accepts(v: Validator, x: string) {
    match v
    case AnyValue => true
    case EntityIdOf(d) => IsEntityIdOf(x, DomainString(d))
  }

  /**
   * `Add` on the set: an item already present is ignored; a rejected item
   * throws; otherwise it is appended and either un-removed or marked added.
   */
  function Insert(p: Property, x: string): (r: Result<Property>)
    requires p.Collection?
    ensures r.Ok? <==> x in p.items || Accepts(p.validator, x)
    ensures r.Err? ==> r.error == InvalidOperation
    ensures r.Ok? ==> r.value.Collection? && r.value.name == p.name && r.value.validator == p.validator
    ensures r.Ok? ==> r.value.items == if x in p.items then p.items else p.items + [x]
  {
    if x in p.items then Ok(p)
    else if !Accepts(p.validator, x) then Err(InvalidOperation)
    else if x in p.removed then
      Ok(Collection(p.name, p.validator, p.items + [x], p.added, Without(p.removed, {x})))
    else Ok(Collection(p.name, p.validator, p.items + [x], p.added + {x}, p.removed))
  }

  /** `Remove` on the set: reports whether the item was there; an added item is forgotten, another is marked removed. */
  function Remove(p: Property, x: string): (r: (Property, bool))
    requires p.Collection?
    ensures r.1 <==> x in p.items
    ensures r.0.Collection? && r.0.name == p.name && r.0.validator == p.validator
    ensures r.0.items == Without(p.items, {x})
  {
    if x !in p.items then
      assert Without(p.items, {x}) == p.items by { WithoutNothing(p.items, {x}); }
      (p, false)
    else if x in p.added then
      (Collection(p.name, p.validator, Without(p.items, {x}), p.added - {x}, p.removed), true)
    else (Collection(p.name, p.validator, Without(p.items, {x}), p.added, p.removed + [x]), true)
  }

  /** `Clear` on the set: every item not added since the save is marked removed. */
  function Clear(p: Property): (r: Property)
    requires p.Collection?
    ensures r.Collection? && r.name == p.name && r.validator == p.validator && r.items == []
  {
    Collection(p.name, p.validator, [], {}, p.removed + Without(p.items, p.added))
  }

  /** `Add` for each item in turn; the first rejected item stops it. */
  function InsertAll(p: Property, xs: seq<string>): (r: Result<Property>)
    requires p.Collection?
    ensures r.Ok? ==> r.value.Collection? && r.value.name == p.name && r.value.validator == p.validator
    decreases |xs|
  {
    if xs == [] then Ok(p)
    else
      var q :- Insert(p, xs[0]);
      InsertAll(q, xs[1..])
  }

  lemma {:induction false} WithoutNothing(s: seq<string>, drop: set<string>)
    requires forall x :: x in s ==> x !in drop
    ensures Without(s, drop) == s
    decreases |s|
  {
    if s != [] {
      WithoutNothing(s[1..], drop);
      assert [s[0]] + s[1..] == s;
    }
  }

  /**
   * The bookkeeping of a set against the items it held at the last save: the
   * items are distinct, the added ones are exactly the new items, and the
   * removed ones, without repetition, exactly the lost ones; every item,
   * present or removed, passed validation when it was added.
   */
  predicate Tracks(p: Property, saved: set<string>) {
    p.Collection? && Distinct(p.items) && Distinct(p.removed)
    && (forall x :: x in p.items ==> Accepts(p.validator, x))
    && (forall x :: x in p.removed ==> Accepts(p.validator, x))
    && p.added == Elems(p.items) - saved
    && Elems(p.removed) == saved - Elems(p.items)
  }

  /** A tracked set has pending changes exactly when its items differ from the saved ones. */
  lemma TracksPending(p: Property, saved: set<string>)
    requires Tracks(p, saved)
    ensures IsPending(p) <==> Elems(p.items) != saved
  {
    if p.removed != [] {
      assert p.removed[0] in Elems(p.removed);
    }
    if Elems(p.items) != saved {
      if Elems(p.items) - saved == {} {
        assert saved - Elems(p.items) != {};
        var y :| y in saved - Elems(p.items);
        assert y in Elems(p.removed);
      }
    }
  }

  /** Saving starts tracking against the current items. */
  lemma SaveTracks(p: Property, saved: set<string>)
    requires Tracks(p, saved)
    ensures Tracks(Save(p), Elems(p.items))
  {
  }

  /** A new set is tracked against no items. */
  lemma NewTracks(name: string, v: Validator)
    ensures Tracks(NewProperty(name, CollectionKind(v)), {})
  {
  }

  lemma InsertTracks(p: Property, saved: set<string>, x: string)
    requires Tracks(p, saved) && Insert(p, x).Ok?
    ensures Tracks(Insert(p, x).value, saved)
    ensures Elems(Insert(p, x).value.items) == Elems(p.items) + {x}
  {
    var q := Insert(p, x).value;
    if x !in p.items {
      assert Elems(q.items) == Elems(p.items) + {x};
      if x in p.removed {
        assert x in Elems(p.removed);
        assert Elems(q.removed) == Elems(p.removed) - {x};
        assert q.added == Elems(q.items) - saved;
      } else {
        assert x !in Elems(p.removed);
        assert q.added == Elems(q.items) - saved;
      }
    }
  }

  lemma RemoveTracks(p: Property, saved: set<string>, x: string)
    requires Tracks(p, saved)
    ensures Tracks(Remove(p, x).0, saved)
    ensures Elems(Remove(p, x).0.items) == Elems(p.items) - {x}
  {
    var q := Remove(p, x).0;
    assert Elems(q.items) == Elems(p.items) - {x};
    if x in p.items && x !in p.added {
      assert x !in Elems(p.removed);
      assert Elems(q.removed) == Elems(p.removed) + {x};
    }
  }

  lemma ClearTracks(p: Property, saved: set<string>)
    requires Tracks(p, saved)
    ensures Tracks(Clear(p), saved)
  {
    var q := Clear(p);
    var kept := Without(p.items, p.added);
    assert Elems(q.removed) == Elems(p.removed) + Elems(kept);
    forall i, j | 0 <= i < j < |q.removed|
      ensures q.removed[i] != q.removed[j]
    {
      if j >= |p.removed| && i < |p.removed| {
        assert q.removed[j] in kept;
        assert q.removed[i] in Elems(p.removed);
      }
    }
  }

  /** Discarding restores the saved items, so nothing is pending any more. */
  lemma DiscardTracks(p: Property, saved: set<string>)
    requires Tracks(p, saved)
    ensures Tracks(Discard(p), saved)
    ensures Elems(Discard(p).items) == saved
  {
    var q := Discard(p);
    var kept := Without(p.items, p.added);
    assert Elems(q.items) == Elems(kept) + Elems(p.removed);
    forall i, j | 0 <= i < j < |q.items|
      ensures q.items[i] != q.items[j]
    {
      if j >= |kept| && i < |kept| {
        assert q.items[i] in Elems(p.items);
        assert q.items[j] in Elems(p.removed);
      }
    }
  }

  lemma {:induction false} InsertAllTracks(p: Property, saved: set<string>, xs: seq<string>)
    requires Tracks(p, saved) && InsertAll(p, xs).Ok?
    ensures Tracks(InsertAll(p, xs).value, saved)
    ensures Elems(InsertAll(p, xs).value.items) == Elems(p.items) + Elems(xs)
    decreases |xs|
  {
    if xs != [] {
      var q := Insert(p, xs[0]).value;
      InsertTracks(p, saved, xs[0]);
      InsertAllTracks(q, saved, xs[1..]);
      assert Elems(xs) == {xs[0]} + Elems(xs[1..]);
    }
  }

  /** Adding a new item and removing it again leaves a saved set without pending changes. */
  lemma AddThenRemoveClears(p: Property, x: string)
    requires p.Collection? && Tracks(p, Elems(p.items)) && x !in p.items && Accepts(p.validator, x)
    ensures IsPending(Insert(p, x).value)
    ensures !IsPending(Remove(Insert(p, x).value, x).0)
  {
    var saved := Elems(p.items);
    var q := Insert(p, x).value;
    InsertTracks(p, saved, x);
    TracksPending(q, saved);
    RemoveTracks(q, saved, x);
    TracksPending(Remove(q, x).0, saved);
  }

  /** Removing a saved item and adding it back leaves no pending changes. */
  lemma RemoveThenAddClears(p: Property, x: string)
    requires p.Collection? && Tracks(p, Elems(p.items)) && x in p.items
    ensures IsPending(Remove(p, x).0)
    ensures Insert(Remove(p, x).0, x).Ok?
    ensures !IsPending(Insert(Remove(p, x).0, x).value)
  {
    var saved := Elems(p.items);
    var q := Remove(p, x).0;
    RemoveTracks(p, saved, x);
    TracksPending(q, saved);
    assert x in q.removed by {
      assert x in saved - Elems(q.items);
    }
    InsertTracks(q, saved, x);
    TracksPending(Insert(q, x).value, saved);
  }

  /** Clearing a saved set and adding back every item leaves no pending changes. */
  lemma ClearThenReAddClears(p: Property)
    requires p.Collection? && Tracks(p, Elems(p.items)) && p.items != []
    ensures IsPending(Clear(p))
    ensures InsertAll(Clear(p), p.items).Ok?
    ensures !IsPending(InsertAll(Clear(p), p.items).value)
  {
    var saved := Elems(p.items);
    var q := Clear(p);
    ClearTracks(p, saved);
    assert p.items[0] in saved;
    TracksPending(q, saved);
    ReAddSaved(q, saved, p.items);
    InsertAllTracks(q, saved, p.items);
    TracksPending(InsertAll(q, p.items).value, saved);
  }

  /** Items that were saved are never rejected when added back. */
  lemma {:induction false} ReAddSaved(p: Property, saved: set<string>, xs: seq<string>)
    requires Tracks(p, saved) && Elems(xs) <= saved
    ensures InsertAll(p, xs).Ok?
    decreases |xs|
  {
    if xs != [] {
      var x := xs[0];
      assert x in saved;
      if x !in p.items {
        assert x in Elems(p.removed);
      }
      InsertTracks(p, saved, x);
      var q := Insert(p, x).value;
      assert Elems(xs[1..]) <= Elems(xs);
      ReAddSaved(q, saved, xs[1..]);
    }
  }

  /** The items a set held at its last save, recovered from its bookkeeping. */
  function SavedItems(p: Property): set<string>
    requires p.Collection?
  {
    (Elems(p.items) - p.added) + Elems(p.removed)
  }

  /** The saved items a tracked set is tracked against are the ones its bookkeeping records. */
  lemma TracksSaved(p: Property, saved: set<string>)
    requires Tracks(p, saved)
    ensures SavedItems(p) == saved
  {
  }

  /** A property's own invariant: a well-kinded scalar, or a set tracked against its saved items. */
  predicate Consistent(p: Property) {
    if p.Single? then WellKinded(p) else Tracks(p, SavedItems(p))
  }
}
