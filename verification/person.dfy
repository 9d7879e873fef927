/**
 * `Person`: a storage entry for a person. A person has no icon, is linked to
 * a user, and lists the device trackers that locate it. A person read from
 * the server that is not a storage entry (one defined in the configuration
 * file) refuses changes to its picture and user once tracked.
 */
module Persons {
  import opened Outcomes
  import opened Text
  import opened EntityIds
  import opened Modifiable
  import opened RegistryEntries
  import opened EntityEntries
  import opened StorageEntities
  import opened Users
  import opened Sequences

  /** The device trackers accept only `device_tracker` entity ids. */
  const TRACKERS: Validator := EntityIdOf(DeviceTrackerDomain)

  /** The properties a person adds to the entity ones: user id, picture, device trackers. */
  const PERSON_OWN_LAYOUT: seq<(string, Kind)> :=
    [("UserId", TextKind), ("Picture", TextKind), ("DeviceTrackers", CollectionKind(TRACKERS))]

  /** The modifiable properties of a person: the entity's name, then its own (no icon). */
  const PERSON_LAYOUT: seq<(string, Kind)> := [ENTITY_LAYOUT[0]] + PERSON_OWN_LAYOUT

  /** `Where(x => x.Name != name)` over a layout. */
  function WithoutProperty(layout: seq<(string, Kind)>, name: string): (r: seq<(string, Kind)>)
    ensures forall p :: p in r <==> p in layout && p.0 != name
    decreases |layout|
  {
    if layout == [] then []
    else
      var rest := WithoutProperty(layout[1..], name);
      assert forall p :: p in layout <==> p == layout[0] || p in layout[1..];
      if layout[0].0 == name then rest else [layout[0]] + rest
  }

  /** Filtering a layout with one more property in front. */
  lemma WithoutPropertyCons(p: (string, Kind), layout: seq<(string, Kind)>, name: string)
    ensures WithoutProperty([p] + layout, name) == (if p.0 == name then [] else [p]) + WithoutProperty(layout, name)
  {
    assert ([p] + layout)[1..] == layout;
  }

  /** A layout without the property is left as it is. */
  lemma {:induction false} WithoutAbsent(layout: seq<(string, Kind)>, name: string)
    requires forall p :: p in layout ==> p.0 != name
    ensures WithoutProperty(layout, name) == layout
    decreases |layout|
  {
    if layout != [] {
      WithoutAbsent(layout[1..], name);
      WithoutPropertyCons(layout[0], layout[1..], name);
      assert [layout[0]] + layout[1..] == layout;
    }
  }

  /** The person layout is the entity layout and the person's own properties with the icon filtered out. */
  lemma PersonLayoutFiltersIcon()
    ensures WithoutProperty(ENTITY_LAYOUT + PERSON_OWN_LAYOUT, "Icon") == PERSON_LAYOUT
    ensures forall p :: p in PERSON_LAYOUT ==> p.0 != "Icon"
  {
    var own := PERSON_OWN_LAYOUT;
    var name, icon := ENTITY_LAYOUT[0], ENTITY_LAYOUT[1];
    assert name.0 != "Icon" by {
      assert "Name"[0] != "Icon"[0];
    }
    WithoutAbsent(own, "Icon");
    WithoutPropertyCons(icon, own, "Icon");
    WithoutPropertyCons(name, [icon] + own, "Icon");
    SplitPair(ENTITY_LAYOUT, own);
  }

  /** A two-property layout in front of another, taken apart one property at a time. */
  lemma SplitPair(pair: seq<(string, Kind)>, rest: seq<(string, Kind)>)
    requires |pair| == 2
    ensures pair + rest == [pair[0]] + ([pair[1]] + rest)
  {
  }

  class Person {
    const entry: RegistryEntry
    const domain: KnownDomain
    /** `IsStorageEntry`: created through the API rather than read from the configuration. */
    var isStorageEntry: bool

    predicate Valid()
      reads entry
    {
      entry.kind == PersonKind && entry.Conforms(PERSON_LAYOUT) && domain == PersonDomain
    }

    /** The `[JsonConstructor]`: the domain comes from the cache. */
    constructor(cache: DomainCache)
      requires cache.Valid()
      modifies cache
      ensures cache.Valid() && cache.domainsByType == old(cache.domainsByType)[PersonType := PersonDomain]
      ensures Valid() && fresh(entry) && !isStorageEntry
      ensures Name().None? && UserId().None? && Picture().None? && DeviceTrackers() == [] && Id().None?
      ensures SavedName().None? && SavedUserId().None? && SavedPicture().None? && SavedDeviceTrackers() == {}
      ensures !entry.HasPendingChanges() && !entry.isDeserialized && !entry.IsTracked()
    {
      var d := cache.GetDomain(PersonType);
      domain := d.value;
      entry := new RegistryEntry(PersonKind, NewProperties(PERSON_LAYOUT));
      isStorageEntry := false;
    }

    /**
     * The private `Person(name, userId)`: the base constructor refuses a null
     * or white-space name, then sets the name; setting the null icon does
     * nothing; the user id is set last. The result is not a storage entry.
     */
    static method CreateWithUserId(cache: DomainCache, name: Option<string>, userId: Option<string>)
      returns (r: Result<Person>)
      requires cache.Valid()
      modifies cache
      ensures cache.Valid()
      ensures r.Err? <==> IsNullOrWhiteSpace(name)
      ensures r.Err? ==> r.error == Argument && cache.domainsByType == old(cache.domainsByType)
      ensures r.Ok? ==> fresh(r.value) && fresh(r.value.entry) && r.value.Valid() && !r.value.isStorageEntry
      ensures r.Ok? ==> r.value.Name() == name && r.value.UserId() == userId
      ensures r.Ok? ==> r.value.Picture().None? && r.value.DeviceTrackers() == [] && r.value.Id().None?
      ensures r.Ok? ==> r.value.SavedName().None? && r.value.SavedUserId().None? && r.value.SavedPicture().None?
      ensures r.Ok? ==> r.value.SavedDeviceTrackers() == {}
      ensures r.Ok? ==> r.value.entry.HasPendingChanges() && !r.value.entry.isDeserialized && !r.value.entry.IsTracked()
    {
      if IsNullOrWhiteSpace(name) {
        return Err(Argument);
      }
      var person := new Person(cache);
      var named := person.SetName(name);
      var noIcon := person.SetIcon(None);
      person.SetUserId(userId);
      assert IsPending(person.entry.props[0]);
      r := Ok(person);
    }

    /**
     * `Person(name, user)`: the name is checked first, then a null user is
     * refused; otherwise the person is linked to the user's id and marked as
     * a storage entry.
     */
    static method Create(cache: DomainCache, name: Option<string>, user: Option<User>) returns (r: Result<Person>)
      requires cache.Valid()
      modifies cache
      ensures cache.Valid()
      ensures r.Err? <==> IsNullOrWhiteSpace(name) || user.None?
      ensures IsNullOrWhiteSpace(name) ==> r == Err(Argument)
      ensures !IsNullOrWhiteSpace(name) && user.None? ==> r == Err(ArgumentNull)
      ensures r.Ok? ==> fresh(r.value) && fresh(r.value.entry) && r.value.Valid() && r.value.isStorageEntry
      ensures r.Ok? ==> r.value.Name() == name && r.value.UserId() == user.value.Id()
      ensures r.Ok? ==> r.value.Picture().None? && r.value.DeviceTrackers() == [] && r.value.Icon().None?
      ensures r.Ok? ==> r.value.entry.HasPendingChanges() && !r.value.entry.IsTracked()
    {
      var userId := if user.Some? then user.value.Id() else None;
      r := CreateWithUserId(cache, name, userId);
      if r.Err? {
        return;
      }
      if user.None? {
        return Err(ArgumentNull);
      }
      r.value.isStorageEntry := true;
    }

    /**
     * `CreateUnmodified(uniqueId, name, userId, picture, deviceTrackers)`:
     * built through the private constructor, so not a storage entry; the
     * picture is set, each tracker added in turn (an invalid one throws), and
     * everything is saved.
     */
    static method CreateUnmodified(cache: DomainCache, uniqueId: Option<string>, name: Option<string>,
      userId: Option<string>, picture: Option<string>, deviceTrackers: Option<seq<string>>)
      returns (r: Result<Person>)
      requires cache.Valid()
      modifies cache
      ensures cache.Valid()
      ensures IsNullOrWhiteSpace(name) ==> r == Err(Argument)
      ensures !IsNullOrWhiteSpace(name) ==>
        (r.Ok? <==> deviceTrackers.None? || forall x :: x in deviceTrackers.value ==> Accepts(TRACKERS, x))
      ensures !IsNullOrWhiteSpace(name) && r.Err? ==> r.error == InvalidOperation
      ensures r.Ok? ==> fresh(r.value) && fresh(r.value.entry) && r.value.Valid() && !r.value.isStorageEntry
      ensures r.Ok? ==> r.value.Id() == uniqueId && r.value.Name() == name && r.value.UserId() == userId
      ensures r.Ok? ==> r.value.Picture() == picture
      ensures r.Ok? ==> Elems(r.value.DeviceTrackers()) == (if deviceTrackers.Some? then Elems(deviceTrackers.value) else {})
      ensures r.Ok? ==> r.value.SavedDeviceTrackers() == Elems(r.value.DeviceTrackers())
      ensures r.Ok? ==> !r.value.entry.HasPendingChanges() && !r.value.entry.IsTracked()
    {
      r := CreateWithUserId(cache, name, userId);
      if r.Err? {
        return;
      }
      var person := r.value;
      var filled := person.FillUnmodified(uniqueId, picture, deviceTrackers);
      if filled.Fail? {
        return Err(filled.error);
      }
    }

    /**
     * The body of the private constructor behind `CreateUnmodified`: the id
     * and picture are set, each tracker added in turn, and everything saved.
     */
    method FillUnmodified(uniqueId: Option<string>, picture: Option<string>, deviceTrackers: Option<seq<string>>)
      returns (r: Outcome)
      requires Valid() && !entry.isDeserialized && DeviceTrackers() == []
      modifies entry
      ensures Valid()
      ensures r.Pass? <==> deviceTrackers.None? || forall x :: x in deviceTrackers.value ==> Accepts(TRACKERS, x)
      ensures r.Fail? ==> r.error == InvalidOperation
      ensures r.Pass? ==> Id() == uniqueId && Name() == old(Name()) && UserId() == old(UserId()) && Picture() == picture
      ensures r.Pass? ==> Elems(DeviceTrackers()) == (if deviceTrackers.Some? then Elems(deviceTrackers.value) else {})
      ensures r.Pass? ==> SavedDeviceTrackers() == Elems(DeviceTrackers())
      ensures r.Pass? ==> !entry.HasPendingChanges() && !entry.IsTracked()
    {
      entry.uniqueId := uniqueId;
      var pictured := SetPicture(picture);
      if deviceTrackers.Some? {
        ghost var props := entry.props;
        r := AddDeviceTrackers(deviceTrackers.value);
        if r.Fail? {
          return;
        }
        FirstThree(entry.props, props);
      }
      SaveChanges();
      r := Pass;
    }

    /** The base `SaveChanges`: every current value becomes the saved one. */
    method SaveChanges()
      requires Valid()
      modifies entry`props
      ensures Valid()
      ensures Name() == old(Name()) && UserId() == old(UserId()) && Picture() == old(Picture())
      ensures DeviceTrackers() == old(DeviceTrackers())
      ensures SavedName() == Name() && SavedUserId() == UserId() && SavedPicture() == Picture()
      ensures SavedDeviceTrackers() == Elems(DeviceTrackers())
      ensures !entry.HasPendingChanges()
      ensures entry.isDeserialized == old(entry.isDeserialized) && entry.uniqueId == old(entry.uniqueId)
    {
      var before := entry.props[3];
      entry.SaveChanges();
      SaveTracks(before, SavedItems(before));
      TracksSaved(entry.props[3], Elems(before.items));
    }

    function Id(): Option<string>
      reads entry
    {
      entry.uniqueId
    }

    /** `EntityId`: "person." followed by the id. */
    function EntityId(): string
      reads entry
    {
      StorageEntityId(domain, Id())
    }

    function Name(): Option<string>
      requires Valid()
      reads entry
    {
      TextOf(entry.props[0].current)
    }

    function UserId(): Option<string>
      requires Valid()
      reads entry
    {
      TextOf(entry.props[1].current)
    }

    function Picture(): Option<string>
      requires Valid()
      reads entry
    {
      TextOf(entry.props[2].current)
    }

    function DeviceTrackers(): seq<string>
      requires Valid()
      reads entry
    {
      entry.props[3].items
    }

    function SavedName(): Option<string>
      requires Valid()
      reads entry
    {
      TextOf(entry.props[0].saved)
    }

    function SavedUserId(): Option<string>
      requires Valid()
      reads entry
    {
      TextOf(entry.props[1].saved)
    }

    function SavedPicture(): Option<string>
      requires Valid()
      reads entry
    {
      TextOf(entry.props[2].saved)
    }

    function SavedDeviceTrackers(): set<string>
      requires Valid()
      reads entry
    {
      SavedItems(entry.props[3])
    }

    /** `Icon`: a person never has one. */
    function Icon(): Option<string> {
      None
    }

    /** `ShouldSerializeIcon`: as the icon is always null, only a tracked person sends it. */
    predicate ShouldSerializeIcon()
      reads entry
      ensures ShouldSerializeIcon() <==> entry.IsTracked()
    {
      Icon().Some? || entry.IsTracked()
    }

    /** `CheckSupportModification`: a tracked person that is not a storage entry cannot be changed. */
    predicate ModificationRefused()
      reads this, entry
    {
      entry.IsTracked() && !isStorageEntry
    }

    /** The base `Name` setter: a null or white-space name throws and changes nothing. */
    method SetName(value: Option<string>) returns (r: Outcome)
      requires Valid()
      modifies entry`props
      ensures Valid()
      ensures r.Fail? <==> IsNullOrWhiteSpace(value)
      ensures r.Fail? ==> r.error == InvalidOperation && entry.props == old(entry.props)
      ensures r.Pass? ==> entry.props == old(entry.props)[0 := SetValue(old(entry.props)[0], Text(value))]
      ensures r.Pass? ==> Name() == value
      ensures r.Pass? ==> (entry.HasPendingChanges() <==> value != SavedName() || PendingExcept(old(entry.props), 0))
      ensures entry.props[1..] == old(entry.props)[1..]
      ensures SavedName() == old(SavedName())
      ensures entry.isDeserialized == old(entry.isDeserialized) && entry.uniqueId == old(entry.uniqueId)
    {
      if IsNullOrWhiteSpace(value) {
        return Fail(InvalidOperation);
      }
      assert Layout(entry.props)[0] == ("Name", TextKind);
      entry.SetScalar(0, Text(value));
      r := Pass;
    }

    /** The `Icon` setter: a non-null icon throws; null is ignored. */
    method SetIcon(value: Option<string>) returns (r: Outcome)
      ensures r.Fail? <==> value.Some?
      ensures r.Fail? ==> r.error == InvalidOperation
    {
      if value.Some? {
        return Fail(InvalidOperation);
      }
      r := Pass;
    }

    /** The private `UserId` setter. */
    method SetUserId(value: Option<string>)
      requires Valid()
      modifies entry`props
      ensures Valid()
      ensures entry.props == old(entry.props)[1 := SetValue(old(entry.props)[1], Text(value))]
      ensures UserId() == value && Name() == old(Name()) && Picture() == old(Picture())
      ensures DeviceTrackers() == old(DeviceTrackers()) && SavedDeviceTrackers() == old(SavedDeviceTrackers())
      ensures SavedName() == old(SavedName()) && SavedUserId() == old(SavedUserId()) && SavedPicture() == old(SavedPicture())
      ensures entry.HasPendingChanges() <==> value != SavedUserId() || PendingExcept(old(entry.props), 1)
      ensures PendingExcept(entry.props, 1) == PendingExcept(old(entry.props), 1)
      ensures entry.isDeserialized == old(entry.isDeserialized) && entry.uniqueId == old(entry.uniqueId)
    {
      assert Layout(entry.props)[1] == ("UserId", TextKind);
      entry.SetScalar(1, Text(value));
    }

    /** The `Picture` setter, behind the modification guard. */
    method SetPicture(value: Option<string>) returns (r: Outcome)
      requires Valid()
      modifies entry`props
      ensures Valid()
      ensures r.Fail? <==> old(ModificationRefused())
      ensures r.Fail? ==> r.error == NotSupported && entry.props == old(entry.props)
      ensures r.Pass? ==> entry.props == old(entry.props)[2 := SetValue(old(entry.props)[2], Text(value))]
      ensures r.Pass? ==> Picture() == value && Name() == old(Name()) && UserId() == old(UserId())
      ensures r.Pass? ==> (entry.HasPendingChanges() <==> value != SavedPicture() || PendingExcept(old(entry.props), 2))
      ensures DeviceTrackers() == old(DeviceTrackers()) && SavedDeviceTrackers() == old(SavedDeviceTrackers())
      ensures SavedName() == old(SavedName()) && SavedUserId() == old(SavedUserId()) && SavedPicture() == old(SavedPicture())
      ensures PendingExcept(entry.props, 2) == PendingExcept(old(entry.props), 2)
      ensures entry.isDeserialized == old(entry.isDeserialized) && entry.uniqueId == old(entry.uniqueId)
    {
      if ModificationRefused() {
        return Fail(NotSupported);
      }
      assert Layout(entry.props)[2] == ("Picture", TextKind);
      entry.SetScalar(2, Text(value));
      r := Pass;
    }

    /**
     * `ChangeUser`: a null user is refused first, then the modification
     * guard applies; otherwise the person is linked to the user's id.
     */
    method ChangeUser(user: Option<User>) returns (r: Outcome)
      requires Valid()
      modifies entry`props
      ensures Valid()
      ensures user.None? ==> r == Fail(ArgumentNull)
      ensures user.Some? && old(ModificationRefused()) ==> r == Fail(NotSupported)
      ensures r.Fail? ==> entry.props == old(entry.props)
      ensures user.Some? && !old(ModificationRefused()) ==> r == Pass && UserId() == user.value.Id()
      ensures r.Pass? ==> Name() == old(Name()) && Picture() == old(Picture()) && DeviceTrackers() == old(DeviceTrackers())
      ensures r.Pass? ==> (entry.HasPendingChanges() <==> user.value.Id() != SavedUserId() || PendingExcept(old(entry.props), 1))
      ensures SavedName() == old(SavedName()) && SavedUserId() == old(SavedUserId()) && SavedPicture() == old(SavedPicture())
      ensures SavedDeviceTrackers() == old(SavedDeviceTrackers())
      ensures PendingExcept(entry.props, 1) == PendingExcept(old(entry.props), 1)
      ensures entry.isDeserialized == old(entry.isDeserialized) && entry.uniqueId == old(entry.uniqueId)
    {
      if user.None? {
        return Fail(ArgumentNull);
      }
      if ModificationRefused() {
        return Fail(NotSupported);
      }
      SetUserId(user.value.Id());
      r := Pass;
    }

    /**
     * `DeviceTrackers.Add`: an id that is not a `device_tracker` entity id
     * throws and changes nothing, unless it is already present.
     */
    method AddDeviceTracker(x: string) returns (r: Outcome)
      requires Valid()
      modifies entry`props
      ensures Valid()
      ensures r.Pass? <==> Accepts(TRACKERS, x)
      ensures r.Fail? ==> r.error == InvalidOperation && entry.props == old(entry.props)
      ensures r.Pass? ==> DeviceTrackers() == if x in old(DeviceTrackers()) then old(DeviceTrackers()) else old(DeviceTrackers()) + [x]
      ensures r.Pass? ==> Elems(DeviceTrackers()) == Elems(old(DeviceTrackers())) + {x}
      ensures SavedDeviceTrackers() == old(SavedDeviceTrackers())
      ensures entry.HasPendingChanges() <==>
        Elems(DeviceTrackers()) != SavedDeviceTrackers() || PendingExcept(old(entry.props), 3)
      ensures PendingExcept(entry.props, 3) == PendingExcept(old(entry.props), 3)
      ensures entry.props[..3] == old(entry.props)[..3]
      ensures entry.isDeserialized == old(entry.isDeserialized) && entry.uniqueId == old(entry.uniqueId)
    {
      assert Layout(entry.props)[3] == ("DeviceTrackers", CollectionKind(TRACKERS));
      AcceptedTrackers(entry.props[3]);
      r := entry.AddItem(3, x);
      TracksPending(entry.props[3], SavedItems(entry.props[3]));
    }

    /** The trackers loop of `CreateUnmodified`: each id added in turn, stopping at the first refused one. */
    method AddDeviceTrackers(xs: seq<string>) returns (r: Outcome)
      requires Valid()
      modifies entry`props
      ensures Valid()
      ensures r.Pass? <==> forall x :: x in xs ==> Accepts(TRACKERS, x)
      ensures r.Fail? ==> r.error == InvalidOperation
      ensures r.Pass? ==> Elems(DeviceTrackers()) == Elems(old(DeviceTrackers())) + Elems(xs)
      ensures SavedDeviceTrackers() == old(SavedDeviceTrackers())
      ensures entry.props[..3] == old(entry.props)[..3]
      ensures entry.isDeserialized == old(entry.isDeserialized) && entry.uniqueId == old(entry.uniqueId)
    {
      r := Pass;
      var k := 0;
      while k < |xs| && r.Pass?
        invariant 0 <= k <= |xs|
        invariant Valid()
        invariant r.Pass? ==> forall i :: 0 <= i < k ==> Accepts(TRACKERS, xs[i])
        invariant r.Fail? ==> r.error == InvalidOperation && 0 < k && !Accepts(TRACKERS, xs[k - 1])
        invariant r.Pass? ==> Elems(DeviceTrackers()) == Elems(old(DeviceTrackers())) + Elems(xs[..k])
        invariant SavedDeviceTrackers() == old(SavedDeviceTrackers())
        invariant entry.props[..3] == old(entry.props)[..3]
        invariant entry.isDeserialized == old(entry.isDeserialized) && entry.uniqueId == old(entry.uniqueId)
      {
        ghost var before := DeviceTrackers();
        r := AddDeviceTracker(xs[k]);
        if r.Pass? {
          PrefixStep(TRACKERS, xs, k, Elems(old(DeviceTrackers())), Elems(before));
        }
        k := k + 1;
      }
      if r.Pass? {
        assert xs[..k] == xs;
      } else {
        assert xs[k - 1] in xs;
      }
    }

    /** `DeviceTrackers.Remove`: reports whether the id was there. */
    method RemoveDeviceTracker(x: string) returns (removed: bool)
      requires Valid()
      modifies entry`props
      ensures Valid()
      ensures removed <==> x in old(DeviceTrackers())
      ensures Elems(DeviceTrackers()) == Elems(old(DeviceTrackers())) - {x}
      ensures SavedDeviceTrackers() == old(SavedDeviceTrackers())
      ensures entry.HasPendingChanges() <==>
        Elems(DeviceTrackers()) != SavedDeviceTrackers() || PendingExcept(old(entry.props), 3)
      ensures PendingExcept(entry.props, 3) == PendingExcept(old(entry.props), 3)
      ensures entry.props[..3] == old(entry.props)[..3]
      ensures entry.isDeserialized == old(entry.isDeserialized) && entry.uniqueId == old(entry.uniqueId)
    {
      assert Layout(entry.props)[3] == ("DeviceTrackers", CollectionKind(TRACKERS));
      removed := entry.RemoveItem(3, x);
      TracksPending(entry.props[3], SavedItems(entry.props[3]));
    }

    /** `DeviceTrackers.Clear`. */
    method ClearDeviceTrackers()
      requires Valid()
      modifies entry`props
      ensures Valid()
      ensures DeviceTrackers() == [] && SavedDeviceTrackers() == old(SavedDeviceTrackers())
      ensures entry.HasPendingChanges() <==> SavedDeviceTrackers() != {} || PendingExcept(old(entry.props), 3)
      ensures entry.props[..3] == old(entry.props)[..3]
      ensures entry.isDeserialized == old(entry.isDeserialized) && entry.uniqueId == old(entry.uniqueId)
    {
      assert Layout(entry.props)[3] == ("DeviceTrackers", CollectionKind(TRACKERS));
      entry.ClearItems(3);
      TracksPending(entry.props[3], SavedItems(entry.props[3]));
    }

    /** `DiscardPendingChanges`: name, user, picture and trackers return to their saved values. */
    method DiscardPendingChanges()
      requires Valid()
      modifies entry`props
      ensures Valid()
      ensures Name() == old(SavedName()) && UserId() == old(SavedUserId()) && Picture() == old(SavedPicture())
      ensures Elems(DeviceTrackers()) == old(SavedDeviceTrackers()) && SavedDeviceTrackers() == old(SavedDeviceTrackers())
      ensures !entry.HasPendingChanges()
      ensures entry.isDeserialized == old(entry.isDeserialized) && entry.uniqueId == old(entry.uniqueId)
    {
      var before := entry.props[3];
      entry.DiscardPendingChanges();
      DiscardTracks(before, SavedItems(before));
      TracksSaved(entry.props[3], SavedItems(before));
    }

    /** `ToString`: "Person: " and the name, the same text the storage base class prints. */
    function ToString(): (s: string)
      requires Valid()
      reads entry
      ensures s == StorageText(domain, Name())
    {
      "Person: " + (if Name().Some? then Name().value else "")
    }

    /** `Equals`, inherited from `EntityRegistryEntryBase`. */
    predicate Equals(other: RegistryEntry?)
      reads entry, other
      ensures other == entry ==> Equals(other)
      ensures Valid() && Equals(other) ==> other != null && other.kind.IsEntity()
      ensures Valid() && other != null && other.kind.IsEntity() ==> (Equals(other) <==> other.uniqueId == entry.uniqueId)
    {
      EntryEquals(entry, other)
    }
  }

  /** One more accepted tracker: the accepted prefix and the ids added both grow by `xs[k]`. */
  lemma PrefixStep(v: Validator, xs: seq<string>, k: nat, start: set<string>, added: set<string>)
    requires k < |xs| && Accepts(v, xs[k])
    ensures (forall i :: 0 <= i < k ==> Accepts(v, xs[i])) ==> forall i :: 0 <= i < k + 1 ==> Accepts(v, xs[i])
    ensures added == start + Elems(xs[..k]) ==> added + {xs[k]} == start + Elems(xs[..k + 1])
  {
    assert xs[..k + 1] == xs[..k] + [xs[k]];
  }

  /** Every tracker a consistent tracker set holds passed validation. */
  lemma AcceptedTrackers(p: Property)
    requires p.Collection? && Consistent(p)
    ensures forall x :: x in p.items ==> Accepts(p.validator, x)
  {
  }

  /**
   * A person and a user are never equal, whatever their ids: the person's
   * override accepts only entity entries, and the user's only users.
   */
  lemma PersonNeverEqualsUser(p: Person, u: User)
    requires p.Valid() && u.Valid()
    ensures !p.Equals(u.entry) && !u.Equals(p.entry)
  {
  }
}
