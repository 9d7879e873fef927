/**
 * `User`: a user registry entry. Its name may never be null or white space;
 * being an administrator means belonging to the "system-admin" group.
 */
module Users {
  import opened Outcomes
  import opened Text
  import opened Modifiable
  import opened RegistryEntries
  import opened Sequences

  /** `SysadminGroupId`. */
  const SYSADMIN_GROUP_ID: string := "system-admin"

  /** The modifiable properties of a user: name, active flag, local-only flag, groups. */
  const USER_LAYOUT: seq<(string, Kind)> :=
    [("Name", TextKind), ("IsActive", FlagKind), ("IsLocalOnly", FlagKind), ("GroupIds", CollectionKind(AnyValue))]

  class User {
    const entry: RegistryEntry
    /** `IsOwner`, read from the server. */
    var isOwner: bool

    predicate Valid()
      reads entry
    {
      entry.kind == UserKind && entry.Conforms(USER_LAYOUT)
    }

    /** The `[JsonConstructor]`. */
    constructor()
      ensures Valid() && fresh(entry) && !isOwner
      ensures Name().None? && !IsActive() && !IsLocalOnly() && GroupIds() == [] && Id().None?
      ensures SavedGroupIds() == {} && SavedName().None?
      ensures !entry.HasPendingChanges() && !entry.isDeserialized && !entry.IsTracked()
    {
      entry := new RegistryEntry(UserKind, NewProperties(USER_LAYOUT));
      isOwner := false;
    }

    /**
     * `User(name, groupIds)`: a null or white-space name is refused;
     * otherwise the name is set and each group id added in turn.
     */
    static method Create(name: Option<string>, groupIds: Option<seq<string>>) returns (r: Result<User>)
      ensures r.Err? <==> IsNullOrWhiteSpace(name)
      ensures r.Err? ==> r.error == Argument
      ensures r.Ok? ==> fresh(r.value) && fresh(r.value.entry) && r.value.Valid() && !r.value.isOwner
      ensures r.Ok? ==> r.value.Name() == name && !r.value.IsActive() && !r.value.IsLocalOnly()
      ensures r.Ok? ==> Elems(r.value.GroupIds()) == (if groupIds.Some? then Elems(groupIds.value) else {})
      ensures r.Ok? ==> r.value.SavedGroupIds() == {} && r.value.SavedName().None? && r.value.Id().None?
      ensures r.Ok? ==> r.value.entry.HasPendingChanges() && !r.value.entry.isDeserialized && !r.value.entry.IsTracked()
      ensures r.Ok? ==> r.value.Name() != r.value.SavedName()
    {
      if IsNullOrWhiteSpace(name) {
        return Err(Argument);
      }
      var user := new User();
      var named := user.SetName(name);
      if groupIds.Some? {
        user.AddGroups(groupIds.value);
      }
      assert IsPending(user.entry.props[0]);
      r := Ok(user);
    }

    /** `User(name, isAdministrator)`: `User(name)`, then the `IsAdministrator` setter. */
    static method CreateWithRole(name: Option<string>, isAdministrator: bool) returns (r: Result<User>)
      ensures r.Err? <==> IsNullOrWhiteSpace(name)
      ensures r.Err? ==> r.error == Argument
      ensures r.Ok? ==> fresh(r.value) && fresh(r.value.entry) && r.value.Valid() && !r.value.isOwner
      ensures r.Ok? ==> r.value.Name() == name && r.value.IsAdministrator() == isAdministrator
      ensures r.Ok? ==> Elems(r.value.GroupIds()) == (if isAdministrator then {SYSADMIN_GROUP_ID} else {})
      ensures r.Ok? ==> r.value.SavedGroupIds() == {} && r.value.Id().None?
      ensures r.Ok? ==> r.value.entry.HasPendingChanges() && !r.value.entry.isDeserialized && !r.value.entry.IsTracked()
    {
      r := Create(name, None);
      if r.Err? {
        return;
      }
      var user := r.value;
      ghost var before := user.entry.props;
      assert IsPending(before[0]);
      assert PendingExcept(before, 3);
      user.SetIsAdministrator(isAdministrator);
      FirstThree(user.entry.props, before);
    }

    /**
     * `CreateUnmodified(uniqueId, name, isOwner)`: built through
     * `User(name, isOwner)`, so an owner is also made an administrator; the
     * id and the owner flag are then set and everything is saved.
     */
    static method CreateUnmodified(uniqueId: Option<string>, name: Option<string>, isOwner: bool) returns (r: Result<User>)
      ensures r.Err? <==> IsNullOrWhiteSpace(name)
      ensures r.Err? ==> r.error == Argument
      ensures r.Ok? ==> fresh(r.value) && fresh(r.value.entry) && r.value.Valid()
      ensures r.Ok? ==> r.value.Id() == uniqueId && r.value.isOwner == isOwner && r.value.Name() == name
      ensures r.Ok? ==> r.value.IsAdministrator() == isOwner
      ensures r.Ok? ==> r.value.SavedGroupIds() == Elems(r.value.GroupIds())
      ensures r.Ok? ==> !r.value.entry.HasPendingChanges() && !r.value.entry.IsTracked()
    {
      r := CreateWithRole(name, isOwner);
      if r.Ok? {
        var user := r.value;
        user.entry.uniqueId := uniqueId;
        user.isOwner := isOwner;
        user.entry.SaveChanges();
      }
    }

    function Id(): Option<string>
      reads entry
    {
      entry.uniqueId
    }

    function Name(): Option<string>
      requires Valid()
      reads entry
    {
      TextOf(entry.props[0].current)
    }

    predicate IsActive()
      requires Valid()
      reads entry
    {
      FlagOf(entry.props[1].current)
    }

    predicate IsLocalOnly()
      requires Valid()
      reads entry
    {
      FlagOf(entry.props[2].current)
    }

    /** `GroupIds`, in insertion order. */
    function GroupIds(): seq<string>
      requires Valid()
      reads entry
    {
      entry.props[3].items
    }

    /** The name as last saved. */
    function SavedName(): Option<string>
      requires Valid()
      reads entry
    {
      TextOf(entry.props[0].saved)
    }

    /** The group ids held at the last save. */
    function SavedGroupIds(): set<string>
      requires Valid()
      reads entry
    {
      SavedItems(entry.props[3])
    }

    /** `IsAdministrator`: the user belongs to the system administrators' group. */
    predicate IsAdministrator()
      requires Valid()
      reads entry
    {
      SYSADMIN_GROUP_ID in GroupIds()
    }

    /** `ShouldSerializeIsActive`: the active flag is sent only for a tracked user. */
    predicate ShouldSerializeIsActive()
      reads entry
    {
      entry.IsTracked()
    }

    /** The `Name` setter: a null or white-space name throws and changes nothing. */
    method SetName(value: Option<string>) returns (r: Outcome)
      requires Valid()
      modifies entry`props
      ensures Valid()
      ensures r.Fail? <==> IsNullOrWhiteSpace(value)
      ensures r.Fail? ==> r.error == InvalidOperation && entry.props == old(entry.props)
      ensures r.Pass? ==> entry.props == old(entry.props)[0 := SetValue(old(entry.props)[0], Text(value))]
      ensures r.Pass? ==> Name() == value
      ensures r.Pass? ==> (entry.HasPendingChanges() <==>
        value != SavedName() || PendingExcept(old(entry.props), 0))
      ensures IsActive() == old(IsActive()) && IsLocalOnly() == old(IsLocalOnly())
      ensures GroupIds() == old(GroupIds()) && SavedGroupIds() == old(SavedGroupIds())
      ensures entry.isDeserialized == old(entry.isDeserialized) && entry.uniqueId == old(entry.uniqueId)
    {
      if IsNullOrWhiteSpace(value) {
        return Fail(InvalidOperation);
      }
      assert Layout(entry.props)[0] == ("Name", TextKind);
      entry.SetScalar(0, Text(value));
      r := Pass;
    }

    /** The `IsActive` setter. */
    method SetIsActive(value: bool)
      requires Valid()
      modifies entry`props
      ensures Valid()
      ensures entry.props == old(entry.props)[1 := SetValue(old(entry.props)[1], Flag(value))]
      ensures IsActive() == value && Name() == old(Name()) && IsLocalOnly() == old(IsLocalOnly())
      ensures GroupIds() == old(GroupIds()) && SavedGroupIds() == old(SavedGroupIds())
      ensures entry.HasPendingChanges() <==> Flag(value) != old(entry.props)[1].saved || PendingExcept(old(entry.props), 1)
      ensures entry.isDeserialized == old(entry.isDeserialized) && entry.uniqueId == old(entry.uniqueId)
    {
      assert Layout(entry.props)[1] == ("IsActive", FlagKind);
      entry.SetScalar(1, Flag(value));
    }

    /** The `IsLocalOnly` setter. */
    method SetIsLocalOnly(value: bool)
      requires Valid()
      modifies entry`props
      ensures Valid()
      ensures entry.props == old(entry.props)[2 := SetValue(old(entry.props)[2], Flag(value))]
      ensures IsLocalOnly() == value && Name() == old(Name()) && IsActive() == old(IsActive())
      ensures GroupIds() == old(GroupIds()) && SavedGroupIds() == old(SavedGroupIds())
      ensures entry.HasPendingChanges() <==> Flag(value) != old(entry.props)[2].saved || PendingExcept(old(entry.props), 2)
      ensures entry.isDeserialized == old(entry.isDeserialized) && entry.uniqueId == old(entry.uniqueId)
    {
      assert Layout(entry.props)[2] == ("IsLocalOnly", FlagKind);
      entry.SetScalar(2, Flag(value));
    }

    /**
     * `GroupIds.Add`: any group id is accepted. The user is pending
     * afterwards exactly when its groups differ from the saved ones or
     * another property was already pending.
     */
    method AddGroup(x: string)
      requires Valid()
      modifies entry`props
      ensures Valid()
      ensures GroupIds() == if x in old(GroupIds()) then old(GroupIds()) else old(GroupIds()) + [x]
      ensures Elems(GroupIds()) == Elems(old(GroupIds())) + {x} && SavedGroupIds() == old(SavedGroupIds())
      ensures entry.HasPendingChanges() <==> Elems(GroupIds()) != SavedGroupIds() || PendingExcept(old(entry.props), 3)
      ensures PendingExcept(entry.props, 3) == PendingExcept(old(entry.props), 3)
      ensures entry.props[..3] == old(entry.props)[..3]
      ensures entry.isDeserialized == old(entry.isDeserialized) && entry.uniqueId == old(entry.uniqueId)
    {
      assert Layout(entry.props)[3] == ("GroupIds", CollectionKind(AnyValue));
      var added := entry.AddItem(3, x);
      TracksPending(entry.props[3], SavedItems(entry.props[3]));
    }

    /** The constructor's loop: each group id added in turn. */
    method AddGroups(ids: seq<string>)
      requires Valid()
      modifies entry`props
      ensures Valid()
      ensures Elems(GroupIds()) == Elems(old(GroupIds())) + Elems(ids) && SavedGroupIds() == old(SavedGroupIds())
      ensures entry.props[..3] == old(entry.props)[..3]
      ensures entry.isDeserialized == old(entry.isDeserialized) && entry.uniqueId == old(entry.uniqueId)
    {
      var k := 0;
      while k < |ids|
        invariant 0 <= k <= |ids|
        invariant Valid()
        invariant Elems(GroupIds()) == Elems(old(GroupIds())) + Elems(ids[..k])
        invariant SavedGroupIds() == old(SavedGroupIds())
        invariant entry.props[..3] == old(entry.props)[..3]
        invariant entry.isDeserialized == old(entry.isDeserialized) && entry.uniqueId == old(entry.uniqueId)
      {
        assert ids[..k + 1] == ids[..k] + [ids[k]];
        AddGroup(ids[k]);
        k := k + 1;
      }
      assert ids[..k] == ids;
    }

    /** `GroupIds.Remove`: reports whether the group id was there. */
    method RemoveGroup(x: string) returns (removed: bool)
      requires Valid()
      modifies entry`props
      ensures Valid()
      ensures removed <==> x in old(GroupIds())
      ensures Elems(GroupIds()) == Elems(old(GroupIds())) - {x} && SavedGroupIds() == old(SavedGroupIds())
      ensures entry.HasPendingChanges() <==> Elems(GroupIds()) != SavedGroupIds() || PendingExcept(old(entry.props), 3)
      ensures PendingExcept(entry.props, 3) == PendingExcept(old(entry.props), 3)
      ensures entry.props[..3] == old(entry.props)[..3]
      ensures entry.isDeserialized == old(entry.isDeserialized) && entry.uniqueId == old(entry.uniqueId)
    {
      assert Layout(entry.props)[3] == ("GroupIds", CollectionKind(AnyValue));
      removed := entry.RemoveItem(3, x);
      TracksPending(entry.props[3], SavedItems(entry.props[3]));
    }

    /**
     * The `IsAdministrator` setter: adds or removes the system
     * administrators' group, leaving the other groups as they were.
     */
    method SetIsAdministrator(value: bool)
      requires Valid()
      modifies entry`props
      ensures Valid()
      ensures IsAdministrator() == value
      ensures Elems(GroupIds()) == if value then Elems(old(GroupIds())) + {SYSADMIN_GROUP_ID}
                                  else Elems(old(GroupIds())) - {SYSADMIN_GROUP_ID}
      ensures SavedGroupIds() == old(SavedGroupIds())
      ensures entry.HasPendingChanges() <==> Elems(GroupIds()) != SavedGroupIds() || PendingExcept(old(entry.props), 3)
      ensures PendingExcept(entry.props, 3) == PendingExcept(old(entry.props), 3)
      ensures entry.props[..3] == old(entry.props)[..3]
      ensures entry.isDeserialized == old(entry.isDeserialized) && entry.uniqueId == old(entry.uniqueId)
    {
      if value {
        AddGroup(SYSADMIN_GROUP_ID);
        assert SYSADMIN_GROUP_ID in Elems(GroupIds());
      } else {
        var removed := RemoveGroup(SYSADMIN_GROUP_ID);
        assert SYSADMIN_GROUP_ID !in Elems(GroupIds());
      }
    }

    /** `DiscardPendingChanges`: name, flags and groups return to their saved values. */
    method DiscardPendingChanges()
      requires Valid()
      modifies entry`props
      ensures Valid()
      ensures entry.props[0].current == old(entry.props)[0].saved
      ensures entry.props[1].current == old(entry.props)[1].saved
      ensures entry.props[2].current == old(entry.props)[2].saved
      ensures Elems(GroupIds()) == old(SavedGroupIds()) && SavedGroupIds() == old(SavedGroupIds())
      ensures !entry.HasPendingChanges()
      ensures entry.isDeserialized == old(entry.isDeserialized) && entry.uniqueId == old(entry.uniqueId)
    {
      var before := entry.props[3];
      entry.DiscardPendingChanges();
      DiscardTracks(before, SavedItems(before));
      TracksSaved(entry.props[3], SavedItems(before));
    }

    /** `ToString`: "User: " and the name. */
    function ToString(): (s: string)
      requires Valid()
      reads entry
      ensures |s| >= 6 && s[..6] == "User: "
      ensures Name().Some? ==> s[6..] == Name().value
      ensures Name().None? ==> |s| == 6
    {
      "User: " + (if Name().Some? then Name().value else "")
    }

    /** `Equals`: an entry is equal to a user only if it is a user, and two users are equal when their ids are. */
    predicate Equals(other: RegistryEntry?)
      reads entry, other
      ensures other == entry ==> Equals(other)
      ensures Valid() && Equals(other) ==> other != null && other.kind == UserKind
      ensures Valid() && other != null && other.kind == UserKind ==> (Equals(other) <==> other.uniqueId == Id())
    {
      EntryEquals(entry, other)
    }
  }
}
