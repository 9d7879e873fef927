/**
 * `Area`: a registry entry with a modifiable name, which may never be null
 * or white space, and a modifiable picture URL. Its unique id is the area id.
 */
module Areas {
  import opened Outcomes
  import opened Text
  import opened Modifiable
  import opened RegistryEntries

  /** The modifiable properties of an area: the name, then the picture. */
  const AREA_LAYOUT: seq<(string, Kind)> := [("Name", TextKind), ("Picture", TextKind)]

  class Area {
    /** The registry-entry state: the modifiable properties, the id and the tracking flags. */
    const entry: RegistryEntry

    predicate Valid()
      reads entry
    {
      entry.kind == AreaKind && entry.Conforms(AREA_LAYOUT)
    }

    /** The `[JsonConstructor]`: every property at its default. */
    constructor()
      ensures Valid() && fresh(entry)
      ensures Name().None? && Picture().None? && Id().None?
      ensures !entry.HasPendingChanges() && !entry.isDeserialized && !entry.IsTracked()
    {
      entry := new RegistryEntry(AreaKind, NewProperties(AREA_LAYOUT));
    }

    /** `Area(name, picture)`: a null or white-space name is refused. */
    static method Create(name: Option<string>, picture: Option<string>) returns (r: Result<Area>)
      ensures r.Err? <==> IsNullOrWhiteSpace(name)
      ensures r.Err? ==> r.error == Argument
      ensures r.Ok? ==> fresh(r.value) && fresh(r.value.entry) && r.value.Valid()
      ensures r.Ok? ==> r.value.Name() == name && r.value.Picture() == picture && r.value.Id().None?
      ensures r.Ok? ==> r.value.entry.HasPendingChanges() && !r.value.entry.IsTracked()
    {
      if IsNullOrWhiteSpace(name) {
        return Err(Argument);
      }
      var area := new Area();
      var named := area.SetName(name);
      area.SetPicture(picture);
      assert IsPending(area.entry.props[0]);
      r := Ok(area);
    }

    /** `CreateUnmodified`: a new area whose values are already saved. */
    static method CreateUnmodified(name: Option<string>, picture: Option<string>) returns (r: Result<Area>)
      ensures r.Err? <==> IsNullOrWhiteSpace(name)
      ensures r.Err? ==> r.error == Argument
      ensures r.Ok? ==> fresh(r.value) && fresh(r.value.entry) && r.value.Valid()
      ensures r.Ok? ==> r.value.Name() == name && r.value.Picture() == picture
      ensures r.Ok? ==> r.value.SavedName() == name && r.value.SavedPicture() == picture
      ensures r.Ok? ==> !r.value.entry.HasPendingChanges() && !r.value.entry.IsTracked()
    {
      r := Create(name, picture);
      if r.Ok? {
        r.value.entry.SaveChanges();
      }
    }

    /** `Id`, which is also the entry's unique id. */
    function Id(): Option<string>
      reads entry
    {
      entry.uniqueId
    }

    function Name(): Option<string>
      requires Valid()
      reads entry
    {
      TextOf(entry.props[0].current)
    }

    function Picture(): Option<string>
      requires Valid()
      reads entry
    {
      TextOf(entry.props[1].current)
    }

    /** The name as last saved, which discarding brings back. */
    function SavedName(): Option<string>
      requires Valid()
      reads entry
    {
      TextOf(entry.props[0].saved)
    }

    function SavedPicture(): Option<string>
      requires Valid()
      reads entry
    {
      TextOf(entry.props[1].saved)
    }

    /**
     * The `Name` setter: a null or white-space name throws and changes
     * nothing. Afterwards the area is pending exactly when the name differs
     * from the saved one or the picture was already pending, so setting the
     * saved name back clears what the first change set.
     */
    method SetName(value: Option<string>) returns (r: Outcome)
      requires Valid()
      modifies entry`props
      ensures Valid()
      ensures r.Fail? <==> IsNullOrWhiteSpace(value)
      ensures r.Fail? ==> r.error == InvalidOperation && entry.props == old(entry.props)
      ensures r.Pass? ==> entry.props == old(entry.props)[0 := SetValue(old(entry.props)[0], Text(value))]
      ensures r.Pass? ==> Name() == value && Picture() == old(Picture())
      ensures r.Pass? ==> SavedName() == old(SavedName()) && SavedPicture() == old(SavedPicture())
      ensures r.Pass? ==> (entry.HasPendingChanges() <==> value != SavedName() || PendingExcept(old(entry.props), 0))
      ensures PendingExcept(entry.props, 0) == PendingExcept(old(entry.props), 0)
      ensures entry.isDeserialized == old(entry.isDeserialized) && entry.uniqueId == old(entry.uniqueId)
    {
      if IsNullOrWhiteSpace(value) {
        return Fail(InvalidOperation);
      }
      assert Layout(entry.props)[0] == ("Name", TextKind);
      entry.SetScalar(0, Text(value));
      r := Pass;
    }

    /** The `Picture` setter: any value, null included. */
    method SetPicture(value: Option<string>)
      requires Valid()
      modifies entry`props
      ensures Valid()
      ensures entry.props == old(entry.props)[1 := SetValue(old(entry.props)[1], Text(value))]
      ensures Picture() == value && Name() == old(Name())
      ensures SavedName() == old(SavedName()) && SavedPicture() == old(SavedPicture())
      ensures entry.HasPendingChanges() <==> value != SavedPicture() || PendingExcept(old(entry.props), 1)
      ensures PendingExcept(entry.props, 1) == PendingExcept(old(entry.props), 1)
      ensures entry.isDeserialized == old(entry.isDeserialized) && entry.uniqueId == old(entry.uniqueId)
    {
      assert Layout(entry.props)[1] == ("Picture", TextKind);
      entry.SetScalar(1, Text(value));
    }

    /** `DiscardPendingChanges`: both the name and the picture go back to their saved values. */
    method DiscardPendingChanges()
      requires Valid()
      modifies entry`props
      ensures Valid()
      ensures Name() == old(SavedName()) && Picture() == old(SavedPicture())
      ensures SavedName() == old(SavedName()) && SavedPicture() == old(SavedPicture())
      ensures !entry.HasPendingChanges()
      ensures entry.isDeserialized == old(entry.isDeserialized) && entry.uniqueId == old(entry.uniqueId)
    {
      entry.DiscardPendingChanges();
    }

    /** `ToString`: the class name, a colon, and the name (a null name prints as nothing). */
    function ToString(): (s: string)
      requires Valid()
      reads entry
      ensures |s| >= 6 && s[..6] == "Area: "
      ensures Name().Some? ==> s[6..] == Name().value
      ensures Name().None? ==> |s| == 6
    {
      "Area: " + (if Name().Some? then Name().value else "")
    }

    /**
     * `Equals`: an entry is equal to an area only if it is an area, and two
     * areas are equal when their ids are, null ids included.
     */
    predicate Equals(other: RegistryEntry?)
      reads entry, other
      ensures other == entry ==> Equals(other)
      ensures Valid() && Equals(other) ==> other != null && other.kind == AreaKind
      ensures Valid() && other != null && other.kind == AreaKind ==> (Equals(other) <==> other.uniqueId == Id())
    {
      EntryEquals(entry, other)
    }
  }
}
