/**
 * `EntityRegistryEntryBase` and `EntityRegistryEntry`: registry entries of
 * entities, which have a name and an icon.
 *
 * An entity registry entry stores overrides: its name, icon and device class
 * read as the user's override when one is stored and as the value the
 * integration reported otherwise.
 */
module EntityEntries {
  import opened Outcomes
  import opened Text
  import opened EntityIds
  import opened Modifiable
  import opened RegistryEntries

  /** The modifiable properties every entity entry starts with: the name, then the icon. */
  const ENTITY_LAYOUT: seq<(string, Kind)> := [("Name", TextKind), ("Icon", TextKind)]

  /** The base name check: a null or white-space name is refused unless the entry kind accepts it. */
  predicate NameRefused(acceptsNullOrWhiteSpaceName: bool, name: Option<string>) {
    !acceptsNullOrWhiteSpaceName && IsNullOrWhiteSpace(name)
  }

  /** The entity layout followed by the disabling source. */
  const ENTITY_REGISTRY_LAYOUT: seq<(string, Kind)> := ENTITY_LAYOUT + [("_disabledBy", DisablingKind)]

  /**
   * The entry a new entity registry entry holds: name and icon set while the
   * originals are null (`Override(x, None)` keeps `x`), the disabling source
   * set, and everything saved.
   */
  method NewSavedEntry(name: Option<string>, icon: Option<string>, disabledBy: DisabledBy) returns (e: RegistryEntry)
    ensures fresh(e) && e.kind == EntityKind && e.Conforms(ENTITY_REGISTRY_LAYOUT)
    ensures |e.props| == 3 && e.props[0].Single? && e.props[1].Single? && e.props[2].Single?
    ensures e.props[0].current == e.props[0].saved == Text(name)
    ensures e.props[1].current == e.props[1].saved == Text(icon)
    ensures e.props[2].current == e.props[2].saved == Disabling(Some(disabledBy))
    ensures !e.HasPendingChanges() && !e.isDeserialized && e.uniqueId.None?
  {
    e := new RegistryEntry(EntityKind, NewProperties(ENTITY_REGISTRY_LAYOUT));
    assert Layout(e.props) == [("Name", TextKind), ("Icon", TextKind), ("_disabledBy", DisablingKind)];
    e.SetScalar(0, Text(Override(name, None)));
    e.SetScalar(1, Text(Override(icon, None)));
    e.SetScalar(2, Disabling(Some(disabledBy)));
    e.SaveChanges();
  }

  class EntityRegistryEntry {
    const entry: RegistryEntry
    /** `EntityId`, required on the wire. */
    var entityId: string
    var originalName: Option<string>
    var originalIcon: Option<string>
    var originalDeviceClass: Option<string>
    /** The device class override; a plain field, not a modifiable property. */
    var deviceClass: Option<string>
    var platform: Option<string>

    /** `AcceptsNullOrWhiteSpaceName`: entity registry entries accept any name. */
    static const ACCEPTS_NULL_OR_WHITE_SPACE_NAME: bool := true

    predicate Valid()
      reads entry
    {
      entry.kind == EntityKind && entry.Conforms(ENTITY_REGISTRY_LAYOUT)
    }

    /**
     * The constructor behind `CreateUnmodified`: no name check, since any
     * name is accepted. The name and icon setters run while the original
     * values are still null, so both are stored as given (`Override(x, None)`). The platform is the
     * entity id's domain, and everything is saved.
     */
    constructor(entityId: string, name: Option<string>, icon: Option<string>, disabledBy: DisabledBy)
      ensures Valid() && fresh(entry)
      ensures this.entityId == entityId && platform == Some(EntityDomain(entityId))
      ensures originalName.None? && originalIcon.None? && originalDeviceClass.None? && deviceClass.None?
      ensures Name() == name && Icon() == icon && DeviceClass().None?
      ensures DisabledBy() == disabledBy && (IsDisabled() <==> disabledBy != NoSource)
      ensures StoredName() == name && SavedName() == name && StoredIcon() == icon && SavedIcon() == icon
      ensures SavedDisabling() == Some(disabledBy)
      ensures !entry.HasPendingChanges() && !entry.IsTracked() && entry.uniqueId.None?
    {
      var e := NewSavedEntry(name, icon, disabledBy);
      entry := e;
      this.entityId := entityId;
      originalName := None;
      originalIcon := None;
      originalDeviceClass := None;
      deviceClass := None;
      platform := Some(EntityDomain(entityId));
    }

    /** The stored name override. */
    function StoredName(): Option<string>
      requires Valid()
      reads entry
    {
      TextOf(entry.props[0].current)
    }

    function StoredIcon(): Option<string>
      requires Valid()
      reads entry
    {
      TextOf(entry.props[1].current)
    }

    function SavedName(): Option<string>
      requires Valid()
      reads entry
    {
      TextOf(entry.props[0].saved)
    }

    function SavedIcon(): Option<string>
      requires Valid()
      reads entry
    {
      TextOf(entry.props[1].saved)
    }

    function SavedDisabling(): Option<DisabledBy>
      requires Valid()
      reads entry
    {
      DisablingOf(entry.props[2].saved)
    }

    /** `Name`: the override, or the original name. */
    function Name(): Option<string>
      requires Valid()
      reads this, entry
    {
      OrOriginal(StoredName(), originalName)
    }

    /** `Icon`: the override, or the original icon. */
    function Icon(): Option<string>
      requires Valid()
      reads this, entry
    {
      OrOriginal(StoredIcon(), originalIcon)
    }

    /** `DeviceClass`: the override, or the original device class. */
    function DeviceClass(): Option<string>
      reads this
    {
      OrOriginal(deviceClass, originalDeviceClass)
    }

    /** `DisabledBy`: the stored source, `None` when nothing is stored. */
    function DisabledBy(): (r: DisabledBy)
      requires Valid()
      reads entry
      ensures DisablingOf(entry.props[2].current).Some? ==> r == DisablingOf(entry.props[2].current).value
      ensures DisablingOf(entry.props[2].current).None? ==> r == NoSource
    {
      var v := DisablingOf(entry.props[2].current);
      if v.Some? then v.value else NoSource
    }

    predicate IsDisabled()
      requires Valid()
      reads entry
    {
      DisabledBy() != NoSource
    }

    /** `Domain`: the part of the entity id before the dot. */
    function Domain(): string
      reads this
    {
      EntityDomain(entityId)
    }

    /**
     * `ShouldSerializeIcon`: the icon is sent when it reads as non-null, that
     * is when an override or an original icon exists, or when the entry is
     * tracked.
     */
    predicate ShouldSerializeIcon()
      requires Valid()
      reads this, entry
      ensures ShouldSerializeIcon() <==> StoredIcon().Some? || originalIcon.Some? || entry.IsTracked()
    {
      Icon().Some? || entry.IsTracked()
    }

    /**
     * The `Name` setter: the original name is stored as "no override", and
     * no name is refused. The name then reads back as the value set, or as
     * the original name for null.
     */
    method SetName(value: Option<string>)
      requires Valid()
      modifies entry`props
      ensures Valid()
      ensures entry.props == old(entry.props)[0 := SetValue(old(entry.props)[0], Text(Override(value, originalName)))]
      ensures Name() == if value.None? then originalName else value
      ensures Icon() == old(Icon()) && DisabledBy() == old(DisabledBy())
      ensures SavedName() == old(SavedName()) && SavedIcon() == old(SavedIcon())
      ensures entry.HasPendingChanges() <==> Override(value, originalName) != SavedName() || PendingExcept(old(entry.props), 0)
      ensures PendingExcept(entry.props, 0) == PendingExcept(old(entry.props), 0)
      ensures entry.isDeserialized == old(entry.isDeserialized) && entry.uniqueId == old(entry.uniqueId)
    {
      assert !NameRefused(ACCEPTS_NULL_OR_WHITE_SPACE_NAME, value);
      assert Layout(entry.props)[0] == ("Name", TextKind);
      entry.SetScalar(0, Text(Override(value, originalName)));
    }

    /** The `Icon` setter, by the same override rule. */
    method SetIcon(value: Option<string>)
      requires Valid()
      modifies entry`props
      ensures Valid()
      ensures entry.props == old(entry.props)[1 := SetValue(old(entry.props)[1], Text(Override(value, originalIcon)))]
      ensures Icon() == if value.None? then originalIcon else value
      ensures Name() == old(Name()) && DisabledBy() == old(DisabledBy())
      ensures SavedName() == old(SavedName()) && SavedIcon() == old(SavedIcon())
      ensures entry.HasPendingChanges() <==> Override(value, originalIcon) != SavedIcon() || PendingExcept(old(entry.props), 1)
      ensures PendingExcept(entry.props, 1) == PendingExcept(old(entry.props), 1)
      ensures entry.isDeserialized == old(entry.isDeserialized) && entry.uniqueId == old(entry.uniqueId)
    {
      assert Layout(entry.props)[1] == ("Icon", TextKind);
      entry.SetScalar(1, Text(Override(value, originalIcon)));
    }

    /** The `DeviceClass` setter: a plain field, so no pending change is recorded. */
    method SetDeviceClass(value: Option<string>)
      modifies this
      ensures deviceClass == Override(value, originalDeviceClass)
      ensures DeviceClass() == if value.None? then originalDeviceClass else value
      ensures entityId == old(entityId) && originalName == old(originalName) && originalIcon == old(originalIcon)
      ensures originalDeviceClass == old(originalDeviceClass) && platform == old(platform)
    {
      deviceClass := Override(value, originalDeviceClass);
    }

    /** `DiscardPendingChanges`: name, icon and disabling source return to their saved values. */
    method DiscardPendingChanges()
      requires Valid()
      modifies entry`props
      ensures Valid()
      ensures StoredName() == old(SavedName()) && StoredIcon() == old(SavedIcon())
      ensures Name() == OrOriginal(old(SavedName()), originalName) && Icon() == OrOriginal(old(SavedIcon()), originalIcon)
      ensures DisablingOf(entry.props[2].current) == old(SavedDisabling())
      ensures !entry.HasPendingChanges()
      ensures entry.isDeserialized == old(entry.isDeserialized) && entry.uniqueId == old(entry.uniqueId)
    {
      entry.DiscardPendingChanges();
    }

    /** `ToString`: "EntityRegistryEntry: " and the entity id. */
    function ToString(): (s: string)
      reads this
      ensures |s| >= 21 && s[..21] == "EntityRegistryEntry: " && s[21..] == entityId
    {
      "EntityRegistryEntry: " + entityId
    }

    /**
     * `Equals` of `EntityRegistryEntryBase`: an entry is equal only if it is
     * an entity entry, of this kind or another, with the same unique id.
     */
    predicate Equals(other: RegistryEntry?)
      reads entry, other
      ensures other == entry ==> Equals(other)
      ensures Valid() && Equals(other) ==> other != null && other.kind.IsEntity()
      ensures Valid() && other != null && other.kind.IsEntity() ==> (Equals(other) <==> other.uniqueId == entry.uniqueId)
    {
      EntryEquals(entry, other)
    }
  }
}
