/**
 * `Device`: a device registry entry. The name the server reported is kept
 * apart from the name the user chose (`name_by_user`), which overrides it;
 * the area and the disabling source are modifiable too.
 */
module Devices {
  import opened Outcomes
  import opened Modifiable
  import opened RegistryEntries

  /** The modifiable properties of a device: area id, disabling source, user's name. */
  const DEVICE_LAYOUT: seq<(string, Kind)> :=
    [("AreaId", TextKind), ("_disabledBy", DisablingKind), ("_nameByUser", TextKind)]

  /** `value ?? DisabledByEnum.None`. */
  function SourceOrNone(v: Option<DisabledBy>): DisabledBy {
    if v.Some? then v.value else NoSource
  }

  class Device {
    const entry: RegistryEntry
    /** The name reported by the integration (`name` on the wire). */
    var originalName: Option<string>

    predicate Valid()
      reads entry
    {
      entry.kind == DeviceKind && entry.Conforms(DEVICE_LAYOUT)
    }

    /** The `[JsonConstructor]`. */
    constructor()
      ensures Valid() && fresh(entry) && originalName.None?
      ensures AreaId().None? && NameByUser().None? && DisabledBy() == NoSource && Id().None?
      ensures !entry.HasPendingChanges() && !entry.isDeserialized && !entry.IsTracked()
    {
      entry := new RegistryEntry(DeviceKind, NewProperties(DEVICE_LAYOUT));
      originalName := None;
    }

    /**
     * `CreateUnmodified(id, name, areaId, disabledBy)`: a device with the
     * given id and original name, area and disabling source, all saved.
     */
    static method CreateUnmodified(id: Option<string>, name: Option<string>, areaId: Option<string>, disabledBy: DisabledBy)
      returns (d: Device)
      ensures fresh(d) && fresh(d.entry) && d.Valid()
      ensures d.Id() == id && d.originalName == name && d.Name() == name
      ensures d.AreaId() == areaId && d.DisabledBy() == disabledBy
      ensures d.IsDisabled() <==> disabledBy != NoSource
      ensures d.SavedAreaId() == areaId && d.SavedNameByUser().None? && d.SavedDisabling() == Some(disabledBy)
      ensures !d.entry.HasPendingChanges() && !d.entry.IsTracked()
    {
      d := new Device();
      d.entry.uniqueId := id;
      d.originalName := name;
      d.SetAreaId(areaId);
      assert Layout(d.entry.props)[1] == ("_disabledBy", DisablingKind);
      d.entry.SetScalar(1, Disabling(Some(disabledBy)));
      d.entry.SaveChanges();
    }

    /** `Id`, which is also the entry's unique id. */
    function Id(): Option<string>
      reads entry
    {
      entry.uniqueId
    }

    function AreaId(): Option<string>
      requires Valid()
      reads entry
    {
      TextOf(entry.props[0].current)
    }

    function NameByUser(): Option<string>
      requires Valid()
      reads entry
    {
      TextOf(entry.props[2].current)
    }

    function SavedAreaId(): Option<string>
      requires Valid()
      reads entry
    {
      TextOf(entry.props[0].saved)
    }

    function SavedNameByUser(): Option<string>
      requires Valid()
      reads entry
    {
      TextOf(entry.props[2].saved)
    }

    function SavedDisabling(): Option<DisabledBy>
      requires Valid()
      reads entry
    {
      DisablingOf(entry.props[1].saved)
    }

    /** `Name`: the user's name when set, otherwise the original one. */
    function Name(): (r: Option<string>)
      requires Valid()
      reads this, entry
      ensures NameByUser().Some? ==> r == NameByUser()
      ensures NameByUser().None? ==> r == originalName
    {
      OrOriginal(NameByUser(), originalName)
    }

    /** `DisabledBy`: the stored source, `None` when nothing is stored. */
    function DisabledBy(): (r: DisabledBy)
      requires Valid()
      reads entry
      ensures DisablingOf(entry.props[1].current).Some? ==> r == DisablingOf(entry.props[1].current).value
      ensures DisablingOf(entry.props[1].current).None? ==> r == NoSource
    {
      SourceOrNone(DisablingOf(entry.props[1].current))
    }

    predicate IsDisabled()
      requires Valid()
      reads entry
    {
      DisabledBy() != NoSource
    }

    /**
     * The `Name` setter: the original name is stored as "no override". The
     * name then reads back as the value set, or as the original name for
     * null. The device is pending afterwards exactly when the stored override
     * differs from the saved one or another property was already pending.
     */
    method SetName(value: Option<string>)
      requires Valid()
      modifies entry`props
      ensures Valid()
      ensures entry.props == old(entry.props)[2 := SetValue(old(entry.props)[2], Text(Override(value, originalName)))]
      ensures NameByUser() == Override(value, originalName)
      ensures Name() == if value.None? then originalName else value
      ensures AreaId() == old(AreaId()) && DisabledBy() == old(DisabledBy())
      ensures entry.HasPendingChanges() <==>
        Override(value, originalName) != SavedNameByUser() || PendingExcept(old(entry.props), 2)
      ensures PendingExcept(entry.props, 2) == PendingExcept(old(entry.props), 2)
      ensures SavedNameByUser() == old(SavedNameByUser()) && SavedAreaId() == old(SavedAreaId())
      ensures entry.isDeserialized == old(entry.isDeserialized) && entry.uniqueId == old(entry.uniqueId)
    {
      assert Layout(entry.props)[2] == ("_nameByUser", TextKind);
      entry.SetScalar(2, Text(Override(value, originalName)));
    }

    /** The `AreaId` setter. */
    method SetAreaId(value: Option<string>)
      requires Valid()
      modifies entry`props
      ensures Valid()
      ensures entry.props == old(entry.props)[0 := SetValue(old(entry.props)[0], Text(value))]
      ensures AreaId() == value && NameByUser() == old(NameByUser()) && DisabledBy() == old(DisabledBy())
      ensures entry.HasPendingChanges() <==> value != SavedAreaId() || PendingExcept(old(entry.props), 0)
      ensures PendingExcept(entry.props, 0) == PendingExcept(old(entry.props), 0)
      ensures SavedNameByUser() == old(SavedNameByUser()) && SavedAreaId() == old(SavedAreaId())
      ensures entry.isDeserialized == old(entry.isDeserialized) && entry.uniqueId == old(entry.uniqueId)
    {
      assert Layout(entry.props)[0] == ("AreaId", TextKind);
      entry.SetScalar(0, Text(value));
    }

    /** `DiscardPendingChanges`: area, disabling source and the user's name return to their saved values. */
    method DiscardPendingChanges()
      requires Valid()
      modifies entry`props
      ensures Valid()
      ensures AreaId() == old(SavedAreaId()) && NameByUser() == old(SavedNameByUser())
      ensures DisabledBy() == SourceOrNone(old(SavedDisabling()))
      ensures !entry.HasPendingChanges()
      ensures entry.isDeserialized == old(entry.isDeserialized) && entry.uniqueId == old(entry.uniqueId)
    {
      entry.DiscardPendingChanges();
    }

    /** `ToString`: "Device: " and the name. */
    function ToString(): (s: string)
      requires Valid()
      reads this, entry
      ensures |s| >= 8 && s[..8] == "Device: "
      ensures Name().Some? ==> s[8..] == Name().value
      ensures Name().None? ==> |s| == 8
    {
      "Device: " + (if Name().Some? then Name().value else "")
    }

    /** `Equals`: an entry is equal to a device only if it is a device, and two devices are equal when their ids are. */
    predicate Equals(other: RegistryEntry?)
      reads entry, other
      ensures other == entry ==> Equals(other)
      ensures Valid() && Equals(other) ==> other != null && other.kind == DeviceKind
      ensures Valid() && other != null && other.kind == DeviceKind ==> (Equals(other) <==> other.uniqueId == Id())
    {
      EntryEquals(entry, other)
    }
  }
}
