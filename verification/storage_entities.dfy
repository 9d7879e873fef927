/**
 * `StorageEntityRegistryEntryBase` and `InputBoolean`: entity entries kept in
 * Home Assistant's storage collections. Each storage entry class names its
 * domain with a `StorageEntityDomain` attribute; the domain of a class is
 * looked up once and then served from a cache shared by all entries.
 */
module StorageEntities {
  import opened Outcomes
  import opened Text
  import opened EntityIds
  import opened Modifiable
  import opened RegistryEntries
  import opened EntityEntries

  /** The storage entry classes, and a class that lacks the attribute. */
  datatype EntryType = InputBooleanType | PersonType | ZoneType | UnattributedType

  /** The `StorageEntityDomain` attribute of each class, if it has one. */
  function DomainAttribute(t: EntryType): Option<KnownDomain> {
    match t
    case InputBooleanType => Some(InputBooleanDomain)
    case PersonType => Some(PersonDomain)
    case ZoneType => Some(ZoneDomain)
    case UnattributedType => None
  }

  /** The static `DomainsByType` cache. */
  class DomainCache {
    var domainsByType: map<EntryType, KnownDomain>

    /** Every cached domain is the one the class's attribute names. */
    predicate Valid()
      reads this
    {
      forall t :: t in domainsByType ==> DomainAttribute(t) == Some(domainsByType[t])
    }

    constructor()
      ensures Valid() && domainsByType == map[]
    {
      domainsByType := map[];
    }

    /**
     * `GetDomain(type)`: a cached type is answered from the cache without
     * change; otherwise the attribute is read and its domain cached. A class
     * without the attribute fails with a null dereference.
     */
    method GetDomain(t: EntryType) returns (r: Result<KnownDomain>)
      requires Valid()
      modifies this
      ensures Valid()
      ensures r.Ok? <==> DomainAttribute(t).Some?
      ensures r.Ok? ==> r.value == DomainAttribute(t).value && t in domainsByType && domainsByType[t] == r.value
      ensures t in old(domainsByType) ==> r == Ok(old(domainsByType)[t]) && domainsByType == old(domainsByType)
      ensures t !in old(domainsByType) && r.Ok? ==> domainsByType == old(domainsByType)[t := r.value]
      ensures r.Err? ==> r.error == NullReference && domainsByType == old(domainsByType)
    {
      if t in domainsByType {
        return Ok(domainsByType[t]);
      }
      var attribute := DomainAttribute(t);
      if attribute.None? {
        return Err(NullReference);
      }
      domainsByType := domainsByType[t := attribute.value];
      r := Ok(attribute.value);
    }
  }

  /**
   * `EntityId` of a storage entry: the domain's text, a dot, and the unique
   * id (empty while there is none). Its domain part is always the entry's
   * domain, and with a word-character id it is a valid id of that domain.
   */
  function StorageEntityId(d: KnownDomain, uniqueId: Option<string>): (r: string)
    ensures EntityDomain(r) == DomainString(d)
    ensures uniqueId.Some? && uniqueId.value != [] && AllWordChars(uniqueId.value) ==> IsEntityIdOf(r, DomainString(d))
  {
    var objectId := if uniqueId.Some? then uniqueId.value else "";
    DomainOfComposed(DomainString(d), objectId);
    if objectId != [] && AllWordChars(objectId) then
      ComposedIsEntityIdOf(DomainString(d), objectId);
      ComposeEntityId(DomainString(d), objectId)
    else ComposeEntityId(DomainString(d), objectId)
  }

  /** The base `ToString`: the domain's enum name, a colon, and the name. */
  function StorageText(d: KnownDomain, name: Option<string>): string {
    DomainName(d) + ": " + (if name.Some? then name.value else "")
  }

  /** The entity layout followed by the initial state. */
  const INPUT_BOOLEAN_LAYOUT: seq<(string, Kind)> := ENTITY_LAYOUT + [("Initial", FlagKind)]

  class InputBoolean {
    const entry: RegistryEntry
    /** `_domain`, looked up through the cache when the entry is built. */
    const domain: KnownDomain

    /** `AcceptsNullOrWhiteSpaceName`, inherited: blank names are refused. */
    static const ACCEPTS_NULL_OR_WHITE_SPACE_NAME: bool := false

    predicate Valid()
      reads entry
    {
      entry.kind == InputBooleanKind && entry.Conforms(INPUT_BOOLEAN_LAYOUT) && domain == InputBooleanDomain
    }

    /** The `[JsonConstructor]`: the domain comes from the cache. */
    constructor(cache: DomainCache)
      requires cache.Valid()
      modifies cache
      ensures cache.Valid() && InputBooleanType in cache.domainsByType
      ensures cache.domainsByType == old(cache.domainsByType)[InputBooleanType := InputBooleanDomain]
      ensures Valid() && fresh(entry) && domain == InputBooleanDomain
      ensures Name().None? && Icon().None? && !Initial() && Id().None?
      ensures SavedName().None? && SavedIcon().None? && !SavedInitial()
      ensures !entry.HasPendingChanges() && !entry.isDeserialized && !entry.IsTracked()
    {
      var d := cache.GetDomain(InputBooleanType);
      domain := d.value;
      entry := new RegistryEntry(InputBooleanKind, NewProperties(INPUT_BOOLEAN_LAYOUT));
    }

    /**
     * `InputBoolean(name, icon, initial)`: the base constructor refuses a
     * null or white-space name before the domain is looked up; otherwise
     * name, icon and initial state are set through their setters.
     */
    static method Create(cache: DomainCache, name: Option<string>, icon: Option<string>, initial: bool)
      returns (r: Result<InputBoolean>)
      requires cache.Valid()
      modifies cache
      ensures cache.Valid()
      ensures r.Err? <==> NameRefused(ACCEPTS_NULL_OR_WHITE_SPACE_NAME, name)
      ensures r.Err? ==> r.error == Argument && cache.domainsByType == old(cache.domainsByType)
      ensures r.Ok? ==> fresh(r.value) && fresh(r.value.entry) && r.value.Valid() && r.value.domain == InputBooleanDomain
      ensures r.Ok? ==> r.value.Name() == name && r.value.Icon() == icon && r.value.Initial() == initial
      ensures r.Ok? ==> r.value.SavedName().None? && r.value.SavedIcon().None? && !r.value.SavedInitial()
      ensures r.Ok? ==> r.value.entry.HasPendingChanges() && !r.value.entry.isDeserialized && !r.value.entry.IsTracked()
    {
      if NameRefused(ACCEPTS_NULL_OR_WHITE_SPACE_NAME, name) {
        return Err(Argument);
      }
      var entity := new InputBoolean(cache);
      var named := entity.SetName(name);
      entity.SetIcon(icon);
      entity.SetInitial(initial);
      assert IsPending(entity.entry.props[0]);
      r := Ok(entity);
    }

    /** `CreateUnmodified(uniqueId, name, icon, initial)`: a new entry with an id, everything saved. */
    static method CreateUnmodified(cache: DomainCache, uniqueId: Option<string>, name: Option<string>, icon: Option<string>, initial: bool)
      returns (r: Result<InputBoolean>)
      requires cache.Valid()
      modifies cache
      ensures cache.Valid()
      ensures r.Err? <==> NameRefused(ACCEPTS_NULL_OR_WHITE_SPACE_NAME, name)
      ensures r.Err? ==> r.error == Argument
      ensures r.Ok? ==> fresh(r.value) && fresh(r.value.entry) && r.value.Valid()
      ensures r.Ok? ==> r.value.Id() == uniqueId && r.value.EntityId() == StorageEntityId(InputBooleanDomain, uniqueId)
      ensures r.Ok? ==> r.value.Name() == name && r.value.Icon() == icon && r.value.Initial() == initial
      ensures r.Ok? ==> r.value.SavedName() == name && r.value.SavedIcon() == icon && r.value.SavedInitial() == initial
      ensures r.Ok? ==> !r.value.entry.HasPendingChanges() && !r.value.entry.IsTracked()
    {
      r := Create(cache, name, icon, initial);
      if r.Ok? {
        r.value.entry.uniqueId := uniqueId;
        r.value.entry.SaveChanges();
      }
    }

    /** `Id`, which is also the entry's unique id. */
    function Id(): Option<string>
      reads entry
    {
      entry.uniqueId
    }

    /** `EntityId`: "input_boolean." followed by the id. */
    function EntityId(): string
      reads entry
    {
      StorageEntityId(domain, Id())
    }

    function Name(): Option<string>
      requires Valid()
      reads entry
    {
      TextOf(entry.props[0].current)
    }

    function Icon(): Option<string>
      requires Valid()
      reads entry
    {
      TextOf(entry.props[1].current)
    }

    predicate Initial()
      requires Valid()
      reads entry
    {
      FlagOf(entry.props[2].current)
    }

    function SavedName(): Option<string>
      requires Valid()
      reads entry
    {
      TextOf(entry.props[0].saved)
    }

    function SavedIcon(): Option<string>
      requires Valid()
      reads entry
    {
      TextOf(entry.props[1].saved)
    }

    predicate SavedInitial()
      requires Valid()
      reads entry
    {
      FlagOf(entry.props[2].saved)
    }

    /** The base `Name` setter: a null or white-space name throws and changes nothing. */
    method SetName(value: Option<string>) returns (r: Outcome)
      requires Valid()
      modifies entry`props
      ensures Valid()
      ensures r.Fail? <==> NameRefused(ACCEPTS_NULL_OR_WHITE_SPACE_NAME, value)
      ensures r.Fail? ==> r.error == InvalidOperation && entry.props == old(entry.props)
      ensures r.Pass? ==> entry.props == old(entry.props)[0 := SetValue(old(entry.props)[0], Text(value))]
      ensures r.Pass? ==> Name() == value
      ensures r.Pass? ==> (entry.HasPendingChanges() <==> value != SavedName() || PendingExcept(old(entry.props), 0))
      ensures Icon() == old(Icon()) && Initial() == old(Initial())
      ensures SavedName() == old(SavedName()) && SavedIcon() == old(SavedIcon()) && SavedInitial() == old(SavedInitial())
      ensures PendingExcept(entry.props, 0) == PendingExcept(old(entry.props), 0)
      ensures entry.isDeserialized == old(entry.isDeserialized) && entry.uniqueId == old(entry.uniqueId)
    {
      if NameRefused(ACCEPTS_NULL_OR_WHITE_SPACE_NAME, value) {
        return Fail(InvalidOperation);
      }
      assert Layout(entry.props)[0] == ("Name", TextKind);
      entry.SetScalar(0, Text(value));
      r := Pass;
    }

    /** The base `Icon` setter. */
    method SetIcon(value: Option<string>)
      requires Valid()
      modifies entry`props
      ensures Valid()
      ensures entry.props == old(entry.props)[1 := SetValue(old(entry.props)[1], Text(value))]
      ensures Icon() == value && Name() == old(Name()) && Initial() == old(Initial())
      ensures SavedName() == old(SavedName()) && SavedIcon() == old(SavedIcon()) && SavedInitial() == old(SavedInitial())
      ensures entry.HasPendingChanges() <==> value != SavedIcon() || PendingExcept(old(entry.props), 1)
      ensures PendingExcept(entry.props, 1) == PendingExcept(old(entry.props), 1)
      ensures entry.isDeserialized == old(entry.isDeserialized) && entry.uniqueId == old(entry.uniqueId)
    {
      assert Layout(entry.props)[1] == ("Icon", TextKind);
      entry.SetScalar(1, Text(value));
    }

    /** The `Initial` setter. */
    method SetInitial(value: bool)
      requires Valid()
      modifies entry`props
      ensures Valid()
      ensures entry.props == old(entry.props)[2 := SetValue(old(entry.props)[2], Flag(value))]
      ensures Initial() == value && Name() == old(Name()) && Icon() == old(Icon())
      ensures SavedName() == old(SavedName()) && SavedIcon() == old(SavedIcon()) && SavedInitial() == old(SavedInitial())
      ensures entry.HasPendingChanges() <==> value != SavedInitial() || PendingExcept(old(entry.props), 2)
      ensures PendingExcept(entry.props, 2) == PendingExcept(old(entry.props), 2)
      ensures entry.isDeserialized == old(entry.isDeserialized) && entry.uniqueId == old(entry.uniqueId)
    {
      assert Layout(entry.props)[2] == ("Initial", FlagKind);
      entry.SetScalar(2, Flag(value));
    }

    /** `DiscardPendingChanges`: name, icon and initial state return to their saved values. */
    method DiscardPendingChanges()
      requires Valid()
      modifies entry`props
      ensures Valid()
      ensures Name() == old(SavedName()) && Icon() == old(SavedIcon()) && Initial() == old(SavedInitial())
      ensures SavedName() == old(SavedName()) && SavedIcon() == old(SavedIcon()) && SavedInitial() == old(SavedInitial())
      ensures !entry.HasPendingChanges()
      ensures entry.isDeserialized == old(entry.isDeserialized) && entry.uniqueId == old(entry.uniqueId)
    {
      entry.DiscardPendingChanges();
    }

    /** `ShouldSerializeIcon`: the icon is sent when it is set or the entry is tracked. */
    predicate ShouldSerializeIcon()
      requires Valid()
      reads entry
    {
      Icon().Some? || entry.IsTracked()
    }

    /** `ToString`: "InputBoolean: " and the name, the same text the storage base class prints. */
    function ToString(): (s: string)
      requires Valid()
      reads entry
      ensures s == StorageText(domain, Name())
    {
      "InputBoolean: " + (if Name().Some? then Name().value else "")
    }

    /** `Equals`, inherited from `EntityRegistryEntryBase`. */
    predicate Equals(other: RegistryEntry?)
      reads entry, other
      ensures other == entry ==> Equals(other)
      ensures Valid() && Equals(other) ==> other != null && other.kind.IsEntity()
      ensures Valid() && other != null && other.kind.IsEntity() ==> (Equals(other) <==> other.uniqueId == entry.uniqueId)
    {
      EntryEquals(entry, other)
    }
  }

  /**
   * An input boolean and an entity registry entry share the
   * `EntityRegistryEntryBase` override: each is equal to the other exactly
   * when their unique ids are equal.
   */
  lemma InputBooleanEqualsEntity(b: InputBoolean, e: EntityRegistryEntry)
    requires b.Valid() && e.Valid()
    ensures b.Equals(e.entry) <==> e.Equals(b.entry)
    ensures b.Equals(e.entry) <==> b.entry.uniqueId == e.entry.uniqueId
  {
  }
}
