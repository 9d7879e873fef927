/**
 * Entity ids of the form `<domain>.<object id>` and the known domains the
 * storage entries use.
 *
 * The string helpers `GetDomain` and `IsValidDomainEntityId` of the library
 * are not part of this model; they are taken to split the id at its dots.
 */
module EntityIds {
  import opened Text

  /** The part of an entity id before its first dot. */
  function EntityDomain(entityId: string): string {
    Split(entityId, '.')[0]
  }

  /** `id` is `<domain>.<object id>` with a non-empty object id of word characters. */
  predicate IsEntityIdOf(entityId: string, domain: string) {
    var parts := Split(entityId, '.');
    |parts| == 2 && parts[0] == domain && parts[1] != [] && AllWordChars(parts[1])
  }

  /** `$"{domain}.{objectId}"`. */
  function ComposeEntityId(domain: string, objectId: string): string {
    domain + "." + objectId
  }

  /** The domain of a composed id is the domain it was composed from. */
  lemma DomainOfComposed(domain: string, objectId: string)
    requires '.' !in domain
    ensures EntityDomain(ComposeEntityId(domain, objectId)) == domain
  {
    SplitAfterPiece(domain, '.', objectId);
    assert domain + "." + objectId == domain + ['.'] + objectId;
  }

  /** A composed id with a word-character object id is a valid id of its domain. */
  lemma ComposedIsEntityIdOf(domain: string, objectId: string)
    requires '.' !in domain
    requires objectId != [] && AllWordChars(objectId)
    ensures IsEntityIdOf(ComposeEntityId(domain, objectId), domain)
  {
    assert '.' !in objectId by {
      forall k | 0 <= k < |objectId|
        ensures objectId[k] != '.'
      {
        assert IsWordChar(objectId[k]);
      }
    }
    SplitAfterPiece(domain, '.', objectId);
    SplitWithoutSeparator(objectId, '.');
    assert domain + "." + objectId == domain + ['.'] + objectId;
  }

  /** `KnownDomains` members the model refers to. */
  datatype KnownDomain = InputBooleanDomain | PersonDomain | ZoneDomain | DeviceTrackerDomain

  /** `ToDomainString`: the snake-case text of a domain. */
  function DomainString(d: KnownDomain): (s: string)
    ensures s != [] && '.' !in s
  {
    match d
    case InputBooleanDomain => "input_boolean"
    case PersonDomain => "person"
    case ZoneDomain => "zone"
    case DeviceTrackerDomain => "device_tracker"
  }

  /** The enum member's own name, which string interpolation of a `KnownDomains` prints. */
  function DomainName(d: KnownDomain): string {
    match d
    case InputBooleanDomain => "InputBoolean"
    case PersonDomain => "Person"
    case ZoneDomain => "Zone"
    case DeviceTrackerDomain => "DeviceTracker"
  }
}
