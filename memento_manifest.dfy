/**
  The memento manifest (BrooklynMementoManifestImpl.java): a builder that collects, per kind of
  Brooklyn object, a map from id to type name, and the manifest it builds, which shares those maps
  and answers whether it holds anything.

  The source file carries an unresolved merge conflict between a catalog-item map and a feed map;
  its getters and isEmpty refer to both, so the model keeps both.
*/
module MementoManifest {
  import opened Wrappers
  import opened JavaLang

  /** The kinds of object the manifest records. */
  datatype Kind = EntityIds | LocationIds | PolicyIds | EnricherIds | CatalogItemIds | FeedIds

  /** The content of all six maps at once. */
  datatype Snapshot = Snapshot(
    entities: map<string, string>, locations: map<string, string>, policies: map<string, string>,
    enrichers: map<string, string>, catalogItems: map<string, string>, feeds: map<string, string>)
  {
    /** The map of kind `k`. */
    function Of(k: Kind): map<string, string> {
      match k
      case EntityIds => entities
      case LocationIds => locations
      case PolicyIds => policies
      case EnricherIds => enrichers
      case CatalogItemIds => catalogItems
      case FeedIds => feeds
    }

    /** The snapshot with the map of kind `k` replaced by `m`. */
    function With(k: Kind, m: map<string, string>): (r: Snapshot)
      ensures r.Of(k) == m
      ensures forall other :: other != k ==> r.Of(other) == Of(other)
    {
      match k
      case EntityIds => this.(entities := m)
      case LocationIds => this.(locations := m)
      case PolicyIds => this.(policies := m)
      case EnricherIds => this.(enrichers := m)
      case CatalogItemIds => this.(catalogItems := m)
      case FeedIds => this.(feeds := m)
    }
  }

  /** `isEmpty()`, on contents: every map but the feed map is empty. */
  function IsEmptyContents(s: Snapshot): (r: bool)
    ensures r <==> forall k :: k != FeedIds ==> s.Of(k) == map[]
  {
    s.Of(EntityIds) == map[] && s.Of(LocationIds) == map[] && s.Of(PolicyIds) == map[] && s.Of(EnricherIds) == map[]
    && s.Of(CatalogItemIds) == map[]
  }

  /** Two snapshots that agree on every kind are the same snapshot. */
  lemma SnapshotsAgree(a: Snapshot, b: Snapshot)
    requires forall k :: a.Of(k) == b.Of(k)
    ensures a == b
  {
    assert a.Of(EntityIds) == b.Of(EntityIds) && a.Of(LocationIds) == b.Of(LocationIds) && a.Of(PolicyIds) == b.Of(PolicyIds);
    assert a.Of(EnricherIds) == b.Of(EnricherIds) && a.Of(CatalogItemIds) == b.Of(CatalogItemIds) && a.Of(FeedIds) == b.Of(FeedIds);
  }

  /** The snapshot after `put(id, type)` on the map of kind `k`. */
  function Put(s: Snapshot, k: Kind, id: string, typeName: string): Snapshot {
    s.With(k, s.Of(k)[id := typeName])
  }

  /** The snapshot after `putAll(vals)` on the map of kind `k`. */
  function PutAll(s: Snapshot, k: Kind, vals: map<string, string>): Snapshot {
    s.With(k, s.Of(k) + vals)
  }

  /** Recording anything other than a feed makes the manifest non-empty. */
  lemma PutMakesNonEmpty(s: Snapshot, k: Kind, id: string, typeName: string)
    requires k != FeedIds
    ensures !IsEmptyContents(Put(s, k, id, typeName))
    ensures Put(s, k, id, typeName).Of(k)[id] == typeName
  {
    assert id in Put(s, k, id, typeName).Of(k);
  }

  /** Feeds never count: recording them leaves emptiness as it was. */
  lemma FeedsDoNotCount(s: Snapshot, id: string, typeName: string, vals: map<string, string>)
    ensures IsEmptyContents(Put(s, FeedIds, id, typeName)) == IsEmptyContents(s)
    ensures IsEmptyContents(PutAll(s, FeedIds, vals)) == IsEmptyContents(s)
  {
  }

  /** The last write to an id wins, whether it came singly or in a batch; other kinds are untouched. */
  lemma LastWriteWins(s: Snapshot, k: Kind, id: string, first: string, vals: map<string, string>)
    ensures id in vals ==> PutAll(Put(s, k, id, first), k, vals).Of(k)[id] == vals[id]
    ensures id !in vals ==> PutAll(Put(s, k, id, first), k, vals).Of(k)[id] == first
    ensures Put(PutAll(s, k, vals), k, id, first).Of(k)[id] == first
    ensures forall other :: other != k ==> PutAll(Put(s, k, id, first), k, vals).Of(other) == s.Of(other)
  {
  }

  /** One of the builder's concurrent maps (Maps.newConcurrentMap()), which rejects null keys and values. */
  class IdToTypeMap {
    var contents: map<string, string>

    constructor ()
      ensures contents == map[]
    {
      contents := map[];
    }

    /** `put(id, type)`: overwrites any earlier type for the id; a null id or type is a NullPointerException. */
    method Put(id: Option<string>, typeName: Option<string>) returns (r: Result<()>)
      modifies this
      ensures r.Err? <==> id.None? || typeName.None?
      ensures r.Err? ==> r.error.NullPointer? && contents == old(contents)
      ensures r.Ok? ==> contents == old(contents)[id.value := typeName.value]
    {
      if id.None? || typeName.None? {
        return Err(NullPointer("ConcurrentHashMap does not accept null keys or values"));
      }
      contents := contents[id.value := typeName.value];
      return Ok(());
    }

    /** `putAll(vals)`: every entry of `vals` is put, so its entries win over earlier ones. */
    method PutAll(vals: map<string, string>)
      modifies this
      ensures contents == old(contents) + vals
    {
      contents := contents + vals;
    }
  }

  /** The map of kind `k` among the six id-to-type maps that a builder and its manifest share. */
  function Pick(k: Kind, entities: IdToTypeMap, locations: IdToTypeMap, policies: IdToTypeMap,
                enrichers: IdToTypeMap, catalogItems: IdToTypeMap, feeds: IdToTypeMap): IdToTypeMap {
    match k
    case EntityIds => entities
    case LocationIds => locations
    case PolicyIds => policies
    case EnricherIds => enrichers
    case CatalogItemIds => catalogItems
    case FeedIds => feeds
  }

  /** What the six maps hold now, read the same way by the builder and by the manifest. */
  ghost function Read(entities: IdToTypeMap, locations: IdToTypeMap, policies: IdToTypeMap,
                      enrichers: IdToTypeMap, catalogItems: IdToTypeMap, feeds: IdToTypeMap): (s: Snapshot)
    reads entities, locations, policies, enrichers, catalogItems, feeds
    ensures forall k :: s.Of(k) == Pick(k, entities, locations, policies, enrichers, catalogItems, feeds).contents
  {
    Snapshot(entities.contents, locations.contents, policies.contents, enrichers.contents, catalogItems.contents, feeds.contents)
  }

  /** BrooklynMementoManifestImpl.Builder. */
  class Builder {
    var brooklynVersion: Option<string>
    const entityIdToType: IdToTypeMap
    const locationIdToType: IdToTypeMap
    const policyIdToType: IdToTypeMap
    const enricherIdToType: IdToTypeMap
    const catalogItemIdToType: IdToTypeMap
    const feedIdToType: IdToTypeMap

    /** The builder's map for kind `k`. */
    function MapOf(k: Kind): IdToTypeMap {
      Pick(k, entityIdToType, locationIdToType, policyIdToType, enricherIdToType, catalogItemIdToType, feedIdToType)
    }

    ghost function Maps(): set<IdToTypeMap> {
      {entityIdToType, locationIdToType, policyIdToType, enricherIdToType, catalogItemIdToType, feedIdToType}
    }

    /** The six maps are six distinct objects. */
    ghost predicate Valid() {
      forall k, k' :: k != k' ==> MapOf(k) != MapOf(k')
    }

    ghost function Contents(): (s: Snapshot)
      reads Maps()
      ensures forall k :: s.Of(k) == MapOf(k).contents
    {
      Read(entityIdToType, locationIdToType, policyIdToType, enricherIdToType, catalogItemIdToType, feedIdToType)
    }

    /** `builder()`: a builder with six new, empty maps and no version. */
    constructor ()
      ensures Valid() && brooklynVersion.None?
      ensures fresh(Maps())
      ensures forall k :: MapOf(k).contents == map[]
    {
      brooklynVersion := None;
      entityIdToType := new IdToTypeMap();
      locationIdToType := new IdToTypeMap();
      policyIdToType := new IdToTypeMap();
      enricherIdToType := new IdToTypeMap();
      catalogItemIdToType := new IdToTypeMap();
      feedIdToType := new IdToTypeMap();
    }

    /** `brooklynVersion(val)`: the maps are untouched. */
    method BrooklynVersion(val: Option<string>) returns (b: Builder)
      modifies this
      ensures b == this && brooklynVersion == val
    {
      brooklynVersion := val;
      return this;
    }

    /** `put` on the map of kind `k`; every other map keeps its contents. */
    method PutOne(k: Kind, id: Option<string>, typeName: Option<string>) returns (r: Result<Builder>)
      requires Valid()
      modifies MapOf(k)
      ensures r.Err? <==> id.None? || typeName.None?
      ensures r.Err? ==> r.error.NullPointer? && Contents() == old(Contents())
      ensures r.Ok? ==> r.value == this && Contents() == Put(old(Contents()), k, id.value, typeName.value)
    {
      var m := MapOf(k);
      var done := m.Put(id, typeName);
      if done.Err? {
        SnapshotsAgree(Contents(), old(Contents()));
        return Err(done.error);
      }
      SnapshotsAgree(Contents(), Put(old(Contents()), k, id.value, typeName.value));
      return Ok(this);
    }

    /** `putAll` on the map of kind `k`; every other map keeps its contents. */
    method PutMany(k: Kind, vals: map<string, string>) returns (b: Builder)
      requires Valid()
      modifies MapOf(k)
      ensures b == this && Contents() == PutAll(old(Contents()), k, vals)
    {
      var m := MapOf(k);
      m.PutAll(vals);
      SnapshotsAgree(Contents(), PutAll(old(Contents()), k, vals));
      return this;
    }

    method Entity(id: Option<string>, typeName: Option<string>) returns (r: Result<Builder>)
      requires Valid()
      modifies entityIdToType
      ensures r.Err? <==> id.None? || typeName.None?
      ensures r.Ok? ==> r.value == this && Contents() == Put(old(Contents()), EntityIds, id.value, typeName.value)
      ensures r.Err? ==> Contents() == old(Contents())
    {
      r := PutOne(EntityIds, id, typeName);
    }

    method Entities(vals: map<string, string>) returns (b: Builder)
      requires Valid()
      modifies entityIdToType
      ensures b == this && Contents() == PutAll(old(Contents()), EntityIds, vals)
    {
      b := PutMany(EntityIds, vals);
    }

    method Location(id: Option<string>, typeName: Option<string>) returns (r: Result<Builder>)
      requires Valid()
      modifies locationIdToType
      ensures r.Err? <==> id.None? || typeName.None?
      ensures r.Ok? ==> r.value == this && Contents() == Put(old(Contents()), LocationIds, id.value, typeName.value)
      ensures r.Err? ==> Contents() == old(Contents())
    {
      r := PutOne(LocationIds, id, typeName);
    }

    method Locations(vals: map<string, string>) returns (b: Builder)
      requires Valid()
      modifies locationIdToType
      ensures b == this && Contents() == PutAll(old(Contents()), LocationIds, vals)
    {
      b := PutMany(LocationIds, vals);
    }

    method Policy(id: Option<string>, typeName: Option<string>) returns (r: Result<Builder>)
      requires Valid()
      modifies policyIdToType
      ensures r.Err? <==> id.None? || typeName.None?
      ensures r.Ok? ==> r.value == this && Contents() == Put(old(Contents()), PolicyIds, id.value, typeName.value)
      ensures r.Err? ==> Contents() == old(Contents())
    {
      r := PutOne(PolicyIds, id, typeName);
    }

    method Policies(vals: map<string, string>) returns (b: Builder)
      requires Valid()
      modifies policyIdToType
      ensures b == this && Contents() == PutAll(old(Contents()), PolicyIds, vals)
    {
      b := PutMany(PolicyIds, vals);
    }

    method Enricher(id: Option<string>, typeName: Option<string>) returns (r: Result<Builder>)
      requires Valid()
      modifies enricherIdToType
      ensures r.Err? <==> id.None? || typeName.None?
      ensures r.Ok? ==> r.value == this && Contents() == Put(old(Contents()), EnricherIds, id.value, typeName.value)
      ensures r.Err? ==> Contents() == old(Contents())
    {
      r := PutOne(EnricherIds, id, typeName);
    }

    method Enrichers(vals: map<string, string>) returns (b: Builder)
      requires Valid()
      modifies enricherIdToType
      ensures b == this && Contents() == PutAll(old(Contents()), EnricherIds, vals)
    {
      b := PutMany(EnricherIds, vals);
    }

    method CatalogItem(id: Option<string>, typeName: Option<string>) returns (r: Result<Builder>)
      requires Valid()
      modifies catalogItemIdToType
      ensures r.Err? <==> id.None? || typeName.None?
      ensures r.Ok? ==> r.value == this && Contents() == Put(old(Contents()), CatalogItemIds, id.value, typeName.value)
      ensures r.Err? ==> Contents() == old(Contents())
    {
      r := PutOne(CatalogItemIds, id, typeName);
    }

    method CatalogItems(vals: map<string, string>) returns (b: Builder)
      requires Valid()
      modifies catalogItemIdToType
      ensures b == this && Contents() == PutAll(old(Contents()), CatalogItemIds, vals)
    {
      b := PutMany(CatalogItemIds, vals);
    }

    /** `feed(id, type)`. */
    method Feed(id: Option<string>, typeName: Option<string>) returns (r: Result<Builder>)
      requires Valid()
      modifies feedIdToType
      ensures r.Err? <==> id.None? || typeName.None?
      ensures r.Ok? ==> r.value == this && Contents() == Put(old(Contents()), FeedIds, id.value, typeName.value)
      ensures r.Err? ==> Contents() == old(Contents())
    {
      r := PutOne(FeedIds, id, typeName);
    }

    /** `feed(vals)`: the batch form shares the singular form's name in the source. */
    method Feeds(vals: map<string, string>) returns (b: Builder)
      requires Valid()
      modifies feedIdToType
      ensures b == this && Contents() == PutAll(old(Contents()), FeedIds, vals)
    {
      b := PutMany(FeedIds, vals);
    }

    /** `build()`: a new manifest holding this builder's own map objects, not copies; the version is not kept. */
    method Build() returns (m: Manifest)
      requires Valid()
      ensures fresh(m)
      ensures forall k :: m.MapOf(k) == MapOf(k)
      ensures m.Valid() && m.Contents() == Contents()
    {
      m := new Manifest(this);
      SnapshotsAgree(m.Contents(), Contents());
    }
  }

  /** BrooklynMementoManifestImpl: six maps taken from a builder. */
  class Manifest {
    const entityIdToType: IdToTypeMap
    const locationIdToType: IdToTypeMap
    const policyIdToType: IdToTypeMap
    const enricherIdToType: IdToTypeMap
    const catalogItemIdToType: IdToTypeMap
    const feedIdToType: IdToTypeMap

    function MapOf(k: Kind): IdToTypeMap {
      Pick(k, entityIdToType, locationIdToType, policyIdToType, enricherIdToType, catalogItemIdToType, feedIdToType)
    }

    ghost function Maps(): set<IdToTypeMap> {
      {entityIdToType, locationIdToType, policyIdToType, enricherIdToType, catalogItemIdToType, feedIdToType}
    }

    ghost predicate Valid() {
      forall k, k' :: k != k' ==> MapOf(k) != MapOf(k')
    }

    ghost function Contents(): (s: Snapshot)
      reads Maps()
      ensures forall k :: s.Of(k) == MapOf(k).contents
    {
      Read(entityIdToType, locationIdToType, policyIdToType, enricherIdToType, catalogItemIdToType, feedIdToType)
    }

    constructor (builder: Builder)
      requires builder.Valid()
      ensures forall k :: MapOf(k) == builder.MapOf(k)
    {
      entityIdToType := builder.entityIdToType;
      locationIdToType := builder.locationIdToType;
      policyIdToType := builder.policyIdToType;
      enricherIdToType := builder.enricherIdToType;
      catalogItemIdToType := builder.catalogItemIdToType;
      feedIdToType := builder.feedIdToType;
    }

    /**
      The getters (`getEntityIdToType()` and the others): a read-only view of the map of kind `k`,
      so it shows whatever that map holds when it is read.
    */
    function IdToType(k: Kind): (r: map<string, string>)
      reads MapOf(k)
      ensures forall id :: id in r <==> id in MapOf(k).contents
      ensures forall id :: id in r ==> r[id] == MapOf(k).contents[id]
    {
      MapOf(k).contents
    }

    /** isEmpty(): the feed map is not consulted. */
    function IsEmpty(): (r: bool)
      reads Maps()
      ensures r == IsEmptyContents(Contents())
    {
      entityIdToType.contents == map[] && locationIdToType.contents == map[] && policyIdToType.contents == map[]
      && enricherIdToType.contents == map[] && catalogItemIdToType.contents == map[]
    }
  }

  /**
    Because the manifest shares the builder's maps, a put on the builder after `build()` shows in the
    manifest already built, and can make a manifest that was empty non-empty.
  */
  method PutAfterBuildIsVisible(b: Builder, id: string, typeName: string) returns (m: Manifest)
    requires b.Valid()
    modifies b.entityIdToType
    ensures id in m.IdToType(EntityIds)
    ensures m.IdToType(EntityIds)[id] == typeName
    ensures !m.IsEmpty()
  {
    m := b.Build();
    var r := b.Entity(Some(id), Some(typeName));
    assert m.MapOf(EntityIds) == b.MapOf(EntityIds);
    PutMakesNonEmpty(old(b.Contents()), EntityIds, id, typeName);
  }
}
