/** The resident contents of the device/link cache as a value: two tables, their lookup indexes,
    the reverse adjacency index and the materialised lists. */
module CacheStore {
  import opened Basics
  import opened KeyIndex
  import opened Sorting
  import Text

  datatype Device = Device(id: Id, hostname: string, sysName: string, details: string)

  datatype Link = Link(id: Id, source: Id, sourceIf: string, target: Id, targetIf: string, createdAt: int,
    details: string)

  datatype EndpointPair = EndpointPair(source: Id, sourceIf: string, target: Id, targetIf: string)

  datatype Store = Store(
    devicesByID: map<Id, Device>, devicesBySysName: map<string, Id>,
    linksByID: map<Id, Link>, linksByEndpoint: map<EndpointPair, Id>, linksByDevice: map<Id, set<Id>>,
    devices: seq<Device>, links: seq<Link>, devicesDirty: bool, linksDirty: bool)

  const EMPTY := Store(map[], map[], map[], map[], map[], [], [], true, true)

  // ----- lookup keys -----

  /** Lower-case short host name: trimmed, without one trailing dot, cut at the first dot. */
  function NormalizeSysName(sysName: string): string {
    var lower := Text.Lower(Text.TrimSpace(sysName));
    var bare := if lower != "" && lower[|lower| - 1] == '.' then lower[..|lower| - 1] else lower;
    bare[..Text.Find(bare, '.')]
  }

  /** Devices without a usable sysName are not indexed. */
  function SysNameKey(d: Device): Option<string> {
    var name := NormalizeSysName(d.sysName);
    if name == "" then None else Some(name)
  }

  function NormalizeInterface(name: string): string {
    Text.Lower(Text.TrimSpace(name))
  }

  function MakeEndpointPair(source: Id, sourceIf: string, target: Id, targetIf: string): EndpointPair {
    EndpointPair(source, NormalizeInterface(sourceIf), target, NormalizeInterface(targetIf))
  }

  function EndpointKey(l: Link): Option<EndpointPair> {
    Some(MakeEndpointPair(l.source, l.sourceIf, l.target, l.targetIf))
  }

  function DeviceId(d: Device): Id { d.id }

  function LinkId(l: Link): Id { l.id }

  // ----- orders of the materialised lists -----

  predicate DeviceBefore(a: Device, b: Device) {
    if a.hostname != b.hostname then Text.Before(a.hostname, b.hostname) else a.id < b.id
  }

  predicate LinkBefore(a: Link, b: Link) {
    if a.createdAt != b.createdAt then a.createdAt < b.createdAt else a.id < b.id
  }

  lemma ListOrdersAreStrict()
    ensures StrictOrder(DeviceBefore) && StrictOrder(LinkBefore)
    ensures forall a: Device, b: Device :: a.id != b.id ==> DeviceBefore(a, b) || DeviceBefore(b, a)
  {
    forall a: Device, b: Device
      ensures DeviceBefore(a, b) ==> !DeviceBefore(b, a)
      ensures a.id != b.id ==> DeviceBefore(a, b) || DeviceBefore(b, a)
    {
      Text.BeforeIsAsymmetric(a.hostname, b.hostname);
      Text.BeforeIsTotal(a.hostname, b.hostname);
    }
    forall a: Device, b: Device, c: Device | DeviceBefore(a, b) && DeviceBefore(b, c)
      ensures DeviceBefore(a, c)
    {
      if Text.Before(a.hostname, b.hostname) && Text.Before(b.hostname, c.hostname) {
        Text.BeforeIsTransitive(a.hostname, b.hostname, c.hostname);
        Text.BeforeIsAsymmetric(a.hostname, c.hostname);
      }
    }
  }

  // ----- adjacency -----

  predicate Incident(l: Link, device: Id) {
    l.source == device || l.target == device
  }

  function IncidentLinks(links: map<Id, Link>, device: Id): set<Id> {
    set id | id in links && Incident(links[id], device)
  }

  function Attach(adjacency: map<Id, set<Id>>, device: Id, link: Id): map<Id, set<Id>> {
    adjacency[device := (if device in adjacency then adjacency[device] else {}) + {link}]
  }

  function Detach(adjacency: map<Id, set<Id>>, device: Id, link: Id): map<Id, set<Id>> {
    var rest := (if device in adjacency then adjacency[device] else {}) - {link};
    if rest == {} then adjacency - {device} else adjacency[device := rest]
  }

  function IndexEndpoints(adjacency: map<Id, set<Id>>, l: Link): map<Id, set<Id>> {
    Attach(Attach(adjacency, l.source, l.id), l.target, l.id)
  }

  function UnindexEndpoints(adjacency: map<Id, set<Id>>, l: Link): map<Id, set<Id>> {
    Detach(Detach(adjacency, l.source, l.id), l.target, l.id)
  }

  /** The bucket of a device is exactly its incident links, and there are no empty buckets. */
  ghost predicate AdjacencyExact(links: map<Id, Link>, adjacency: map<Id, set<Id>>) {
    forall d: Id :: (d in adjacency <==> IncidentLinks(links, d) != {})
                    && (d in adjacency ==> adjacency[d] == IncidentLinks(links, d))
  }

  function Bucket(adjacency: map<Id, set<Id>>, device: Id): set<Id> {
    if device in adjacency then adjacency[device] else {}
  }

  /** Exactness in terms of `Bucket`: convenient for one device at a time. */
  lemma ExactBuckets(links: map<Id, Link>, adjacency: map<Id, set<Id>>)
    ensures AdjacencyExact(links, adjacency)
            <==> (forall d: Id :: Bucket(adjacency, d) == IncidentLinks(links, d)) && {} !in adjacency.Values
  {
    if AdjacencyExact(links, adjacency) {
      forall d: Id ensures Bucket(adjacency, d) == IncidentLinks(links, d) { assert d in adjacency || d !in adjacency; }
    } else if (forall d: Id :: Bucket(adjacency, d) == IncidentLinks(links, d)) && {} !in adjacency.Values {
      forall d: Id
        ensures d in adjacency <==> IncidentLinks(links, d) != {}
        ensures d in adjacency ==> adjacency[d] == IncidentLinks(links, d)
      {
        assert Bucket(adjacency, d) == IncidentLinks(links, d);
        if d in adjacency { assert adjacency[d] in adjacency.Values; }
      }
      assert false;
    }
  }

  // ----- operations -----

  function DeviceTable(s: Store): Table<Device, string> {
    Table(s.devicesByID, s.devicesBySysName)
  }

  function LinkTable(s: Store): Table<Link, EndpointPair> {
    Table(s.linksByID, s.linksByEndpoint)
  }

  function UpsertDevice(s: Store, d: Device): Store {
    var t := Upsert(DeviceTable(s), SysNameKey, d.id, d);
    s.(devicesByID := t.rows, devicesBySysName := t.index, devicesDirty := true)
  }

  function DeleteDevice(s: Store, id: Id): Store {
    if id !in s.devicesByID then s else
      var t := Delete(DeviceTable(s), SysNameKey, id);
      s.(devicesByID := t.rows, devicesBySysName := t.index, devicesDirty := true)
  }

  function UpsertLink(s: Store, l: Link): Store {
    var t := Upsert(LinkTable(s), EndpointKey, l.id, l);
    var bare := if l.id in s.linksByID then UnindexEndpoints(s.linksByDevice, s.linksByID[l.id]) else s.linksByDevice;
    s.(linksByID := t.rows, linksByEndpoint := t.index, linksByDevice := IndexEndpoints(bare, l), linksDirty := true)
  }

  function DeleteLink(s: Store, id: Id): Store {
    if id !in s.linksByID then s else
      var t := Delete(LinkTable(s), EndpointKey, id);
      s.(linksByID := t.rows, linksByEndpoint := t.index,
         linksByDevice := UnindexEndpoints(s.linksByDevice, s.linksByID[id]), linksDirty := true)
  }

  function ChangeDevice(s: Store, id: Id, to: Option<Device>): Store {
    match to
    case None => DeleteDevice(s, id)
    case Some(d) => UpsertDevice(s, d)
  }

  function ChangeLink(s: Store, id: Id, to: Option<Link>): Store {
    match to
    case None => DeleteLink(s, id)
    case Some(l) => UpsertLink(s, l)
  }

  function LoadAdjacency(list: seq<Link>): map<Id, set<Id>> {
    if list == [] then map[] else IndexEndpoints(LoadAdjacency(list[..|list| - 1]), list[|list| - 1])
  }

  /** A full reload: everything is rebuilt from the two snapshots, which become the lists. */
  function Reload(devices: seq<Device>, links: seq<Link>): Store {
    var d := Load(devices, SysNameKey, DeviceId);
    var l := Load(links, EndpointKey, LinkId);
    Store(d.rows, d.index, l.rows, l.index, LoadAdjacency(links), devices, links, false, false)
  }

  // ----- invariant -----

  /** What holds of the resident contents after any history: indexes never lie, adjacency is exact,
      and a list that is not marked dirty holds every row once and nothing else. */
  ghost predicate Consistent(s: Store) {
    && WellKeyed(s.devicesByID, DeviceId) && WellKeyed(s.linksByID, LinkId)
    && Sound(DeviceTable(s), SysNameKey) && Sound(LinkTable(s), EndpointKey)
    && AdjacencyExact(s.linksByID, s.linksByDevice)
    && (!s.devicesDirty ==> Lists(s.devices, s.devicesByID, DeviceId))
    && (!s.linksDirty ==> Lists(s.links, s.linksByID, LinkId))
  }

  lemma DeviceChangeKeepsConsistent(s: Store, id: Id, to: Option<Device>)
    requires Consistent(s) && (to.Some? ==> to.value.id == id)
    ensures Consistent(ChangeDevice(s, id, to))
    ensures DeviceTable(ChangeDevice(s, id, to)) == Change(DeviceTable(s), SysNameKey, id, to)
    ensures LinkTable(ChangeDevice(s, id, to)) == LinkTable(s)
  {
    ChangeKeepsSound(DeviceTable(s), SysNameKey, id, to);
  }

  lemma NoEmptyBuckets(adjacency: map<Id, set<Id>>, device: Id, link: Id)
    requires {} !in adjacency.Values
    ensures {} !in Detach(adjacency, device, link).Values && {} !in Attach(adjacency, device, link).Values
  {
  }

  /** Removing a resident link, self-loop or not, leaves the adjacency of the remaining links. */
  lemma UnindexIsExact(links: map<Id, Link>, adjacency: map<Id, set<Id>>, id: Id)
    requires AdjacencyExact(links, adjacency) && WellKeyed(links, LinkId) && id in links
    ensures AdjacencyExact(links - {id}, UnindexEndpoints(adjacency, links[id]))
  {
    var l := links[id];
    ExactBuckets(links, adjacency);
    var half := Detach(adjacency, l.source, l.id);
    NoEmptyBuckets(adjacency, l.source, l.id);
    NoEmptyBuckets(half, l.target, l.id);
    forall d: Id
      ensures Bucket(UnindexEndpoints(adjacency, l), d) == IncidentLinks(links - {id}, d)
    {
      assert Bucket(adjacency, d) == IncidentLinks(links, d);
    }
    ExactBuckets(links - {id}, UnindexEndpoints(adjacency, l));
  }

  /** Entering a new link extends the adjacency exactly. */
  lemma IndexIsExact(links: map<Id, Link>, adjacency: map<Id, set<Id>>, l: Link)
    requires AdjacencyExact(links, adjacency) && l.id !in links
    ensures AdjacencyExact(links[l.id := l], IndexEndpoints(adjacency, l))
  {
    ExactBuckets(links, adjacency);
    var half := Attach(adjacency, l.source, l.id);
    NoEmptyBuckets(adjacency, l.source, l.id);
    NoEmptyBuckets(half, l.target, l.id);
    forall d: Id
      ensures Bucket(IndexEndpoints(adjacency, l), d) == IncidentLinks(links[l.id := l], d)
    {
      assert Bucket(adjacency, d) == IncidentLinks(links, d);
    }
    ExactBuckets(links[l.id := l], IndexEndpoints(adjacency, l));
  }

  lemma LinkChangeIsExact(s: Store, id: Id, to: Option<Link>)
    requires AdjacencyExact(s.linksByID, s.linksByDevice) && WellKeyed(s.linksByID, LinkId)
    requires to.Some? ==> to.value.id == id
    ensures AdjacencyExact(ChangeLink(s, id, to).linksByID, ChangeLink(s, id, to).linksByDevice)
  {
    if id in s.linksByID {
      UnindexIsExact(s.linksByID, s.linksByDevice, id);
      if to.Some? {
        IndexIsExact(s.linksByID - {id}, UnindexEndpoints(s.linksByDevice, s.linksByID[id]), to.value);
        assert (s.linksByID - {id})[id := to.value] == s.linksByID[id := to.value];
      }
    } else if to.Some? {
      IndexIsExact(s.linksByID, s.linksByDevice, to.value);
    }
  }

  lemma LinkChangeIsTableChange(s: Store, id: Id, to: Option<Link>)
    requires to.Some? ==> to.value.id == id
    ensures LinkTable(ChangeLink(s, id, to)) == Change(LinkTable(s), EndpointKey, id, to)
    ensures DeviceTable(ChangeLink(s, id, to)) == DeviceTable(s)
  {
  }

  lemma LinkChangeKeepsConsistent(s: Store, id: Id, to: Option<Link>)
    requires Consistent(s) && (to.Some? ==> to.value.id == id)
    ensures Consistent(ChangeLink(s, id, to))
  {
    var after := ChangeLink(s, id, to);
    LinkChangeIsTableChange(s, id, to);
    assert Sound(LinkTable(after), EndpointKey) by { ChangeKeepsSound(LinkTable(s), EndpointKey, id, to); }
    assert AdjacencyExact(after.linksByID, after.linksByDevice) by { LinkChangeIsExact(s, id, to); }
    assert WellKeyed(after.linksByID, LinkId);
  }

  lemma {:induction false} LoadAdjacencyIsExact(list: seq<Link>)
    requires DistinctIds(list, LinkId)
    ensures AdjacencyExact(Load(list, EndpointKey, LinkId).rows, LoadAdjacency(list))
  {
    if list != [] {
      var n := |list| - 1;
      LoadAdjacencyIsExact(list[..n]);
      LoadBuildsTable(list[..n], EndpointKey, LinkId);
      var before := Load(list[..n], EndpointKey, LinkId).rows;
      assert list[n].id !in before;
      IndexIsExact(before, LoadAdjacency(list[..n]), list[n]);
    }
  }

  /** A reload from snapshots with unique ids is consistent, complete in both indexes, and lists
      exactly the snapshots. */
  lemma ReloadIsConsistent(devices: seq<Device>, links: seq<Link>)
    requires DistinctIds(devices, DeviceId) && DistinctIds(links, LinkId)
    ensures Consistent(Reload(devices, links))
    ensures Complete(DeviceTable(Reload(devices, links)), SysNameKey)
    ensures Complete(LinkTable(Reload(devices, links)), EndpointKey)
  {
    LoadBuildsTable(devices, SysNameKey, DeviceId);
    LoadBuildsTable(links, EndpointKey, LinkId);
    LoadAdjacencyIsExact(links);
  }

  /** A snapshot reloads to exactly the rows it lists. */
  lemma ReloadHoldsSnapshot(devices: seq<Device>, links: seq<Link>, deviceRows: map<Id, Device>,
                            linkRows: map<Id, Link>)
    requires Lists(devices, deviceRows, DeviceId) && WellKeyed(deviceRows, DeviceId)
    requires Lists(links, linkRows, LinkId) && WellKeyed(linkRows, LinkId)
    ensures Reload(devices, links).devicesByID == deviceRows && Reload(devices, links).linksByID == linkRows
  {
    LoadBuildsTable(devices, SysNameKey, DeviceId);
    LoadBuildsTable(links, EndpointKey, LinkId);
    ListingDeterminesRows(devices, deviceRows, Reload(devices, links).devicesByID, DeviceId);
    ListingDeterminesRows(links, linkRows, Reload(devices, links).linksByID, LinkId);
  }

  lemma ListingDeterminesRows<R(!new)>(list: seq<R>, a: map<Id, R>, b: map<Id, R>, idOf: R -> Id)
    requires Lists(list, a, idOf) && WellKeyed(a, idOf) && Lists(list, b, idOf) && WellKeyed(b, idOf)
    ensures a == b
  {
    forall id
      ensures id in a <==> id in b
      ensures id in a ==> a[id] == b[id]
    {
      if id in a { assert a[id] in list; }
      if id in b { assert b[id] in list; }
    }
  }

  // ----- whole batches -----

  function ApplyDevices(s: Store, batch: map<Id, Option<Device>>, order: seq<Id>): Store
    requires forall id :: id in order ==> id in batch
  {
    if order == [] then s
    else
      var last := order[|order| - 1];
      ChangeDevice(ApplyDevices(s, batch, order[..|order| - 1]), last, batch[last])
  }

  function ApplyLinks(s: Store, batch: map<Id, Option<Link>>, order: seq<Id>): Store
    requires forall id :: id in order ==> id in batch
  {
    if order == [] then s
    else
      var last := order[|order| - 1];
      ChangeLink(ApplyLinks(s, batch, order[..|order| - 1]), last, batch[last])
  }

  lemma OneMoreDevice(s: Store, batch: map<Id, Option<Device>>, order: seq<Id>, id: Id)
    requires id in batch && forall x :: x in order ==> x in batch
    ensures ApplyDevices(s, batch, order + [id]) == ChangeDevice(ApplyDevices(s, batch, order), id, batch[id])
  {
    assert (order + [id])[..|order|] == order;
  }

  lemma OneMoreLink(s: Store, batch: map<Id, Option<Link>>, order: seq<Id>, id: Id)
    requires id in batch && forall x :: x in order ==> x in batch
    ensures ApplyLinks(s, batch, order + [id]) == ChangeLink(ApplyLinks(s, batch, order), id, batch[id])
  {
    assert (order + [id])[..|order|] == order;
  }

  ghost predicate RightIds<R>(batch: map<Id, Option<R>>, idOf: R -> Id) {
    forall id :: id in batch && batch[id].Some? ==> idOf(batch[id].value) == id
  }

  /** A device batch keeps the store consistent and acts on the device table only. */
  lemma {:induction false} DeviceBatch(s: Store, batch: map<Id, Option<Device>>, order: seq<Id>)
    requires Consistent(s) && RightIds(batch, DeviceId)
    requires forall id :: id in order ==> id in batch
    ensures Consistent(ApplyDevices(s, batch, order))
    ensures DeviceTable(ApplyDevices(s, batch, order)) == ChangeAll(DeviceTable(s), SysNameKey, batch, order)
    ensures LinkTable(ApplyDevices(s, batch, order)) == LinkTable(s)
  {
    if order != [] {
      var n := |order| - 1;
      DeviceBatch(s, batch, order[..n]);
      DeviceChangeKeepsConsistent(ApplyDevices(s, batch, order[..n]), order[n], batch[order[n]]);
    }
  }

  lemma {:induction false} LinkBatch(s: Store, batch: map<Id, Option<Link>>, order: seq<Id>)
    requires Consistent(s) && RightIds(batch, LinkId)
    requires forall id :: id in order ==> id in batch
    ensures Consistent(ApplyLinks(s, batch, order))
    ensures LinkTable(ApplyLinks(s, batch, order)) == ChangeAll(LinkTable(s), EndpointKey, batch, order)
    ensures DeviceTable(ApplyLinks(s, batch, order)) == DeviceTable(s)
  {
    if order != [] {
      var n := |order| - 1;
      LinkBatch(s, batch, order[..n]);
      LinkChangeKeepsConsistent(ApplyLinks(s, batch, order[..n]), order[n], batch[order[n]]);
      LinkChangeIsTableChange(ApplyLinks(s, batch, order[..n]), order[n], batch[order[n]]);
    }
  }

  /** A device batch leaves every named device findable by sysName, in every iteration order,
      exactly when no changed device gives up a name another device holds afterwards. */
  lemma SysNamesFindableIff(s: Store, batch: map<Id, Option<Device>>)
    requires Consistent(s) && RightIds(batch, DeviceId) && Complete(DeviceTable(s), SysNameKey)
    ensures KeysKeepOwners(s.devicesByID, SysNameKey, batch)
            <==> forall order :: Visits(order, batch.Keys)
                   ==> Complete(DeviceTable(ApplyDevices(s, batch, order)), SysNameKey)
  {
    CompleteInEveryOrderIff(DeviceTable(s), SysNameKey, batch);
    forall order | Visits(order, batch.Keys)
      ensures DeviceTable(ApplyDevices(s, batch, order)) == ChangeAll(DeviceTable(s), SysNameKey, batch, order)
    {
      DeviceBatch(s, batch, order);
    }
  }

  /** The same for links and endpoint pairs. */
  lemma EndpointsFindableIff(s: Store, batch: map<Id, Option<Link>>)
    requires Consistent(s) && RightIds(batch, LinkId) && Complete(LinkTable(s), EndpointKey)
    ensures KeysKeepOwners(s.linksByID, EndpointKey, batch)
            <==> forall order :: Visits(order, batch.Keys)
                   ==> Complete(LinkTable(ApplyLinks(s, batch, order)), EndpointKey)
  {
    CompleteInEveryOrderIff(LinkTable(s), EndpointKey, batch);
    forall order | Visits(order, batch.Keys)
      ensures LinkTable(ApplyLinks(s, batch, order)) == ChangeAll(LinkTable(s), EndpointKey, batch, order)
    {
      LinkBatch(s, batch, order);
    }
  }

  /** Deleting a device and creating another with the same sysName in one batch: in one iteration
      order the new device is resident but its name finds nothing, in the other it is found. */
  lemma ReplacedDeviceCanBeLost(s: Store, leaver: Id, joiner: Device)
    requires Consistent(s) && leaver in s.devicesByID && joiner.id !in s.devicesByID
    requires SysNameKey(joiner).Some? && SysNameKey(s.devicesByID[leaver]) == SysNameKey(joiner)
    ensures var batch := map[leaver := None, joiner.id := Some(joiner)];
            var lost := ApplyDevices(s, batch, [joiner.id, leaver]);
            var kept := ApplyDevices(s, batch, [leaver, joiner.id]);
            && Visits([joiner.id, leaver], batch.Keys) && Visits([leaver, joiner.id], batch.Keys)
            && lost.devicesByID == kept.devicesByID && Look(lost.devicesByID, joiner.id) == Some(joiner)
            && SysNameKey(joiner).value !in lost.devicesBySysName
            && Look(kept.devicesBySysName, SysNameKey(joiner).value) == Some(joiner.id)
  {
    var batch: map<Id, Option<Device>> := map[leaver := None, joiner.id := Some(joiner)];
    HandoverDependsOnOrder(DeviceTable(s), SysNameKey, leaver, joiner.id, joiner);
    DeviceBatch(s, batch, [joiner.id, leaver]);
    DeviceBatch(s, batch, [leaver, joiner.id]);
    RowsOfBatch(DeviceTable(s), SysNameKey, batch, [joiner.id, leaver]);
    RowsOfBatch(DeviceTable(s), SysNameKey, batch, [leaver, joiner.id]);
  }

  // ----- topology of one device -----

  /** Some link of the given set ends at the device. */
  predicate Touches(links: map<Id, Link>, some: set<Id>, device: Id)
    requires some <= links.Keys
  {
    exists l :: l in some && Incident(links[l], device)
  }

  /** The devices a topology answer carries: the device asked for and the endpoints of its links,
      as far as they are resident. */
  function NeighbourhoodDevices(s: Store, device: Id): map<Id, Device> {
    map d | d in s.devicesByID && (d == device || Touches(s.linksByID, IncidentLinks(s.linksByID, device), d))
      :: s.devicesByID[d]
  }

  lemma TouchesOneMore(links: map<Id, Link>, some: set<Id>, more: Id)
    requires some <= links.Keys && more in links
    ensures forall d :: Touches(links, some + {more}, d) <==> Touches(links, some, d) || Incident(links[more], d)
  {
    forall d
      ensures Touches(links, some + {more}, d) <==> Touches(links, some, d) || Incident(links[more], d)
    {
      assert more in some + {more};
    }
  }

  /** Any ascending arrangement of a device's incident links is the sorted list of all links,
      scanned and filtered by incidence. */
  lemma IncidentLinksAreAScan(s: Store, device: Id, all: seq<Link>, some: seq<Link>)
    requires WellKeyed(s.linksByID, LinkId)
    requires Lists(all, s.linksByID, LinkId) && Ascending(all, LinkBefore)
    requires Ascending(some, LinkBefore)
    requires forall l :: l in some <==> l.id in IncidentLinks(s.linksByID, device) && s.linksByID[l.id] == l
    ensures some == Filter(all, l => Incident(l, device))
  {
    ListOrdersAreStrict();
    FilterKeepsOrder(all, l => Incident(l, device), LinkBefore);
    AscendingIsUnique(some, Filter(all, l => Incident(l, device)), LinkBefore);
  }
}
