/** The cache object: the fields of `DeviceLinkCache` that hold resident data, and the methods
    that run while the mutex is held. Each method is proved against the value operations of
    `CacheStore`; who may run them when is the subject of `CacheProtocol`. */
module ResidentCache {
  import opened Basics
  import opened KeyIndex
  import opened Sorting
  import opened CacheStore
  import opened CacheNames
  import opened ChangeFeed

  class DeviceLinkCache {
    var devicesByID: map<Id, Device>
    var devicesBySysName: map<string, Id>
    var linksByID: map<Id, Link>
    var linksByEndpoint: map<EndpointPair, Id>
    var linksByDevice: map<Id, set<Id>>
    var devices: seq<Device>
    var links: seq<Link>
    var devicesDirty: bool
    var linksDirty: bool
    var loaded: bool
    var needsFullReload: bool

    ghost function Contents(): Store
      reads this
    {
      Store(devicesByID, devicesBySysName, linksByID, linksByEndpoint, linksByDevice, devices, links, devicesDirty,
        linksDirty)
    }

    constructor ()
      ensures Contents() == EMPTY && Consistent(Contents()) && !loaded && needsFullReload
    {
      devicesByID, devicesBySysName := map[], map[];
      linksByID, linksByEndpoint, linksByDevice := map[], map[], map[];
      devices, links, devicesDirty, linksDirty := [], [], true, true;
      loaded, needsFullReload := false, true;
    }

    // ----- index maintenance -----

    method IndexLinkEndpoints(link: Link)
      modifies this`linksByDevice
      ensures linksByDevice == IndexEndpoints(old(linksByDevice), link)
    {
      var endpoints := [link.source, link.target];
      for i := 0 to 2
        invariant linksByDevice == match i
                                   case 0 => old(linksByDevice)
                                   case 1 => Attach(old(linksByDevice), link.source, link.id)
                                   case _ => IndexEndpoints(old(linksByDevice), link)
      {
        var id := endpoints[i];
        if id !in linksByDevice {
          linksByDevice := linksByDevice[id := {}];
        }
        linksByDevice := linksByDevice[id := linksByDevice[id] + {link.id}];
      }
    }

    method UnindexLinkEndpoints(link: Link)
      modifies this`linksByDevice
      ensures linksByDevice == UnindexEndpoints(old(linksByDevice), link)
    {
      var endpoints := [link.source, link.target];
      for i := 0 to 2
        invariant linksByDevice == match i
                                   case 0 => old(linksByDevice)
                                   case 1 => Detach(old(linksByDevice), link.source, link.id)
                                   case _ => UnindexEndpoints(old(linksByDevice), link)
      {
        var id := endpoints[i];
        if id in linksByDevice {
          linksByDevice := linksByDevice[id := linksByDevice[id] - {link.id}];
        }
        if id !in linksByDevice || linksByDevice[id] == {} {
          linksByDevice := linksByDevice - {id};
        }
      }
    }

    method UpsertDeviceLocked(device: Device)
      modifies this`devicesByID, this`devicesBySysName, this`devicesDirty
      ensures Contents() == UpsertDevice(old(Contents()), device)
    {
      if device.id in devicesByID {
        var before := NormalizeSysName(devicesByID[device.id].sysName);
        if before != "" { devicesBySysName := devicesBySysName - {before}; }
      }
      devicesByID := devicesByID[device.id := device];
      var name := NormalizeSysName(device.sysName);
      if name != "" { devicesBySysName := devicesBySysName[name := device.id]; }
      devicesDirty := true;
    }

    method DeleteDeviceLocked(id: Id)
      modifies this`devicesByID, this`devicesBySysName, this`devicesDirty
      ensures Contents() == DeleteDevice(old(Contents()), id)
    {
      if id !in devicesByID { return; }
      var name := NormalizeSysName(devicesByID[id].sysName);
      devicesByID := devicesByID - {id};
      if name != "" { devicesBySysName := devicesBySysName - {name}; }
      devicesDirty := true;
    }

    method UpsertLinkLocked(link: Link)
      modifies this`linksByID, this`linksByEndpoint, this`linksByDevice, this`linksDirty
      ensures Contents() == UpsertLink(old(Contents()), link)
    {
      if link.id in linksByID {
        var existing := linksByID[link.id];
        UnindexLinkEndpoints(existing);
        linksByEndpoint := linksByEndpoint - {EndpointKey(existing).value};
      }
      linksByID := linksByID[link.id := link];
      linksByEndpoint := linksByEndpoint[EndpointKey(link).value := link.id];
      IndexLinkEndpoints(link);
      linksDirty := true;
    }

    method DeleteLinkLocked(id: Id)
      modifies this`linksByID, this`linksByEndpoint, this`linksByDevice, this`linksDirty
      ensures Contents() == DeleteLink(old(Contents()), id)
    {
      if id !in linksByID { return; }
      var existing := linksByID[id];
      UnindexLinkEndpoints(existing);
      linksByID := linksByID - {id};
      linksByEndpoint := linksByEndpoint - {EndpointKey(existing).value};
      linksDirty := true;
    }

    // ----- refreshing -----

    /** The device half of applying a batch, in whatever order Go iterates over it. */
    method ApplyDeviceBatch(batch: map<Id, ChangeKind>, rows: map<Id, Device>) returns (ghost order: seq<Id>)
      requires WellKeyed(rows, DeviceId)
      modifies this`devicesByID, this`devicesBySysName, this`devicesDirty
      ensures Visits(order, Actions(batch, rows).Keys)
      ensures Contents() == ApplyDevices(old(Contents()), Actions(batch, rows), order)
    {
      ghost var actions := Actions(batch, rows);
      order := [];
      var left := batch.Keys;
      while left != {}
        invariant left <= batch.Keys && NoDuplicates(order)
        invariant forall id :: id in order <==> id in actions && id !in left
        invariant Contents() == ApplyDevices(old(Contents()), actions, order)
        decreases left
      {
        var id :| id in left;
        left := left - {id};
        if batch[id] == Deleted {
          OneMoreDevice(old(Contents()), actions, order, id);
          DeleteDeviceLocked(id);
          order := order + [id];
        } else if id in rows {
          OneMoreDevice(old(Contents()), actions, order, id);
          UpsertDeviceLocked(rows[id]);
          order := order + [id];
        }
      }
    }

    /** The link half. */
    method ApplyLinkBatch(batch: map<Id, ChangeKind>, rows: map<Id, Link>) returns (ghost order: seq<Id>)
      requires WellKeyed(rows, LinkId)
      modifies this`linksByID, this`linksByEndpoint, this`linksByDevice, this`linksDirty
      ensures Visits(order, Actions(batch, rows).Keys)
      ensures Contents() == ApplyLinks(old(Contents()), Actions(batch, rows), order)
    {
      ghost var actions := Actions(batch, rows);
      order := [];
      var left := batch.Keys;
      while left != {}
        invariant left <= batch.Keys && NoDuplicates(order)
        invariant forall id :: id in order <==> id in actions && id !in left
        invariant Contents() == ApplyLinks(old(Contents()), actions, order)
        decreases left
      {
        var id :| id in left;
        left := left - {id};
        if batch[id] == Deleted {
          OneMoreLink(old(Contents()), actions, order, id);
          DeleteLinkLocked(id);
          order := order + [id];
        } else if id in rows {
          OneMoreLink(old(Contents()), actions, order, id);
          UpsertLinkLocked(rows[id]);
          order := order + [id];
        }
      }
    }

    method InstallDevices(snapshot: seq<Device>)
      modifies this`devicesByID, this`devicesBySysName
      ensures DeviceTable(Contents()) == Load(snapshot, SysNameKey, DeviceId)
    {
      devicesByID, devicesBySysName := map[], map[];
      for i := 0 to |snapshot|
        invariant Table(devicesByID, devicesBySysName) == Load(snapshot[..i], SysNameKey, DeviceId)
      {
        var device := snapshot[i];
        devicesByID := devicesByID[device.id := device];
        var name := NormalizeSysName(device.sysName);
        if name != "" { devicesBySysName := devicesBySysName[name := device.id]; }
        assert snapshot[..i + 1][..i] == snapshot[..i];
      }
      assert snapshot[..|snapshot|] == snapshot;
    }

    method InstallLinks(snapshot: seq<Link>)
      modifies this`linksByID, this`linksByEndpoint, this`linksByDevice
      ensures LinkTable(Contents()) == Load(snapshot, EndpointKey, LinkId) && linksByDevice == LoadAdjacency(snapshot)
    {
      linksByDevice, linksByID, linksByEndpoint := map[], map[], map[];
      for i := 0 to |snapshot|
        invariant Table(linksByID, linksByEndpoint) == Load(snapshot[..i], EndpointKey, LinkId)
        invariant linksByDevice == LoadAdjacency(snapshot[..i])
      {
        var link := snapshot[i];
        linksByID := linksByID[link.id := link];
        linksByEndpoint := linksByEndpoint[EndpointKey(link).value := link.id];
        IndexLinkEndpoints(link);
        assert snapshot[..i + 1][..i] == snapshot[..i];
      }
      assert snapshot[..|snapshot|] == snapshot;
    }

    /** Installs two snapshots in place of everything resident. */
    method Install(snapshotDevices: seq<Device>, snapshotLinks: seq<Link>)
      modifies this
      ensures Contents() == Reload(snapshotDevices, snapshotLinks) && loaded && !needsFullReload
    {
      InstallDevices(snapshotDevices);
      InstallLinks(snapshotLinks);
      devices, links := snapshotDevices, snapshotLinks;
      devicesDirty, linksDirty := false, false;
      loaded, needsFullReload := true, false;
    }

    // ----- getters, after preparation -----

    method GetDevices() returns (list: seq<Device>)
      requires Consistent(Contents())
      modifies this`devices, this`devicesDirty
      ensures Contents() == old(Contents()).(devices := list, devicesDirty := false) && Consistent(Contents())
      ensures Lists(list, devicesByID, DeviceId)
      ensures if old(devicesDirty) then Ascending(list, DeviceBefore) && ByHostname(list) else list == old(devices)
    {
      if devicesDirty {
        devices := BuildSorted(devicesByID, DeviceId, DeviceBefore) by { ListOrdersAreStrict(); }
        devicesDirty := false;
        AscendingByHostname(devices);
      }
      list := devices;
    }

    method GetLinks() returns (list: seq<Link>)
      requires Consistent(Contents())
      modifies this`links, this`linksDirty
      ensures Contents() == old(Contents()).(links := list, linksDirty := false) && Consistent(Contents())
      ensures Lists(list, linksByID, LinkId)
      ensures if old(linksDirty) then Ascending(list, LinkBefore) && ByCreation(list) else list == old(links)
    {
      if linksDirty {
        links := BuildSorted(linksByID, LinkId, LinkBefore) by { ListOrdersAreStrict(); }
        linksDirty := false;
        AscendingByCreation(links);
      }
      list := links;
    }

    /** A hit is a resident device whose sysName spells the same host; with a complete index a miss
        means that no resident device's does. */
    method GetDeviceBySysName(sysName: string) returns (device: Option<Device>)
      requires Consistent(Contents())
      ensures device.Some? ==> Look(devicesByID, device.value.id) == device && SameHost(device.value.sysName, sysName)
      ensures device.None? && Complete(DeviceTable(Contents()), SysNameKey) ==>
                forall id :: id in devicesByID ==> !SameHost(devicesByID[id].sysName, sysName)
    {
      var name := NormalizeSysName(sysName);
      if name !in devicesBySysName {
        forall id | id in devicesByID && Complete(DeviceTable(Contents()), SysNameKey)
          ensures !SameHost(devicesByID[id].sysName, sysName)
        {
          SameHostIff(devicesByID[id].sysName, sysName);
          assert id in DeviceTable(Contents()).rows;
        }
        return None;
      }
      assert devicesBySysName[name] in DeviceTable(Contents()).rows;
      SameHostIff(devicesByID[devicesBySysName[name]].sysName, sysName);
      return Look(devicesByID, devicesBySysName[name]);
    }

    /** A hit joins the two devices at interfaces of those names, up to case and surrounding space;
        with a complete index a miss means that no resident link does. */
    method GetLinkByEndpointPair(source: Id, sourceIf: string, target: Id, targetIf: string)
      returns (link: Option<Link>)
      requires Consistent(Contents())
      ensures link.Some? ==>
                && Look(linksByID, link.value.id) == link
                && Joins(link.value, source, sourceIf, target, targetIf)
      ensures link.None? && Complete(LinkTable(Contents()), EndpointKey) ==>
                forall id :: id in linksByID ==> !Joins(linksByID[id], source, sourceIf, target, targetIf)
    {
      var pair := MakeEndpointPair(source, sourceIf, target, targetIf);
      if pair !in linksByEndpoint {
        forall id | id in linksByID && Complete(LinkTable(Contents()), EndpointKey)
          ensures !Joins(linksByID[id], source, sourceIf, target, targetIf)
        {
          SamePairIff(linksByID[id], source, sourceIf, target, targetIf);
          assert id in LinkTable(Contents()).rows;
        }
        return None;
      }
      assert linksByEndpoint[pair] in LinkTable(Contents()).rows;
      SamePairIff(linksByID[linksByEndpoint[pair]], source, sourceIf, target, targetIf);
      return Look(linksByID, linksByEndpoint[pair]);
    }

    /** The incident links in list order and the resident devices at their ends. */
    method GetDeviceTopology(id: Id) returns (found: map<Id, Device>, incident: seq<Link>)
      requires Consistent(Contents())
      ensures forall d :: d in found <==> d in devicesByID && (d == id || exists l ::
                l in linksByID && (linksByID[l].source == id || linksByID[l].target == id)
                && (linksByID[l].source == d || linksByID[l].target == d))
      ensures forall d :: d in found ==> found[d] == devicesByID[d]
      ensures forall all :: Lists(all, linksByID, LinkId) && Ascending(all, LinkBefore)
                            ==> incident == Filter(all, l => Incident(l, id))
      ensures Ascending(incident, LinkBefore)
      ensures forall l :: l in incident <==> l.id in IncidentLinks(linksByID, id) && linksByID[l.id] == l
    {
      ExactBuckets(linksByID, linksByDevice);
      assert Bucket(linksByDevice, id) == IncidentLinks(linksByID, id);
      var unsorted;
      found, unsorted := WalkBucket(devicesByID, linksByID, id, Bucket(linksByDevice, id));
      assert found.Keys == NeighbourhoodDevices(Contents(), id).Keys;
      ListOrdersAreStrict();
      incident := SortSlice(unsorted, LinkBefore);
      assert forall l :: l in incident <==> l in unsorted;
      forall all | Lists(all, linksByID, LinkId) && Ascending(all, LinkBefore)
        ensures incident == Filter(all, l => Incident(l, id))
      {
        IncidentLinksAreAScan(Contents(), id, all, incident);
      }
    }
  }

  /** Collects the links of one bucket, and the resident devices among `id` and their endpoints. */
  method WalkBucket(devices: map<Id, Device>, links: map<Id, Link>, id: Id, bucket: set<Id>)
    returns (found: map<Id, Device>, incident: seq<Link>)
    requires bucket <= links.Keys && WellKeyed(links, LinkId)
    ensures forall d :: d in found <==> d in devices && (d == id || Touches(links, bucket, d))
    ensures forall d :: d in found ==> found[d] == devices[d]
    ensures DistinctIds(incident, LinkId)
    ensures forall l :: l in incident <==> l.id in bucket && links[l.id] == l
  {
    found := map[];
    if id in devices { found := found[id := devices[id]]; }
    incident := [];
    var left := bucket;
    while left != {}
      invariant left <= bucket && DistinctIds(incident, LinkId)
      invariant forall l :: l in incident <==> l.id in bucket - left && links[l.id] == l
      invariant forall d :: d in found <==> d in devices && (d == id || Touches(links, bucket - left, d))
      invariant forall d :: d in found ==> found[d] == devices[d]
      decreases left
    {
      var linkID :| linkID in left;
      var link := links[linkID];
      TouchesOneMore(links, bucket - left, linkID);
      assert bucket - (left - {linkID}) == (bucket - left) + {linkID};
      left := left - {linkID};
      incident := incident + [link];
      if link.source in devices { found := found[link.source := devices[link.source]]; }
      if link.target in devices { found := found[link.target := devices[link.target]]; }
    }
    assert bucket - left == bucket;
  }

  /** Collects the rows of a table and sorts them. */
  method BuildSorted<R(!new)>(rows: map<Id, R>, idOf: R -> Id, less: (R, R) -> bool) returns (list: seq<R>)
    requires WellKeyed(rows, idOf) && StrictOrder(less)
    requires forall a: R, b: R :: idOf(a) != idOf(b) ==> less(a, b) || less(b, a)
    ensures Lists(list, rows, idOf) && Ascending(list, less)
  {
    var unsorted: seq<R> := [];
    var left := rows.Keys;
    while left != {}
      invariant left <= rows.Keys && DistinctIds(unsorted, idOf)
      invariant forall row :: row in unsorted <==> idOf(row) in rows.Keys - left && rows[idOf(row)] == row
      decreases left
    {
      var id :| id in left;
      left := left - {id};
      unsorted := unsorted + [rows[id]];
    }
    list := SortSlice(unsorted, less);
    forall i, j | 0 <= i < j < |list|
      ensures idOf(list[i]) != idOf(list[j])
    {
      assert list[i] in unsorted && list[j] in unsorted;
      assert less(list[i], list[j]);
    }
  }
}
