/** Coherence of the cache with the committed rows, in every interleaving of writers, one
    refresher and readers. */
module CacheCoherence {
  import opened Basics
  import opened KeyIndex
  import opened CacheStore
  import opened ChangeFeed
  import opened CacheProtocol
  import opened CacheControl

  // ----- what is known -----

  /** The work a position carries. */
  function WorkOf(pc: Pc): Work {
    if pc.DrainingDevices? || pc.DrainingLinks? || pc.Fetching? || pc.Fetched? || pc.Applying? then pc.work else NO_WORK
  }

  /** With events there is no invalidation signal; without them nothing is queued or lost. */
  predicate ModeOk(s: State) {
    if s.incremental then !s.invalidated
    else !s.devices.repair && !s.links.repair && s.devices.queue == [] && s.links.queue == []
  }

  /** Drained deletions are of retired rows, and rows read in this window are committed rows or
      outdated by an event still on its way (or, without events, by the invalidation signal). */
  ghost predicate TableWorkOk<R>(src: Source<R>, batch: map<Id, ChangeKind>, got: map<Id, R>, idOf: R -> Id,
                                 stale: bool) {
    && (forall id :: id in batch && batch[id] == Deleted ==> id in src.retired)
    && WellKeyed(got, idOf)
    && (stale || forall id :: id in got ==> Agrees(src, got, id))
  }

  /** A snapshot read in this window is the committed table up to events still on their way. */
  ghost predicate SnapshotOk<R(!new), K>(src: Source<R>, list: seq<R>, key: R -> Option<K>, idOf: R -> Id,
                                         stale: bool) {
    DistinctIds(list, idOf) && (stale || forall id :: Agrees(src, Load(list, key, idOf).rows, id))
  }

  ghost predicate PcOk(devices: Source<Device>, links: Source<Link>, pc: Pc, stale: bool) {
    && TableWorkOk(devices, WorkOf(pc).devices, WorkOf(pc).gotDevices, DeviceId, stale)
    && TableWorkOk(links, WorkOf(pc).links, WorkOf(pc).gotLinks, LinkId, stale)
    && (Deciding(pc) ==> WorkOf(pc).gotDevices == map[] && WorkOf(pc).gotLinks == map[])
    && (pc.Snapshotting? && pc.read.Some? ==> SnapshotOk(devices, pc.read.value, SysNameKey, DeviceId, stale))
    && (pc.Snapshotted? && pc.outcome.Fine? ==>
          SnapshotOk(devices, pc.allDevices, SysNameKey, DeviceId, stale)
            && SnapshotOk(links, pc.allLinks, EndpointKey, LinkId, stale))
  }

  ghost predicate FeedOk(s: State) {
    && ModeOk(s) && Orderly(s.devices, DeviceId) && Orderly(s.links, LinkId)
    && (forall t: Thread :: PcOk(s.devices, s.links, At(s, t), s.invalidated))
  }

  /** A full reload is owed before the next answer of a refreshing call. */
  predicate Owed(s: State) {
    !s.cache.loaded || s.cache.needsFullReload || s.invalidated
  }

  ghost predicate DeviceInFlight(s: State, id: Id) {
    exists t: Thread :: id in WorkOf(At(s, t)).devices
  }

  ghost predicate LinkInFlight(s: State, id: Id) {
    exists t: Thread :: id in WorkOf(At(s, t)).links
  }

  /** Every resident row is the committed row, unless an event about it is unannounced, queued or
      drained, or a repair or full reload is owed. */
  ghost predicate Coherent(s: State) {
    || Owed(s)
    || ((forall id :: Agrees(s.devices, s.cache.store.devicesByID, id) || DeviceInFlight(s, id))
        && (forall id :: Agrees(s.links, s.cache.store.linksByID, id) || LinkInFlight(s, id)))
  }

  ghost predicate Knowledge(s: State) {
    FeedOk(s) && Coherent(s) && Consistent(s.cache.store)
  }

  lemma InitKnowledge(s: State)
    requires Init(s)
    ensures Knowledge(s)
  {
    assert forall d: Id :: IncidentLinks(map[], d) == {};
  }

  // ----- steps that leave feeds and rows alone -----

  ghost predicate OthersStay(s: State, after: State, t: Thread) {
    forall u: Thread :: u != t ==> At(after, u) == At(s, u)
  }

  /** The step only moves one thread to a position that is in order and, unless a reload is owed,
      still carries the work it had. */
  ghost predicate Harmless(s: State, after: State, t: Thread) {
    && after.devices == s.devices && after.links == s.links && Resident(after) == Resident(s)
    && after.incremental == s.incremental && after.invalidated == s.invalidated
    && (Owed(s) ==> Owed(after))
    && PcOk(s.devices, s.links, At(after, t), after.invalidated)
    && (Owed(after) || (WorkOf(At(s, t)).devices.Keys <= WorkOf(At(after, t)).devices.Keys
                        && WorkOf(At(s, t)).links.Keys <= WorkOf(At(after, t)).links.Keys))
  }

  lemma HarmlessKeeps(s: State, after: State, t: Thread)
    requires FeedOk(s) && Coherent(s) && OthersStay(s, after, t) && Harmless(s, after, t)
    ensures FeedOk(after) && Coherent(after)
  {
    if !Owed(after) {
      forall id | DeviceInFlight(s, id)
        ensures DeviceInFlight(after, id)
      {
        var u: Thread :| id in WorkOf(At(s, u)).devices;
        assert id in WorkOf(At(after, u)).devices;
      }
      forall id | LinkInFlight(s, id)
        ensures LinkInFlight(after, id)
      {
        var u: Thread :| id in WorkOf(At(s, u)).links;
        assert id in WorkOf(At(after, u)).links;
      }
    }
  }

  /** A position without work or snapshot is always in order. */
  lemma IdlePositionsAreOk(devices: Source<Device>, links: Source<Link>, pc: Pc, stale: bool)
    requires WorkOf(pc) == NO_WORK && !pc.Snapshotted? && (pc.Snapshotting? ==> pc.read.None?)
    ensures PcOk(devices, links, pc, stale)
  {
  }

  lemma StopDrainingIsHarmless(s: State, t: Thread, d: Drain)
    requires PcOk(s.devices, s.links, At(s, t), s.invalidated) && CanDrain(s, t, d) && !d.TakeDevice? && !d.TakeLink?
    ensures Harmless(s, DoDrain(s, t, d), t) && DoDrain(s, t, d).cache.store == s.cache.store
  {
    var after := DoDrain(s, t, d);
    assert WorkOf(At(after, t)) == WorkOf(At(s, t));
  }

  lemma ReadRowIsOk<R>(src: Source<R>, batch: map<Id, ChangeKind>, got: map<Id, R>, idOf: R -> Id, stale: bool, id: Id)
    requires Orderly(src, idOf) && TableWorkOk(src, batch, got, idOf, stale) && id in src.rows
    ensures TableWorkOk(src, batch, got[id := src.rows[id]], idOf, stale)
  {
    var more := got[id := src.rows[id]];
    forall x | !stale && x in more
      ensures Agrees(src, more, x)
    {
      if x != id { assert Agrees(src, got, x); }
    }
  }

  /** Reading goes on, or ends, with the work in order. */
  lemma GotoIsHarmless(s: State, t: Thread, pc: Pc)
    requires At(s, t).Fetching? && (pc.Fetching? || pc.Fetched?)
    requires pc.work.devices == At(s, t).work.devices && pc.work.links == At(s, t).work.links
    requires TableWorkOk(s.devices, pc.work.devices, pc.work.gotDevices, DeviceId, s.invalidated)
    requires TableWorkOk(s.links, pc.work.links, pc.work.gotLinks, LinkId, s.invalidated)
    ensures Harmless(s, Goto(s, t, pc), t)
  {
  }

  lemma ReadIsHarmless(s: State, t: Thread, r: Read)
    requires Orderly(s.devices, DeviceId) && Orderly(s.links, LinkId)
    requires PcOk(s.devices, s.links, At(s, t), s.invalidated) && CanRead(s, t, r) && !r.RelockChanges?
    ensures Harmless(s, DoRead(s, t, r), t) && DoRead(s, t, r).cache.store == s.cache.store
  {
    var work, pc := At(s, t).work, At(DoRead(s, t, r), t);
    if r.ReadDevice? && r.id in s.devices.rows {
      ReadRowIsOk(s.devices, work.devices, work.gotDevices, DeviceId, s.invalidated, r.id);
    }
    if r.ReadLink? && r.id in s.links.rows {
      ReadRowIsOk(s.links, work.links, work.gotLinks, LinkId, s.invalidated, r.id);
    }
    assert DoRead(s, t, r) == Goto(s, t, pc);
    GotoIsHarmless(s, t, pc);
  }

  /** With the changed rows read, the window goes on; otherwise a full reload is owed. */
  lemma RelockChangesIsHarmless(s: State, t: Thread)
    requires PcOk(s.devices, s.links, At(s, t), s.invalidated) && CanRead(s, t, RelockChanges)
    ensures Harmless(s, DoRead(s, t, RelockChanges), t) && DoRead(s, t, RelockChanges).cache.store == s.cache.store
  {
    var after := DoRead(s, t, RelockChanges);
    if At(s, t).outcome.Fine? {
      assert WorkOf(At(after, t)) == WorkOf(At(s, t));
    } else {
      IdlePositionsAreOk(s.devices, s.links, At(after, t), s.invalidated);
    }
  }

  /** A complete read is a snapshot of the committed rows. */
  lemma ReadAllIsOk<R(!new), K(!new)>(src: Source<R>, list: seq<R>, key: R -> Option<K>, idOf: R -> Id)
    requires Orderly(src, idOf) && Lists(list, src.rows, idOf)
    ensures forall stale :: SnapshotOk(src, list, key, idOf, stale)
  {
    LoadBuildsTable(list, key, idOf);
    ListingDeterminesRows(list, src.rows, Load(list, key, idOf).rows, idOf);
  }

  lemma SnapshotIsHarmless(s: State, t: Thread, f: Full)
    requires Orderly(s.devices, DeviceId) && Orderly(s.links, LinkId)
    requires PcOk(s.devices, s.links, At(s, t), s.invalidated) && CanReload(s, t, f) && !f.RelockSnapshot?
    ensures Harmless(s, DoReload(s, t, f), t) && DoReload(s, t, f).cache.store == s.cache.store
  {
    if f.ReadAllDevices? { ReadAllIsOk(s.devices, f.deviceRows, SysNameKey, DeviceId); }
    if f.ReadAllLinks? { ReadAllIsOk(s.links, f.linkRows, EndpointKey, LinkId); }
  }

  /** Failing to read everything keeps what is owed. */
  lemma FailedSnapshotIsHarmless(s: State, t: Thread)
    requires At(s, t).Snapshotted? && !At(s, t).outcome.Fine?
    ensures Harmless(s, DoRelockSnapshot(s, t, At(s, t)), t)
    ensures DoRelockSnapshot(s, t, At(s, t)).cache.store == s.cache.store
  {
  }

  lemma FinishIsHarmless(s: State, t: Thread)
    requires CanMerge(s, t, FinishApply)
    ensures Harmless(s, DoMerge(s, t, FinishApply), t) && DoMerge(s, t, FinishApply).cache.store == s.cache.store
  {
  }

  lemma AnswerIsHarmless(s: State, t: Thread, query: Query)
    requires CanAnswer(s, t, query)
    ensures Harmless(s, DoServe(s, t, query), t)
  {
  }

  lemma AnswerKeepsConsistent(s: State, t: Thread, query: Query)
    requires CanAnswer(s, t, query) && Consistent(s.cache.store)
    ensures Consistent(DoServe(s, t, query).cache.store)
  {
  }

  // ----- steps that consume a flag or an event -----

  /** Outside a window a position knows nothing that events could outdate. */
  lemma OutOfWindowOk(s: State, after: State, u: Thread)
    requires PcOk(s.devices, s.links, At(s, u), s.invalidated) && !InWindow(At(s, u)) && At(after, u) == At(s, u)
    requires s.devices.retired <= after.devices.retired && s.links.retired <= after.links.retired
    ensures PcOk(after.devices, after.links, At(after, u), after.invalidated)
  {
  }

  lemma ConsumingKeepsFeed(s: State, after: State, t: Thread)
    requires FeedOk(s) && OthersStay(s, after, t) && (forall u: Thread :: u != t ==> !InWindow(At(s, u)))
    requires s.devices.retired <= after.devices.retired && s.links.retired <= after.links.retired
    requires ModeOk(after) && Orderly(after.devices, DeviceId) && Orderly(after.links, LinkId)
    requires PcOk(after.devices, after.links, At(after, t), after.invalidated)
    ensures FeedOk(after)
  {
    forall u: Thread
      ensures PcOk(after.devices, after.links, At(after, u), after.invalidated)
    {
      if u != t { OutOfWindowOk(s, after, u); }
    }
  }

  lemma NobodyElseInWindow(s: State, t: Thread)
    requires SingleFlight(s) && (!s.cache.refreshing || Deciding(At(s, t)))
    ensures forall u: Thread :: !InWindow(At(s, u))
  {
  }

  /** Nothing is consumed when nothing was raised. */
  lemma PlainPrepareIsHarmless(s: State, t: Thread)
    requires At(s, t).Preparing?
             && (s.cache.refreshing || (if s.incremental then !s.devices.repair else !s.invalidated))
    ensures Harmless(s, DoPrepare(s, t), t)
  {
    IdlePositionsAreOk(s.devices, s.links, At(DoPrepare(s, t), t), s.invalidated);
  }

  lemma PrepareKeeps(s: State, t: Thread)
    requires Control(s) && Knowledge(s) && At(s, t).Preparing?
    ensures FeedOk(DoPrepare(s, t)) && Coherent(DoPrepare(s, t)) && DoPrepare(s, t).cache.store == s.cache.store
  {
    var after := DoPrepare(s, t);
    if s.cache.refreshing || (if s.incremental then !s.devices.repair else !s.invalidated) {
      PlainPrepareIsHarmless(s, t);
      HarmlessKeeps(s, after, t);
    } else {
      IdlePositionsAreOk(after.devices, after.links, At(after, t), after.invalidated);
      NobodyElseInWindow(s, t);
      ConsumingKeepsFeed(s, after, t);
    }
  }

  lemma DecideKeeps(s: State, t: Thread)
    requires Control(s) && Knowledge(s) && At(s, t).Checked?
    ensures FeedOk(DoDecide(s, t)) && Coherent(DoDecide(s, t)) && DoDecide(s, t).cache.store == s.cache.store
  {
    var after := DoDecide(s, t);
    IdlePositionsAreOk(after.devices, after.links, At(after, t), after.invalidated);
    if s.incremental && s.links.repair {
      NobodyElseInWindow(s, t);
      ConsumingKeepsFeed(s, after, t);
    } else {
      assert !s.links.repair ==> s.links.(repair := false) == s.links;
      HarmlessKeeps(s, after, t);
    }
  }

  lemma TakeDeviceKeeps(s: State, t: Thread)
    requires Control(s) && Knowledge(s) && CanDrain(s, t, TakeDevice)
    ensures FeedOk(DoDrain(s, t, TakeDevice)) && Coherent(DoDrain(s, t, TakeDevice))
    ensures DoDrain(s, t, TakeDevice).cache.store == s.cache.store
  {
    var after := DoDrain(s, t, TakeDevice);
    var e := s.devices.queue[0];
    assert e in s.devices.queue;
    TakeKeepsAgreement(s.devices, DeviceId, s.cache.store.devicesByID);
    NobodyElseInWindow(s, t);
    assert PcOk(s.devices, s.links, At(s, t), s.invalidated);
    ConsumingKeepsFeed(s, after, t);
    forall id | DeviceInFlight(s, id) || id == e.id
      ensures DeviceInFlight(after, id)
    {
      var u: Thread := if id == e.id then t else (var u: Thread :| id in WorkOf(At(s, u)).devices; u);
      assert id in WorkOf(At(after, u)).devices;
    }
    forall id | LinkInFlight(s, id)
      ensures LinkInFlight(after, id)
    {
      var u: Thread :| id in WorkOf(At(s, u)).links;
      assert id in WorkOf(At(after, u)).links;
    }
  }

  lemma TakeLinkKeeps(s: State, t: Thread)
    requires Control(s) && Knowledge(s) && CanDrain(s, t, TakeLink)
    ensures FeedOk(DoDrain(s, t, TakeLink)) && Coherent(DoDrain(s, t, TakeLink))
    ensures DoDrain(s, t, TakeLink).cache.store == s.cache.store
  {
    var after := DoDrain(s, t, TakeLink);
    var e := s.links.queue[0];
    assert e in s.links.queue;
    TakeKeepsAgreement(s.links, LinkId, s.cache.store.linksByID);
    NobodyElseInWindow(s, t);
    assert PcOk(s.devices, s.links, At(s, t), s.invalidated);
    ConsumingKeepsFeed(s, after, t);
    forall id | LinkInFlight(s, id) || id == e.id
      ensures LinkInFlight(after, id)
    {
      var u: Thread := if id == e.id then t else (var u: Thread :| id in WorkOf(At(s, u)).links; u);
      assert id in WorkOf(At(after, u)).links;
    }
    forall id | DeviceInFlight(s, id)
      ensures DeviceInFlight(after, id)
    {
      var u: Thread :| id in WorkOf(At(s, u)).devices;
      assert id in WorkOf(At(after, u)).devices;
    }
  }

  // ----- steps that change resident rows -----

  /** Applying one change brings that row into agreement and touches no other. */
  lemma ChangeAgrees<R, K>(src: Source<R>, table: Table<R, K>, key: R -> Option<K>, batch: map<Id, ChangeKind>,
                           got: map<Id, R>,
                           idOf: R -> Id, id: Id, to: Option<R>)
    requires Orderly(src, idOf) && TableWorkOk(src, batch, got, idOf, false)
    requires id in batch && (batch[id] == Deleted || id in got)
    requires to == if batch[id] == Deleted then None else Some(got[id])
    ensures forall x :: (x == id || Agrees(src, table.rows, x)) ==> Agrees(src, Change(table, key, id, to).rows, x)
  {
    var rows := Change(table, key, id, to).rows;
    forall x | x == id || Agrees(src, table.rows, x)
      ensures Agrees(src, rows, x)
    {
      if x == id {
        assert Look(rows, id) == to;
        if batch[id] == Deleted { assert id !in src.rows; } else { assert Agrees(src, got, id); }
      } else {
        assert Look(rows, x) == Look(table.rows, x);
      }
    }
  }

  /** The two feeds and the mode are as before. */
  predicate SameFeeds(s: State, after: State) {
    after.devices == s.devices && after.links == s.links && after.incremental == s.incremental
      && after.invalidated == s.invalidated
  }

  lemma SameFeedsKeepFeed(s: State, after: State, t: Thread)
    requires FeedOk(s) && SameFeeds(s, after) && OthersStay(s, after, t)
    requires PcOk(s.devices, s.links, At(after, t), s.invalidated)
    ensures FeedOk(after)
  {
  }

  lemma WorkStaysInFlight(s: State, after: State, t: Thread)
    requires OthersStay(s, after, t)
    ensures forall x :: DeviceInFlight(s, x)
              ==> DeviceInFlight(after, x) || x in WorkOf(At(s, t)).devices.Keys - WorkOf(At(after, t)).devices.Keys
    ensures forall x :: LinkInFlight(s, x)
              ==> LinkInFlight(after, x) || x in WorkOf(At(s, t)).links.Keys - WorkOf(At(after, t)).links.Keys
  {
    forall x | DeviceInFlight(s, x)
      ensures DeviceInFlight(after, x) || x in WorkOf(At(s, t)).devices.Keys - WorkOf(At(after, t)).devices.Keys
    {
      var u: Thread :| x in WorkOf(At(s, u)).devices;
      assert x in WorkOf(At(after, u)).devices || u == t;
    }
    forall x | LinkInFlight(s, x)
      ensures LinkInFlight(after, x) || x in WorkOf(At(s, t)).links.Keys - WorkOf(At(after, t)).links.Keys
    {
      var u: Thread :| x in WorkOf(At(s, u)).links;
      assert x in WorkOf(At(after, u)).links || u == t;
    }
  }

  lemma ApplyShape(s: State, t: Thread, m: Merge)
    requires CanMerge(s, t, m) && !m.FinishApply?
    ensures var after, work := DoMerge(s, t, m), At(s, t).work;
            && SameFeeds(s, after) && OthersStay(s, after, t) && Owed(after) == Owed(s)
            && At(after, t).Applying?
            && At(after, t).work == (if m.ApplyDevice? then work.(devices := work.devices - {m.id})
               else work.(links := work.links - {m.id}))
            && after.cache.store == (if m.ApplyDevice? then ChangeDevice(s.cache.store, m.id, DeviceAction(work, m.id))
                                     else ChangeLink(s.cache.store, m.id, LinkAction(work, m.id)))
  {
  }

  lemma SmallerBatchIsOk<R>(src: Source<R>, batch: map<Id, ChangeKind>, got: map<Id, R>, idOf: R -> Id, stale: bool,
                            id: Id)
    requires TableWorkOk(src, batch, got, idOf, stale)
    ensures TableWorkOk(src, batch - {id}, got, idOf, stale)
  {
  }

  lemma ApplyKeepsFeed(s: State, t: Thread, m: Merge)
    requires FeedOk(s) && CanMerge(s, t, m) && !m.FinishApply?
    ensures FeedOk(DoMerge(s, t, m))
  {
    var after, work := DoMerge(s, t, m), At(s, t).work;
    ApplyShape(s, t, m);
    assert PcOk(s.devices, s.links, At(s, t), s.invalidated);
    SmallerBatchIsOk(s.devices, work.devices, work.gotDevices, DeviceId, s.invalidated, m.id);
    SmallerBatchIsOk(s.links, work.links, work.gotLinks, LinkId, s.invalidated, m.id);
    SameFeedsKeepFeed(s, after, t);
  }

  lemma ApplyDeviceKeeps(s: State, t: Thread, id: Id)
    requires FeedOk(s) && Coherent(s) && Consistent(s.cache.store) && CanMerge(s, t, ApplyDevice(id))
    ensures Coherent(DoMerge(s, t, ApplyDevice(id))) && Consistent(DoMerge(s, t, ApplyDevice(id)).cache.store)
  {
    var after, work := DoMerge(s, t, ApplyDevice(id)), At(s, t).work;
    var to := DeviceAction(work, id);
    ApplyShape(s, t, ApplyDevice(id));
    assert PcOk(s.devices, s.links, At(s, t), s.invalidated);
    DeviceChangeKeepsConsistent(s.cache.store, id, to);
    if !Owed(after) {
      ChangeAgrees(s.devices, DeviceTable(s.cache.store), SysNameKey, work.devices, work.gotDevices, DeviceId, id, to);
      WorkStaysInFlight(s, after, t);
    }
  }

  lemma ApplyLinkKeeps(s: State, t: Thread, id: Id)
    requires FeedOk(s) && Coherent(s) && Consistent(s.cache.store) && CanMerge(s, t, ApplyLink(id))
    ensures Coherent(DoMerge(s, t, ApplyLink(id))) && Consistent(DoMerge(s, t, ApplyLink(id)).cache.store)
  {
    var after, work := DoMerge(s, t, ApplyLink(id)), At(s, t).work;
    var to := LinkAction(work, id);
    ApplyShape(s, t, ApplyLink(id));
    assert PcOk(s.devices, s.links, At(s, t), s.invalidated);
    LinkChangeKeepsConsistent(s.cache.store, id, to);
    LinkChangeIsTableChange(s.cache.store, id, to);
    if !Owed(after) {
      ChangeAgrees(s.links, LinkTable(s.cache.store), EndpointKey, work.links, work.gotLinks, LinkId, id, to);
      WorkStaysInFlight(s, after, t);
    }
  }

  lemma InstallShape(s: State, t: Thread)
    requires CanReload(s, t, RelockSnapshot) && At(s, t).outcome.Fine?
    ensures var after := DoReload(s, t, RelockSnapshot);
            && SameFeeds(s, after) && OthersStay(s, after, t)
            && WorkOf(At(after, t)) == NO_WORK && !At(after, t).Snapshotted? && !At(after, t).Snapshotting?
            && after.cache.store == Reload(At(s, t).allDevices, At(s, t).allLinks)
            && (Owed(after) <==> s.invalidated)
  {
  }

  lemma InstallKeeps(s: State, t: Thread)
    requires FeedOk(s) && CanReload(s, t, RelockSnapshot) && At(s, t).outcome.Fine?
    ensures FeedOk(DoReload(s, t, RelockSnapshot)) && Coherent(DoReload(s, t, RelockSnapshot))
    ensures Consistent(DoReload(s, t, RelockSnapshot).cache.store)
  {
    var after, pc := DoReload(s, t, RelockSnapshot), At(s, t);
    InstallShape(s, t);
    assert PcOk(s.devices, s.links, pc, s.invalidated);
    ReloadIsConsistent(pc.allDevices, pc.allLinks);
    IdlePositionsAreOk(after.devices, after.links, At(after, t), after.invalidated);
    SameFeedsKeepFeed(s, after, t);
  }

  // ----- writer steps -----

  lemma WriteKeepsTable<R(!new), K>(src: Source<R>, w: Write<R>, idOf: R -> Id, batch: map<Id, ChangeKind>,
                                    got: map<Id, R>,
                                    list: seq<R>, key: R -> Option<K>, stale: bool)
    requires Orderly(src, idOf) && CanWrite(src, w, idOf)
    ensures TableWorkOk(src, batch, got, idOf, stale) ==> TableWorkOk(Commit(src, w, idOf), batch, got, idOf, stale)
    ensures SnapshotOk(src, list, key, idOf, stale) ==> SnapshotOk(Commit(src, w, idOf), list, key, idOf, stale)
  {
    CommitKeepsOrder(src, w, idOf);
    forall id | Agrees(src, got, id) ensures Agrees(Commit(src, w, idOf), got, id) {
      CommitKeepsAgreement(src, w, idOf, got, id);
    }
    var rows := Load(list, key, idOf).rows;
    forall id | Agrees(src, rows, id) ensures Agrees(Commit(src, w, idOf), rows, id) {
      CommitKeepsAgreement(src, w, idOf, rows, id);
    }
  }

  lemma WriteDeviceKeepsPc(s: State, w: Write<Device>, pc: Pc)
    requires Orderly(s.devices, DeviceId) && CanWrite(s.devices, w, DeviceId)
    requires PcOk(s.devices, s.links, pc, s.invalidated)
    ensures PcOk(Commit(s.devices, w, DeviceId), s.links, pc, s.invalidated)
  {
    var list := if pc.Snapshotting? && pc.read.Some? then pc.read.value else if pc.Snapshotted? then pc.allDevices
      else [];
    WriteKeepsTable(s.devices, w, DeviceId, WorkOf(pc).devices, WorkOf(pc).gotDevices, list, SysNameKey, s.invalidated);
  }

  lemma WriteLinkKeepsPc(s: State, w: Write<Link>, pc: Pc)
    requires Orderly(s.links, LinkId) && CanWrite(s.links, w, LinkId)
    requires PcOk(s.devices, s.links, pc, s.invalidated)
    ensures PcOk(s.devices, Commit(s.links, w, LinkId), pc, s.invalidated)
  {
    var list := if pc.Snapshotted? then pc.allLinks else [];
    WriteKeepsTable(s.links, w, LinkId, WorkOf(pc).links, WorkOf(pc).gotLinks, list, EndpointKey, s.invalidated);
  }

  /** Raising the invalidation signal excuses every open read. */
  lemma StalePcOk(s: State, after: State, pc: Pc)
    requires PcOk(s.devices, s.links, pc, s.invalidated) && after.invalidated
    requires after.devices.retired == s.devices.retired && after.links.retired == s.links.retired
    ensures PcOk(after.devices, after.links, pc, after.invalidated)
  {
  }

  lemma WriteDeviceKeeps(s: State, w: Write<Device>)
    requires Knowledge(s) && Enabled(s, WriteDevice(w))
    ensures FeedOk(DoWriteDevice(s, w)) && Coherent(DoWriteDevice(s, w))
  {
    var after := DoWriteDevice(s, w);
    assert forall t: Thread :: At(after, t) == At(s, t);
    if w.Publish? && !s.incremental {
      forall t: Thread
        ensures PcOk(after.devices, after.links, At(after, t), after.invalidated)
      {
        StalePcOk(s, after, At(s, t));
      }
    } else {
      CommitKeepsOrder(s.devices, w, DeviceId);
      forall t: Thread
        ensures PcOk(after.devices, after.links, At(after, t), after.invalidated)
      {
        WriteDeviceKeepsPc(s, w, At(s, t));
      }
      forall id | Agrees(s.devices, s.cache.store.devicesByID, id)
        ensures Agrees(after.devices, s.cache.store.devicesByID, id) {
        CommitKeepsAgreement(s.devices, w, DeviceId, s.cache.store.devicesByID, id);
      }
      assert forall id :: (DeviceInFlight(s, id) ==> DeviceInFlight(after, id))
               && (LinkInFlight(s, id) ==> LinkInFlight(after, id));
    }
  }

  lemma WriteLinkKeeps(s: State, w: Write<Link>)
    requires Knowledge(s) && Enabled(s, WriteLink(w))
    ensures FeedOk(DoWriteLink(s, w)) && Coherent(DoWriteLink(s, w))
  {
    var after := DoWriteLink(s, w);
    assert forall t: Thread :: At(after, t) == At(s, t);
    if w.Publish? && !s.incremental {
      forall t: Thread
        ensures PcOk(after.devices, after.links, At(after, t), after.invalidated)
      {
        StalePcOk(s, after, At(s, t));
      }
    } else {
      CommitKeepsOrder(s.links, w, LinkId);
      forall t: Thread
        ensures PcOk(after.devices, after.links, At(after, t), after.invalidated)
      {
        WriteLinkKeepsPc(s, w, At(s, t));
      }
      forall id | Agrees(s.links, s.cache.store.linksByID, id)
        ensures Agrees(after.links, s.cache.store.linksByID, id) {
        CommitKeepsAgreement(s.links, w, LinkId, s.cache.store.linksByID, id);
      }
      assert forall id :: (DeviceInFlight(s, id) ==> DeviceInFlight(after, id))
               && (LinkInFlight(s, id) ==> LinkInFlight(after, id));
    }
  }
}
