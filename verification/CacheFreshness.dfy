/** Freshness: a call that takes the mutex while no refresh is under way answers with rows that
    were committed no earlier than that, for every row whose writes were announced by then. */
module CacheFreshness {
  import opened Basics
  import opened KeyIndex
  import opened CacheStore
  import opened ChangeFeed
  import opened CacheProtocol
  import opened CacheControl
  import opened CacheCoherence
  import opened CacheTheorems

  // ----- how far a call is with one table -----

  datatype Phase<R> =
    | Taking(batch: map<Id, ChangeKind>, room: int)      // up to `room` more events will be drained
    | Holding(batch: map<Id, ChangeKind>, got: map<Id, R>)
    | Loading
    | Loaded(all: map<Id, R>)
    | Done

  function DevicePhase(pc: Pc): Phase<Device> {
    match pc
    case Preparing => Taking(map[], BATCH_LIMIT)
    case Checked => Taking(map[], BATCH_LIMIT)
    case DrainingDevices(_, taken, work) => Taking(work.devices, BATCH_LIMIT - taken)
    case DrainingLinks(_, _, work) => Holding(work.devices, work.gotDevices)
    case Fetching(_, work) => Holding(work.devices, work.gotDevices)
    case Fetched(_, work, _) => Holding(work.devices, work.gotDevices)
    case Applying(_, work) => Holding(work.devices, work.gotDevices)
    case Snapshotting(_, read) => if read.Some? then Loaded(Load(read.value, SysNameKey, DeviceId).rows) else Loading
    case Snapshotted(_, rows, _, outcome) => if outcome.Fine? then Loaded(Load(rows, SysNameKey, DeviceId).rows)
      else Loading
    case Serving => Done
    case _ => Loading
  }

  function LinkPhase(pc: Pc): Phase<Link> {
    match pc
    case Preparing => Taking(map[], BATCH_LIMIT)
    case Checked => Taking(map[], BATCH_LIMIT)
    case DrainingDevices(_, _, work) => Taking(work.links, BATCH_LIMIT)
    case DrainingLinks(_, taken, work) => Taking(work.links, BATCH_LIMIT - taken)
    case Fetching(_, work) => Holding(work.links, work.gotLinks)
    case Fetched(_, work, _) => Holding(work.links, work.gotLinks)
    case Applying(_, work) => Holding(work.links, work.gotLinks)
    case Snapshotted(_, _, rows, outcome) => if outcome.Fine? then Loaded(Load(rows, EndpointKey, LinkId).rows)
      else Loading
    case Serving => Done
    case _ => Loading
  }

  /** A full reload will follow within this call. */
  predicate DeviceOwed(s: State, pc: Pc) {
    (pc.Preparing? || pc.Checked?)
    && (!s.cache.loaded || s.cache.needsFullReload
       || (pc.Preparing? && (if s.incremental then s.devices.repair else s.invalidated)))
  }

  predicate LinkOwed(s: State, pc: Pc) {
    (pc.Preparing? || pc.Checked?)
    && (!s.cache.loaded || s.cache.needsFullReload || (s.incremental && s.links.repair)
       || (pc.Preparing? && !s.incremental && s.invalidated))
  }

  /** An event about the row is among the next `room` of the queue. */
  ghost predicate Soon(queue: seq<ChangeEvent>, room: int, id: Id) {
    exists i :: 0 <= i < |queue| && i < room && queue[i].id == id
  }

  /** The row will be answered with one of the values `seen`. */
  ghost predicate Fresh<R(!new)>(queue: seq<ChangeEvent>, rows: map<Id, R>, owed: bool, phase: Phase<R>, id: Id,
                                 seen: iset<Option<R>>) {
    match phase
    case Taking(batch, room) => owed || Look(rows, id) in seen || id in batch || Soon(queue, room, id)
    case Holding(batch, got) =>
      if id !in batch then Look(rows, id) in seen
      else if batch[id] == Deleted then None in seen
      else id in got ==> Some(got[id]) in seen
    case Loading => true
    case Loaded(all) => Look(all, id) in seen
    case Done => Look(rows, id) in seen
  }

  ghost predicate FreshDevice(s: State, t: Thread, id: Id, seen: iset<Option<Device>>) {
    Fresh(s.devices.queue, s.cache.store.devicesByID, DeviceOwed(s, At(s, t)), DevicePhase(At(s, t)), id, seen)
  }

  ghost predicate FreshLink(s: State, t: Thread, id: Id, seen: iset<Option<Link>>) {
    Fresh(s.links.queue, s.cache.store.linksByID, LinkOwed(s, At(s, t)), LinkPhase(At(s, t)), id, seen)
  }

  /** The call is refreshing for itself, or has done so and is about to answer. */
  predicate Engaged(s: State, t: Thread) {
    var pc := At(s, t);
    (pc.Preparing? && !s.cache.refreshing) || Deciding(pc) || InWindow(pc) || pc.Serving?
  }

  // ----- one table -----

  lemma TakeKeepsFresh<R(!new)>(queue: seq<ChangeEvent>, rows: map<Id, R>, batch: map<Id, ChangeKind>, room: int,
                                id: Id, seen: iset<Option<R>>)
    requires queue != [] && Fresh(queue, rows, false, Taking(batch, room), id, seen)
    requires room > 0
    ensures Fresh(queue[1..], rows, false, Taking(batch[queue[0].id := queue[0].kind], room - 1), id, seen)
  {
    if Soon(queue, room, id) && id != queue[0].id {
      var i :| 0 <= i < |queue| && i < room && queue[i].id == id;
      assert queue[1..][i - 1].id == id;
    }
  }

  lemma StopKeepsFresh<R(!new)>(src: Source<R>, rows: map<Id, R>, batch: map<Id, ChangeKind>, room: int, idOf: R -> Id,
                                id: Id, seen: iset<Option<R>>)
    requires Fresh(src.queue, rows, false, Taking(batch, room), id, seen) && (room <= 0 || src.queue == [])
    requires Orderly(src, idOf) && (id in batch && batch[id] == Deleted ==> id in src.retired)
    requires Look(src.rows, id) in seen
    ensures Fresh(src.queue, rows, false, Holding(batch, map[]), id, seen)
  {
  }

  lemma ApplyKeepsFresh<R(!new), K>(queue: seq<ChangeEvent>, table: Table<R, K>, key: R -> Option<K>,
                                    batch: map<Id, ChangeKind>, got: map<Id, R>,
                                    id: Id, seen: iset<Option<R>>, x: Id, to: Option<R>)
    requires Fresh(queue, table.rows, false, Holding(batch, got), id, seen)
    requires x in batch && (batch[x] == Deleted || x in got)
             && to == (if batch[x] == Deleted then None else Some(got[x]))
    ensures Fresh(queue, Change(table, key, x, to).rows, false, Holding(batch - {x}, got), id, seen)
  {
    assert Look(Change(table, key, x, to).rows, id) == if id == x then to else Look(table.rows, id);
  }

  /** Announcements only extend the queue. */
  lemma LongerQueueKeepsFresh<R(!new)>(queue: seq<ChangeEvent>, longer: seq<ChangeEvent>, rows: map<Id, R>, owed: bool,
                                       still: bool,
                                       phase: Phase<R>, id: Id, seen: iset<Option<R>>)
    requires Fresh(queue, rows, owed, phase, id, seen) && queue <= longer && (owed ==> still)
    ensures Fresh(longer, rows, still, phase, id, seen)
  {
    if phase.Taking? && Soon(queue, phase.room, id) {
      var i :| 0 <= i < |queue| && i < phase.room && queue[i].id == id;
      assert longer[i].id == id;
    }
  }

  // ----- the call's own steps, devices -----

  lemma DevicesThroughGate(s: State, t: Thread, g: Gate, id: Id, seen: iset<Option<Device>>)
    requires ModeOk(s) && Engaged(s, t) && CanGate(s, t, g) && FreshDevice(s, t, id, seen)
    ensures FreshDevice(DoGate(s, t, g), t, id, seen)
  {
  }

  lemma DevicesThroughTake(s: State, t: Thread, id: Id, seen: iset<Option<Device>>)
    requires CanDrain(s, t, TakeDevice) && FreshDevice(s, t, id, seen)
    ensures FreshDevice(DoDrain(s, t, TakeDevice), t, id, seen)
  {
    TakeKeepsFresh(s.devices.queue, s.cache.store.devicesByID, At(s, t).work.devices, BATCH_LIMIT - At(s, t).taken, id,
      seen);
  }

  lemma DevicesThroughStop(s: State, t: Thread, id: Id, seen: iset<Option<Device>>)
    requires Orderly(s.devices, DeviceId) && PcOk(s.devices, s.links, At(s, t), s.invalidated)
    requires CanDrain(s, t, StopDevices) && Look(s.devices.rows, id) in seen && FreshDevice(s, t, id, seen)
    ensures FreshDevice(DoDrain(s, t, StopDevices), t, id, seen)
  {
    var work := At(s, t).work;
    StopKeepsFresh(s.devices, s.cache.store.devicesByID, work.devices, BATCH_LIMIT - At(s, t).taken, DeviceId, id,
      seen);
    assert DevicePhase(At(DoDrain(s, t, StopDevices), t)) == Holding(work.devices, map[]);
  }

  lemma DevicesThroughDrain(s: State, t: Thread, drain: Drain, id: Id, seen: iset<Option<Device>>)
    requires Orderly(s.devices, DeviceId) && PcOk(s.devices, s.links, At(s, t), s.invalidated)
    requires CanDrain(s, t, drain) && Look(s.devices.rows, id) in seen && FreshDevice(s, t, id, seen)
    ensures FreshDevice(DoDrain(s, t, drain), t, id, seen)
  {
    var pc, phase := At(s, t), DevicePhase(At(DoDrain(s, t, drain), t));
    match drain
    case TakeDevice => DevicesThroughTake(s, t, id, seen);
    case StopDevices => DevicesThroughStop(s, t, id, seen);
    case TakeLink => assert phase == DevicePhase(pc);
    case StopLinks => assert phase == DevicePhase(pc) || (phase == Done && pc.work.devices == map[]);
  }

  lemma DevicesThroughRead(s: State, t: Thread, r: Read, id: Id, seen: iset<Option<Device>>)
    requires CanRead(s, t, r) && !r.RelockChanges? && Look(s.devices.rows, id) in seen && FreshDevice(s, t, id, seen)
    ensures FreshDevice(DoRead(s, t, r), t, id, seen)
  {
    var work := At(s, t).work;
    assert DoRead(s, t, r) == Goto(s, t, At(DoRead(s, t, r), t));
    assert DevicePhase(At(DoRead(s, t, r), t)) ==
      Holding(work.devices, if r.ReadDevice? && r.id in s.devices.rows
        then work.gotDevices[r.id := s.devices.rows[r.id]] else work.gotDevices);
  }

  lemma DevicesThroughRelock(s: State, t: Thread, id: Id, seen: iset<Option<Device>>)
    requires CanRead(s, t, RelockChanges) && FreshDevice(s, t, id, seen)
    ensures FreshDevice(DoRead(s, t, RelockChanges), t, id, seen)
  {
    var after := DoRead(s, t, RelockChanges);
    assert DevicePhase(At(after, t)) == if At(s, t).outcome.Fine? then DevicePhase(At(s, t)) else Loading;
  }

  lemma DevicesThroughMerge(s: State, t: Thread, m: Merge, id: Id, seen: iset<Option<Device>>)
    requires CanMerge(s, t, m) && FreshDevice(s, t, id, seen) && PcOk(s.devices, s.links, At(s, t), s.invalidated)
    ensures FreshDevice(DoMerge(s, t, m), t, id, seen)
  {
    var work, after := At(s, t).work, DoMerge(s, t, m);
    match m
    case ApplyDevice(x) =>
      ApplyKeepsFresh(s.devices.queue, DeviceTable(s.cache.store), SysNameKey, work.devices, work.gotDevices, id, seen,
        x, DeviceAction(work, x));
      assert DevicePhase(At(after, t)) == Holding(work.devices - {x}, work.gotDevices);
    case ApplyLink(x) =>
      LinkChangeIsTableChange(s.cache.store, x, LinkAction(work, x));
      assert DevicePhase(At(after, t)) == DevicePhase(At(s, t)) && Resident(after).devices == Resident(s).devices;
    case FinishApply =>
      assert DevicePhase(At(after, t)) == Done && Resident(after) == Resident(s);
  }

  lemma ListLoadsRows<R(!new), K(!new)>(src: Source<R>, list: seq<R>, key: R -> Option<K>, idOf: R -> Id)
    requires Orderly(src, idOf) && Lists(list, src.rows, idOf)
    ensures Load(list, key, idOf).rows == src.rows
  {
    LoadBuildsTable(list, key, idOf);
    ListingDeterminesRows(list, src.rows, Load(list, key, idOf).rows, idOf);
  }

  lemma DevicesThroughReload(s: State, t: Thread, f: Full, id: Id, seen: iset<Option<Device>>)
    requires Orderly(s.devices, DeviceId) && CanReload(s, t, f) && !f.RelockSnapshot?
    requires Look(s.devices.rows, id) in seen && FreshDevice(s, t, id, seen)
    ensures FreshDevice(DoReload(s, t, f), t, id, seen)
  {
    if f.ReadAllDevices? { ListLoadsRows(s.devices, f.deviceRows, SysNameKey, DeviceId); }
    assert DevicePhase(At(DoReload(s, t, f), t)) ==
      if f.ReadAllDevices? then Loaded(s.devices.rows) else if f.ReadAllLinks? then DevicePhase(At(s, t)) else Loading;
  }

  lemma DevicesThroughInstall(s: State, t: Thread, id: Id, seen: iset<Option<Device>>)
    requires CanReload(s, t, RelockSnapshot) && At(s, t).outcome.Fine? && FreshDevice(s, t, id, seen)
    ensures FreshDevice(DoReload(s, t, RelockSnapshot), t, id, seen)
  {
    var after := DoReload(s, t, RelockSnapshot);
    assert after.cache.store.devicesByID == DevicePhase(At(s, t)).all;
    assert DevicePhase(At(after, t)) == Done || DevicePhase(At(after, t)) == Taking(map[], BATCH_LIMIT);
  }

  lemma DevicesThroughAbort(s: State, t: Thread, id: Id, seen: iset<Option<Device>>)
    requires CanReload(s, t, RelockSnapshot) && !At(s, t).outcome.Fine?
    ensures FreshDevice(DoReload(s, t, RelockSnapshot), t, id, seen)
  {
    assert DevicePhase(At(DoReload(s, t, RelockSnapshot), t)) == Loading;
  }

  // ----- the call's own steps, links -----

  lemma LinksThroughGate(s: State, t: Thread, g: Gate, id: Id, seen: iset<Option<Link>>)
    requires ModeOk(s) && Engaged(s, t) && CanGate(s, t, g) && FreshLink(s, t, id, seen)
    ensures FreshLink(DoGate(s, t, g), t, id, seen)
  {
  }

  lemma LinksThroughTake(s: State, t: Thread, id: Id, seen: iset<Option<Link>>)
    requires CanDrain(s, t, TakeLink) && FreshLink(s, t, id, seen)
    ensures FreshLink(DoDrain(s, t, TakeLink), t, id, seen)
  {
    TakeKeepsFresh(s.links.queue, s.cache.store.linksByID, At(s, t).work.links, BATCH_LIMIT - At(s, t).taken, id, seen);
  }

  lemma LinksThroughStop(s: State, t: Thread, id: Id, seen: iset<Option<Link>>)
    requires Orderly(s.links, LinkId) && PcOk(s.devices, s.links, At(s, t), s.invalidated)
    requires CanDrain(s, t, StopLinks) && Look(s.links.rows, id) in seen && FreshLink(s, t, id, seen)
    ensures FreshLink(DoDrain(s, t, StopLinks), t, id, seen)
  {
    var work, phase := At(s, t).work, LinkPhase(At(DoDrain(s, t, StopLinks), t));
    StopKeepsFresh(s.links, s.cache.store.linksByID, work.links, BATCH_LIMIT - At(s, t).taken, LinkId, id, seen);
    assert phase == Holding(work.links, map[]) || (phase == Done && work.links == map[]);
  }

  lemma LinksThroughDrain(s: State, t: Thread, drain: Drain, id: Id, seen: iset<Option<Link>>)
    requires Orderly(s.links, LinkId) && PcOk(s.devices, s.links, At(s, t), s.invalidated)
    requires CanDrain(s, t, drain) && Look(s.links.rows, id) in seen && FreshLink(s, t, id, seen)
    ensures FreshLink(DoDrain(s, t, drain), t, id, seen)
  {
    var pc, phase := At(s, t), LinkPhase(At(DoDrain(s, t, drain), t));
    match drain
    case TakeDevice => assert phase == LinkPhase(pc);
    case StopDevices => assert phase == LinkPhase(pc);
    case TakeLink => LinksThroughTake(s, t, id, seen);
    case StopLinks => LinksThroughStop(s, t, id, seen);
  }

  lemma LinksThroughRead(s: State, t: Thread, r: Read, id: Id, seen: iset<Option<Link>>)
    requires CanRead(s, t, r) && !r.RelockChanges? && Look(s.links.rows, id) in seen && FreshLink(s, t, id, seen)
    ensures FreshLink(DoRead(s, t, r), t, id, seen)
  {
    var work := At(s, t).work;
    assert DoRead(s, t, r) == Goto(s, t, At(DoRead(s, t, r), t));
    assert LinkPhase(At(DoRead(s, t, r), t)) ==
      Holding(work.links, if r.ReadLink? && r.id in s.links.rows then work.gotLinks[r.id := s.links.rows[r.id]]
        else work.gotLinks);
  }

  lemma LinksThroughRelock(s: State, t: Thread, id: Id, seen: iset<Option<Link>>)
    requires CanRead(s, t, RelockChanges) && FreshLink(s, t, id, seen)
    ensures FreshLink(DoRead(s, t, RelockChanges), t, id, seen)
  {
    var after := DoRead(s, t, RelockChanges);
    assert LinkPhase(At(after, t)) == if At(s, t).outcome.Fine? then LinkPhase(At(s, t)) else Loading;
  }

  lemma LinksThroughMerge(s: State, t: Thread, m: Merge, id: Id, seen: iset<Option<Link>>)
    requires CanMerge(s, t, m) && FreshLink(s, t, id, seen) && PcOk(s.devices, s.links, At(s, t), s.invalidated)
    ensures FreshLink(DoMerge(s, t, m), t, id, seen)
  {
    var work, after := At(s, t).work, DoMerge(s, t, m);
    match m
    case ApplyDevice(x) =>
      assert LinkPhase(At(after, t)) == LinkPhase(At(s, t)) && Resident(after).links == Resident(s).links;
    case ApplyLink(x) =>
      LinkChangeIsTableChange(s.cache.store, x, LinkAction(work, x));
      ApplyKeepsFresh(s.links.queue, LinkTable(s.cache.store), EndpointKey, work.links, work.gotLinks, id, seen, x,
        LinkAction(work, x));
      assert LinkPhase(At(after, t)) == Holding(work.links - {x}, work.gotLinks);
    case FinishApply =>
      assert LinkPhase(At(after, t)) == Done && Resident(after) == Resident(s);
  }

  lemma LinksThroughReload(s: State, t: Thread, f: Full, id: Id, seen: iset<Option<Link>>)
    requires Orderly(s.links, LinkId) && CanReload(s, t, f) && !f.RelockSnapshot?
    requires Look(s.links.rows, id) in seen && FreshLink(s, t, id, seen)
    ensures FreshLink(DoReload(s, t, f), t, id, seen)
  {
    if f.ReadAllLinks? { ListLoadsRows(s.links, f.linkRows, EndpointKey, LinkId); }
    assert LinkPhase(At(DoReload(s, t, f), t)) ==
      if f.ReadAllLinks? then Loaded(s.links.rows) else Loading;
  }

  lemma LinksThroughInstall(s: State, t: Thread, id: Id, seen: iset<Option<Link>>)
    requires CanReload(s, t, RelockSnapshot) && At(s, t).outcome.Fine? && FreshLink(s, t, id, seen)
    ensures FreshLink(DoReload(s, t, RelockSnapshot), t, id, seen)
  {
    var after := DoReload(s, t, RelockSnapshot);
    assert after.cache.store.linksByID == LinkPhase(At(s, t)).all;
    assert LinkPhase(At(after, t)) == Done || LinkPhase(At(after, t)) == Taking(map[], BATCH_LIMIT);
  }

  lemma LinksThroughAbort(s: State, t: Thread, id: Id, seen: iset<Option<Link>>)
    requires CanReload(s, t, RelockSnapshot) && !At(s, t).outcome.Fine?
    ensures FreshLink(DoReload(s, t, RelockSnapshot), t, id, seen)
  {
    assert LinkPhase(At(DoReload(s, t, RelockSnapshot), t)) == Loading;
  }

  // ----- everybody else's steps -----

  /** Without the mutex a thread only moves itself. */
  lemma OutsidersOnlyMove(s: State, step: Step)
    requires Enabled(s, step) && !Writing(step) && s.holder != None && !HoldsMutex(At(s, step.t))
    ensures Next(s, step) == Goto(s, step.t, At(Next(s, step), step.t))
  {
    match step
    case Gating(t, g) => assert DoGate(s, t, g) == Goto(s, t, At(DoGate(s, t, g), t));
    case Reading(t, r) => assert DoRead(s, t, r) == Goto(s, t, At(DoRead(s, t, r), t));
    case Reloading(t, f) => assert DoReload(s, t, f) == Goto(s, t, At(DoReload(s, t, f), t));
    case _ =>
  }

  predicate Untouched(s: State, after: State) {
    && SameFeeds(s, after) && Resident(after) == Resident(s) && after.cache.refreshing == s.cache.refreshing
    && after.cache.loaded == s.cache.loaded && after.cache.needsFullReload == s.cache.needsFullReload
  }

  /** While a window is open, others enter, wait or answer. */
  lemma OthersOnlyAnswer(s: State, step: Step)
    requires Enabled(s, step) && !Writing(step) && s.cache.refreshing && !InWindow(At(s, step.t))
             && !Deciding(At(s, step.t))
    ensures Untouched(s, Next(s, step))
  {
    match step
    case Gating(t, g) => assert Untouched(s, DoGate(s, t, g));
    case Answering(t, query) => assert Untouched(s, DoServe(s, t, query));
    case _ =>
  }

  /** While a call is engaged nobody else changes a feed, the resident rows or the load flags. */
  lemma BystandersLeaveItAlone(s: State, step: Step, t: Thread)
    requires Control(s) && Engaged(s, t) && Enabled(s, step) && !Writing(step) && step.t != t
    ensures Untouched(s, Next(s, step)) && At(Next(s, step), t) == At(s, t)
  {
    var u := step.t;
    assert HoldsMutex(At(s, u)) <==> s.holder == Some(u);
    if HoldsMutex(At(s, t)) {
      assert s.holder == Some(t);
      OutsidersOnlyMove(s, step);
    } else {
      assert InWindow(At(s, t)) && !InWindow(At(s, u)) && !Deciding(At(s, u));
      OthersOnlyAnswer(s, step);
      assert Local(s, u);
      StepMoves(s, step);
    }
  }

  // ----- every step of a run -----

  /** What is known while the call is under way: the rows committed now are among those seen, and
      the answer will be one of those. */
  ghost predicate OnTrack(s: State, t: Thread, d: Id, l: Id, ds: iset<Option<Device>>, ls: iset<Option<Link>>) {
    && Look(s.devices.rows, d) in ds && FreshDevice(s, t, d, ds)
    && Look(s.links.rows, l) in ls && FreshLink(s, t, l, ls)
  }

  ghost predicate AllFresh(s: State, t: Thread, d: Id, l: Id, ds: iset<Option<Device>>, ls: iset<Option<Link>>) {
    FreshDevice(s, t, d, ds) && FreshLink(s, t, l, ls)
  }

  lemma OwnStepKeepsFresh(s: State, step: Step, d: Id, l: Id, ds: iset<Option<Device>>, ls: iset<Option<Link>>)
    requires Knowledge(s) && Enabled(s, step) && !Writing(step) && Engaged(s, step.t)
             && OnTrack(s, step.t, d, l, ds, ls)
    ensures AllFresh(Next(s, step), step.t, d, l, ds, ls)
  {
    assert PcOk(s.devices, s.links, At(s, step.t), s.invalidated);
    match step
    case Gating(t, g) => DevicesThroughGate(s, t, g, d, ds); LinksThroughGate(s, t, g, l, ls);
    case Draining(t, drain) => DevicesThroughDrain(s, t, drain, d, ds); LinksThroughDrain(s, t, drain, l, ls);
    case Reading(t, r) =>
      if r.RelockChanges? {
        DevicesThroughRelock(s, t, d, ds); LinksThroughRelock(s, t, l, ls);
      } else {
        DevicesThroughRead(s, t, r, d, ds); LinksThroughRead(s, t, r, l, ls);
      }
    case Merging(t, m) => DevicesThroughMerge(s, t, m, d, ds); LinksThroughMerge(s, t, m, l, ls);
    case Reloading(t, f) =>
      if f.RelockSnapshot? && At(s, t).outcome.Fine? {
        DevicesThroughInstall(s, t, d, ds); LinksThroughInstall(s, t, l, ls);
      } else if f.RelockSnapshot? {
        DevicesThroughAbort(s, t, d, ds); LinksThroughAbort(s, t, l, ls);
      } else {
        DevicesThroughReload(s, t, f, d, ds); LinksThroughReload(s, t, f, l, ls);
      }
    case Answering(t, query) => assert At(DoServe(s, t, query), t) == Outside;
  }

  lemma WriteKeepsFresh(s: State, step: Step, t: Thread, d: Id, l: Id, ds: iset<Option<Device>>, ls: iset<Option<Link>>)
    requires Enabled(s, step) && Writing(step) && OnTrack(s, t, d, l, ds, ls)
    ensures AllFresh(Next(s, step), t, d, l, ds, ls)
  {
    var after, pc := Next(s, step), At(s, t);
    assert At(after, t) == pc && after.cache == s.cache;
    assert s.devices.queue <= after.devices.queue && s.links.queue <= after.links.queue;
    LongerQueueKeepsFresh(s.devices.queue, after.devices.queue, s.cache.store.devicesByID,
                          DeviceOwed(s, pc), DeviceOwed(after, pc), DevicePhase(pc), d, ds);
    LongerQueueKeepsFresh(s.links.queue, after.links.queue, s.cache.store.linksByID,
                          LinkOwed(s, pc), LinkOwed(after, pc), LinkPhase(pc), l, ls);
  }

  lemma StepKeepsFresh(s: State, step: Step, t: Thread, d: Id, l: Id, ds: iset<Option<Device>>, ls: iset<Option<Link>>)
    requires Control(s) && Knowledge(s) && Enabled(s, step) && Engaged(s, t) && OnTrack(s, t, d, l, ds, ls)
    ensures AllFresh(Next(s, step), t, d, l, ds, ls)
  {
    if Writing(step) {
      WriteKeepsFresh(s, step, t, d, l, ds, ls);
    } else if step.t == t {
      OwnStepKeepsFresh(s, step, d, l, ds, ls);
    } else {
      BystandersLeaveItAlone(s, step, t);
    }
  }

  /** The call goes on without returning in every state of the run. */
  ghost predicate StaysEngaged(s: State, steps: seq<Step>, t: Thread)
    requires Legal(s, steps)
    decreases |steps|
  {
    Engaged(s, t) && (steps == [] || StaysEngaged(Next(s, steps[0]), steps[1..], t))
  }

  /** What the row was at some state of the run. */
  ghost function DeviceValues(s: State, steps: seq<Step>, id: Id): iset<Option<Device>>
    requires Legal(s, steps)
    decreases |steps|
  {
    iset{Look(s.devices.rows, id)} + if steps == [] then iset{} else DeviceValues(Next(s, steps[0]), steps[1..], id)
  }

  ghost function LinkValues(s: State, steps: seq<Step>, id: Id): iset<Option<Link>>
    requires Legal(s, steps)
    decreases |steps|
  {
    iset{Look(s.links.rows, id)} + if steps == [] then iset{} else LinkValues(Next(s, steps[0]), steps[1..], id)
  }

  lemma {:induction false} RunKeepsFresh(s: State, steps: seq<Step>, t: Thread, d: Id, l: Id, ds: iset<Option<Device>>,
                                         ls: iset<Option<Link>>)
    requires Control(s) && Knowledge(s) && Legal(s, steps) && StaysEngaged(s, steps, t)
    requires AllFresh(s, t, d, l, ds, ls) && DeviceValues(s, steps, d) <= ds && LinkValues(s, steps, l) <= ls
    ensures AllFresh(Run(s, steps), t, d, l, ds, ls)
    decreases |steps|
  {
    if steps != [] {
      StepKeepsFresh(s, steps[0], t, d, l, ds, ls);
      ControlIsKept(s, steps[0]);
      KnowledgeIsKept(s, steps[0]);
      RunKeepsFresh(Next(s, steps[0]), steps[1..], t, d, l, ds, ls);
    }
  }

  // ----- the start of a call -----

  predicate Bounded(s: State) {
    |s.devices.queue| <= 256 && |s.links.queue| <= 256
  }

  predicate SameQueues(s: State, after: State) {
    after.devices.queue == s.devices.queue && after.links.queue == s.links.queue
  }

  lemma GateLeavesQueues(s: State, t: Thread, g: Gate)
    requires CanGate(s, t, g)
    ensures SameQueues(s, DoGate(s, t, g))
  {
  }

  lemma ReadLeavesQueues(s: State, t: Thread, r: Read)
    requires CanRead(s, t, r)
    ensures SameQueues(s, DoRead(s, t, r))
  {
  }

  lemma MergeLeavesQueues(s: State, t: Thread, m: Merge)
    requires CanMerge(s, t, m)
    ensures SameQueues(s, DoMerge(s, t, m))
  {
  }

  lemma ReloadLeavesQueues(s: State, t: Thread, f: Full)
    requires CanReload(s, t, f)
    ensures SameQueues(s, DoReload(s, t, f))
  {
  }

  lemma StepKeepsBounded(s: State, step: Step)
    requires Enabled(s, step) && Bounded(s)
    ensures Bounded(Next(s, step))
  {
    match step
    case Gating(t, g) => GateLeavesQueues(s, t, g);
    case Reading(t, r) => ReadLeavesQueues(s, t, r);
    case Merging(t, m) => MergeLeavesQueues(s, t, m);
    case Reloading(t, f) => ReloadLeavesQueues(s, t, f);
    case _ =>
  }

  lemma {:induction false} RunKeepsBounded(s: State, steps: seq<Step>)
    requires Legal(s, steps) && Bounded(s)
    ensures Bounded(Run(s, steps))
    decreases |steps|
  {
    if steps != [] {
      StepKeepsBounded(s, steps[0]);
      RunKeepsBounded(Next(s, steps[0]), steps[1..]);
    }
  }

  /** No committed write of the row is still unannounced. */
  ghost predicate Announced<R>(src: Source<R>, id: Id) {
    forall e :: e in src.unpublished ==> e.id != id
  }

  lemma QueuedIsSoon<R>(src: Source<R>, view: map<Id, R>, id: Id)
    requires Agrees(src, view, id) && Announced(src, id) && |src.queue| <= QUEUE_CAPACITY
    ensures Look(view, id) == Look(src.rows, id) || src.repair || Soon(src.queue, BATCH_LIMIT, id)
  {
    if Pending(src, id) {
      var e :| (e in src.unpublished || e in src.queue) && e.id == id;
      assert e in src.queue;
    }
  }

  lemma CallStartsFresh(s: State, t: Thread, d: Id, l: Id, ds: iset<Option<Device>>, ls: iset<Option<Link>>)
    requires Control(s) && Knowledge(s) && Bounded(s) && At(s, t).Preparing? && !s.cache.refreshing
    requires Announced(s.devices, d) && Announced(s.links, l) && Look(s.devices.rows, d) in ds
             && Look(s.links.rows, l) in ls
    ensures AllFresh(s, t, d, l, ds, ls)
  {
    if !Owed(s) {
      assert forall u: Thread :: WorkOf(At(s, u)) == NO_WORK;
      assert Agrees(s.devices, s.cache.store.devicesByID, d) || DeviceInFlight(s, d);
      assert Agrees(s.links, s.cache.store.linksByID, l) || LinkInFlight(s, l);
      QueuedIsSoon(s.devices, s.cache.store.devicesByID, d);
      QueuedIsSoon(s.links, s.cache.store.linksByID, l);
    }
  }

  lemma FreshFromLock(s: State, steps: seq<Step>, t: Thread, d: Id, l: Id)
    requires Control(s) && Knowledge(s) && Bounded(s) && At(s, t).Preparing? && !s.cache.refreshing
    requires Announced(s.devices, d) && Announced(s.links, l)
    requires Legal(s, steps) && StaysEngaged(s, steps, t) && At(Run(s, steps), t).Serving?
    ensures Look(Run(s, steps).cache.store.devicesByID, d) in DeviceValues(s, steps, d)
    ensures Look(Run(s, steps).cache.store.linksByID, l) in LinkValues(s, steps, l)
  {
    var ds, ls := DeviceValues(s, steps, d), LinkValues(s, steps, l);
    CallStartsFresh(s, t, d, l, ds, ls);
    RunKeepsFresh(s, steps, t, d, l, ds, ls);
  }

  /** Read your writes. A call takes the mutex with no refresh under way; whatever writers and other
      callers do meanwhile, when it answers, each row whose writes had been announced is shown as it
      was committed at some moment since. This rests on a full buffer fitting into one drain. */
  lemma OwnRefreshIsFresh(s: State, before: seq<Step>, steps: seq<Step>, t: Thread, d: Id, l: Id)
    requires Init(s) && Legal(s, before) && Legal(Run(s, before), steps)
    requires At(Run(s, before), t).Preparing? && !Run(s, before).cache.refreshing
    requires Announced(Run(s, before).devices, d) && Announced(Run(s, before).links, l)
    requires StaysEngaged(Run(s, before), steps, t) && At(Run(Run(s, before), steps), t).Serving?
    ensures Look(Run(Run(s, before), steps).cache.store.devicesByID, d) in DeviceValues(Run(s, before), steps, d)
    ensures Look(Run(Run(s, before), steps).cache.store.linksByID, l) in LinkValues(Run(s, before), steps, l)
  {
    InitControl(s);
    InitKnowledge(s);
    RunKeeps(s, before);
    RunKeepsBounded(s, before);
    FreshFromLock(Run(s, before), steps, t, d, l);
  }
}
