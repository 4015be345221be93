/** The cache as a system of steps: writers that commit and announce changes, and any number of
    getter calls that lock, refresh or wait, and answer. The mutex is released during repository
    reads, so every step of every other thread can fall inside a refresh window.

    What runs between taking and releasing the mutex without reading the feed is one step; taking
    an event, reading a row and applying one change of a batch are steps of their own. */
module CacheProtocol {
  import opened Basics
  import opened KeyIndex
  import opened Sorting
  import opened CacheStore
  import opened ChangeFeed

  type Thread = nat

  /** What a refresh carries: the drained events and the rows read so far. */
  datatype Work = Work(devices: map<Id, ChangeKind>, links: map<Id, ChangeKind>,
                       gotDevices: map<Id, Device>, gotLinks: map<Id, Link>)

  const NO_WORK := Work(map[], map[], map[], map[])

  datatype Outcome = Fine | Failed | Panicked

  /** Where a getter call is. `first` marks the incremental pass that follows a full reload inside
      one call, `retry` the full reload that follows a failed incremental pass. */
  datatype Pc =
    | Outside
    | Entering                                                    // wants the mutex
    | Preparing                                                   // mutex held
    | Checked                                                     // mutex held, device repair flag consumed
    | Parked(done: nat)                                           // cold reader waiting for a channel
    | DrainingDevices(first: bool, taken: nat, work: Work)        // mutex held
    | DrainingLinks(first: bool, taken: nat, work: Work)          // mutex held
    | Fetching(first: bool, work: Work)                           // window open
    | Fetched(first: bool, work: Work, outcome: Outcome)          // window open, wants the mutex
    | Applying(first: bool, work: Work)                           // window open, mutex held
    | Snapshotting(retry: bool, read: Option<seq<Device>>)        // window open
    // window open, wants the mutex
    | Snapshotted(retry: bool, allDevices: seq<Device>, allLinks: seq<Link>, outcome: Outcome)
    | Serving                                                     // mutex held, preparation succeeded

  predicate HoldsMutex(pc: Pc) {
    pc.Preparing? || pc.Checked? || pc.DrainingDevices? || pc.DrainingLinks? || pc.Applying? || pc.Serving?
  }

  predicate InWindow(pc: Pc) {
    pc.Fetching? || pc.Fetched? || pc.Applying? || pc.Snapshotting? || pc.Snapshotted?
  }

  /** The control fields next to the resident store. A channel is its creation number, and
      `closes` counts how often each was closed. */
  datatype Cache = Cache(store: Store, loaded: bool, needsFullReload: bool, refreshing: bool, refreshDone: nat,
    closes: seq<nat>)

  datatype Rows = Rows(devices: map<Id, Device>, links: map<Id, Link>)

  /** `incremental` says whether the repositories publish events; otherwise writers only raise
      `invalidated`. `published` is a history variable: the rows when a window last closed. */
  datatype State = State(
    devices: Source<Device>, links: Source<Link>, incremental: bool, invalidated: bool,
    cache: Cache, holder: Option<Thread>, pcs: map<Thread, Pc>, published: Rows)

  function At(s: State, t: Thread): Pc {
    if t in s.pcs then s.pcs[t] else Outside
  }

  function Resident(s: State): Rows {
    Rows(s.cache.store.devicesByID, s.cache.store.linksByID)
  }

  ghost predicate Init(s: State) {
    && Orderly(s.devices, DeviceId) && Orderly(s.links, LinkId)
    && s.devices.queue == [] && s.links.queue == []
    && (if s.incremental then !s.invalidated else !s.devices.repair && !s.links.repair)
    && s.cache == Cache(EMPTY, false, true, false, 0, [])
    && s.holder == None && s.pcs == map[] && s.published == Rows(map[], map[])
  }

  datatype Query = AllDevices(sortedDevices: seq<Device>) | AllLinks(sortedLinks: seq<Link>) | Lookup

  /** Entering, waiting and deciding what a call has to do. */
  datatype Gate = Enter | Lock | Prepare | Decide | Wake

  /** Taking events off the two queues. */
  datatype Drain = TakeDevice | StopDevices | TakeLink | StopLinks

  /** Reading the changed rows, and taking the mutex again. */
  datatype Read = ReadDevice(id: Id) | ReadLink(id: Id) | ReadsEnd(outcome: Outcome) | RelockChanges

  /** Applying the batch. */
  datatype Merge = ApplyDevice(id: Id) | ApplyLink(id: Id) | FinishApply

  /** Reading everything, and installing it. */
  datatype Full = ReadAllDevices(deviceRows: seq<Device>) | ReadAllLinks(linkRows: seq<Link>)
    | SnapshotBreaks(outcome: Outcome) | RelockSnapshot

  datatype Step =
    | WriteDevice(dw: Write<Device>)
    | WriteLink(lw: Write<Link>)
    | Gating(t: Thread, gate: Gate)
    | Draining(t: Thread, drain: Drain)
    | Reading(t: Thread, read: Read)
    | Merging(t: Thread, merge: Merge)
    | Reloading(t: Thread, full: Full)
    | Answering(t: Thread, query: Query)

  // ----- pieces of a step -----

  function Goto(s: State, t: Thread, pc: Pc): State {
    s.(pcs := s.pcs[t := pc])
  }

  /** `beginRefreshLocked` followed by releasing the mutex for the repository read. */
  function OpenWindow(s: State, t: Thread, pc: Pc): State {
    Goto(s, t, pc).(
      cache := s.cache.(refreshing := true, refreshDone := |s.cache.closes|, closes := s.cache.closes + [0]),
      holder := None)
  }

  /** The deferred `finish`: clears the marker and closes whatever channel the field now holds. */
  function CloseWindow(c: Cache): Cache {
    c.(refreshing := false,
       closes := if c.refreshDone < |c.closes| then c.closes[c.refreshDone := c.closes[c.refreshDone] + 1]
         else c.closes)
  }

  function Leave(s: State, t: Thread): State {
    Goto(s, t, Outside).(holder := None)
  }

  predicate AllRead(work: Work) {
    Wanted(work.devices) <= work.gotDevices.Keys && Wanted(work.links) <= work.gotLinks.Keys
  }

  function DeviceAction(work: Work, id: Id): Option<Device>
    requires id in work.devices && (work.devices[id] == Deleted || id in work.gotDevices)
  {
    if work.devices[id] == Deleted then None else Some(work.gotDevices[id])
  }

  function LinkAction(work: Work, id: Id): Option<Link>
    requires id in work.links && (work.links[id] == Deleted || id in work.gotLinks)
  {
    if work.links[id] == Deleted then None else Some(work.gotLinks[id])
  }

  // ----- enabling -----

  predicate CanGate(s: State, t: Thread, g: Gate) {
    match g
    case Enter => At(s, t).Outside?
    case Lock => At(s, t).Entering? && s.holder == None
    case Prepare => At(s, t).Preparing?
    case Decide => At(s, t).Checked?
    case Wake => At(s, t).Parked? && At(s, t).done < |s.cache.closes| && s.cache.closes[At(s, t).done] > 0
  }

  predicate CanDrain(s: State, t: Thread, d: Drain) {
    match d
    case TakeDevice => At(s, t).DrainingDevices? && At(s, t).taken < BATCH_LIMIT && s.devices.queue != []
    case StopDevices => At(s, t).DrainingDevices? && (At(s, t).taken >= BATCH_LIMIT || s.devices.queue == [])
    case TakeLink => At(s, t).DrainingLinks? && At(s, t).taken < BATCH_LIMIT && s.links.queue != []
    case StopLinks => At(s, t).DrainingLinks? && (At(s, t).taken >= BATCH_LIMIT || s.links.queue == [])
  }

  predicate CanRead(s: State, t: Thread, r: Read) {
    match r
    case ReadDevice(id) => At(s, t).Fetching? && id in Wanted(At(s, t).work.devices) - At(s, t).work.gotDevices.Keys
    case ReadLink(id) =>
      At(s, t).Fetching? && Wanted(At(s, t).work.devices) <= At(s, t).work.gotDevices.Keys
      && id in Wanted(At(s, t).work.links) - At(s, t).work.gotLinks.Keys
    case ReadsEnd(outcome) => At(s, t).Fetching? && (outcome.Fine? ==> AllRead(At(s, t).work))
    case RelockChanges => At(s, t).Fetched? && s.holder == None
  }

  predicate CanMerge(s: State, t: Thread, m: Merge) {
    match m
    case ApplyDevice(id) =>
      At(s, t).Applying? && id in At(s, t).work.devices
      && (At(s, t).work.devices[id] == Deleted || id in At(s, t).work.gotDevices)
    case ApplyLink(id) =>
      At(s, t).Applying? && At(s, t).work.devices == map[] && id in At(s, t).work.links
      && (At(s, t).work.links[id] == Deleted || id in At(s, t).work.gotLinks)
    case FinishApply => At(s, t).Applying? && At(s, t).work.devices == map[] && At(s, t).work.links == map[]
  }

  ghost predicate CanReload(s: State, t: Thread, f: Full) {
    match f
    case ReadAllDevices(rows) => At(s, t).Snapshotting? && At(s, t).read.None? && Lists(rows, s.devices.rows, DeviceId)
    case ReadAllLinks(rows) => At(s, t).Snapshotting? && At(s, t).read.Some? && Lists(rows, s.links.rows, LinkId)
    case SnapshotBreaks(outcome) => At(s, t).Snapshotting? && !outcome.Fine?
    case RelockSnapshot => At(s, t).Snapshotted? && s.holder == None
  }

  /** A list getter answers with the materialised list, rebuilt and sorted first if it is dirty. */
  ghost predicate CanAnswer(s: State, t: Thread, query: Query) {
    At(s, t).Serving?
    && match query
       case AllDevices(list) =>
         if s.cache.store.devicesDirty
         then Lists(list, s.cache.store.devicesByID, DeviceId) && Ascending(list, DeviceBefore)
         else list == s.cache.store.devices
       case AllLinks(list) =>
         if s.cache.store.linksDirty
         then Lists(list, s.cache.store.linksByID, LinkId) && Ascending(list, LinkBefore)
         else list == s.cache.store.links
       case Lookup => true
  }

  ghost predicate Enabled(s: State, step: Step) {
    match step
    case WriteDevice(w) => CanWrite(s.devices, w, DeviceId) && (w.Overflow? || w.Drop? ==> s.incremental)
    case WriteLink(w) => CanWrite(s.links, w, LinkId) && (w.Overflow? || w.Drop? ==> s.incremental)
    case Gating(t, g) => CanGate(s, t, g)
    case Draining(t, d) => CanDrain(s, t, d)
    case Reading(t, r) => CanRead(s, t, r)
    case Merging(t, m) => CanMerge(s, t, m)
    case Reloading(t, f) => CanReload(s, t, f)
    case Answering(t, query) => CanAnswer(s, t, query)
  }

  // ----- effects -----

  /** A writer step. Without a subscription, announcing a change only raises the invalidation
      signal. */
  ghost function DoWriteDevice(s: State, w: Write<Device>): State
    requires CanWrite(s.devices, w, DeviceId)
  {
    if w.Publish? && !s.incremental
    then s.(devices := s.devices.(unpublished := s.devices.unpublished - multiset{w.event}), invalidated := true)
    else s.(devices := Commit(s.devices, w, DeviceId))
  }

  ghost function DoWriteLink(s: State, w: Write<Link>): State
    requires CanWrite(s.links, w, LinkId)
  {
    if w.Publish? && !s.incremental
    then s.(links := s.links.(unpublished := s.links.unpublished - multiset{w.event}), invalidated := true)
    else s.(links := Commit(s.links, w, LinkId))
  }

  /** `prepareLocked` up to the link repair flag. */
  function DoPrepare(s: State, t: Thread): State {
    if s.cache.refreshing then
      if s.cache.loaded then Goto(s, t, Serving)
      else Goto(s, t, Parked(s.cache.refreshDone)).(holder := None)
    else if s.incremental then
      Goto(s, t, Checked).(
        devices := s.devices.(repair := false),
        cache := s.cache.(needsFullReload := s.cache.needsFullReload || s.devices.repair))
    else
      Goto(s, t, Checked).(
        invalidated := false,
        cache := s.cache.(needsFullReload := s.cache.needsFullReload || s.invalidated))
  }

  /** The rest of the decision: reload, apply events, or answer. */
  function DoDecide(s: State, t: Thread): State {
    var needs := s.cache.needsFullReload || (s.incremental && s.links.repair);
    var links := if s.incremental then s.links.(repair := false) else s.links;
    var u := s.(links := links, cache := s.cache.(needsFullReload := needs));
    if !s.cache.loaded || needs then OpenWindow(u, t, Snapshotting(false, None))
    else if s.incremental then Goto(u, t, DrainingDevices(false, 0, NO_WORK))
    else Goto(u, t, Serving)
  }

  function DoStopLinks(s: State, t: Thread, first: bool, work: Work): State {
    if work.devices == map[] && work.links == map[] then Goto(s, t, Serving)
    else OpenWindow(s, t, Fetching(first, work))
  }

  /** The mutex is taken again after the changed rows were read, or reading them went wrong. */
  function DoRelockChanges(s: State, t: Thread, first: bool, work: Work, outcome: Outcome): State {
    match outcome
    case Fine => Goto(s, t, Applying(first, work)).(holder := Some(t))
    case Failed =>
      var closed := s.(cache := CloseWindow(s.cache).(needsFullReload := true));
      if first then Leave(closed, t) else OpenWindow(closed, t, Snapshotting(true, None))
    case Panicked => Leave(s.(cache := CloseWindow(s.cache).(needsFullReload := true)), t)
  }

  /** The mutex is taken again after a full read, or it went wrong. */
  function DoRelockSnapshot(s: State, t: Thread, pc: Pc): State
    requires pc.Snapshotted?
  {
    match pc.outcome
    case Fine =>
      var store := Reload(pc.allDevices, pc.allLinks);
      var u := s.(cache := CloseWindow(s.cache).(store := store, loaded := true, needsFullReload := false),
                  published := Rows(store.devicesByID, store.linksByID), holder := Some(t));
      Goto(u, t, if pc.retry || !s.incremental then Serving else DrainingDevices(true, 0, NO_WORK))
    case Failed => Leave(s.(cache := CloseWindow(s.cache)), t)
    case Panicked => Leave(s.(cache := CloseWindow(s.cache).(needsFullReload := true)), t)
  }

  function DoServe(s: State, t: Thread, query: Query): State {
    var store :=
      match query
      case AllDevices(list) => s.cache.store.(devices := list, devicesDirty := false)
      case AllLinks(list) => s.cache.store.(links := list, linksDirty := false)
      case Lookup => s.cache.store;
    Leave(s.(cache := s.cache.(store := store)), t)
  }

  function DoGate(s: State, t: Thread, g: Gate): State
    requires CanGate(s, t, g)
  {
    match g
    case Enter => Goto(s, t, Entering)
    case Lock => Goto(s, t, Preparing).(holder := Some(t))
    case Prepare => DoPrepare(s, t)
    case Decide => DoDecide(s, t)
    case Wake => Goto(s, t, Entering)
  }

  function DoDrain(s: State, t: Thread, d: Drain): State
    requires CanDrain(s, t, d)
  {
    var pc := At(s, t);
    match d
    case TakeDevice =>
      var e := s.devices.queue[0];
      Goto(s, t, DrainingDevices(pc.first, pc.taken + 1, pc.work.(devices := pc.work.devices[e.id := e.kind])))
        .(devices := s.devices.(queue := s.devices.queue[1..]))
    case StopDevices => Goto(s, t, DrainingLinks(pc.first, 0, pc.work))
    case TakeLink =>
      var e := s.links.queue[0];
      Goto(s, t, DrainingLinks(pc.first, pc.taken + 1, pc.work.(links := pc.work.links[e.id := e.kind])))
        .(links := s.links.(queue := s.links.queue[1..]))
    case StopLinks => DoStopLinks(s, t, pc.first, pc.work)
  }

  function DoRead(s: State, t: Thread, r: Read): State
    requires CanRead(s, t, r)
  {
    var pc := At(s, t);
    match r
    case ReadDevice(id) =>
      if id in s.devices.rows
      then Goto(s, t, Fetching(pc.first, pc.work.(gotDevices := pc.work.gotDevices[id := s.devices.rows[id]])))
      else Goto(s, t, Fetched(pc.first, pc.work, Failed))
    case ReadLink(id) =>
      if id in s.links.rows
      then Goto(s, t, Fetching(pc.first, pc.work.(gotLinks := pc.work.gotLinks[id := s.links.rows[id]])))
      else Goto(s, t, Fetched(pc.first, pc.work, Failed))
    case ReadsEnd(outcome) => Goto(s, t, Fetched(pc.first, pc.work, outcome))
    case RelockChanges => DoRelockChanges(s, t, pc.first, pc.work, pc.outcome)
  }

  function DoMerge(s: State, t: Thread, m: Merge): State
    requires CanMerge(s, t, m)
  {
    var pc := At(s, t);
    match m
    case ApplyDevice(id) =>
      Goto(s, t, Applying(pc.first, pc.work.(devices := pc.work.devices - {id})))
        .(cache := s.cache.(store := ChangeDevice(s.cache.store, id, DeviceAction(pc.work, id))))
    case ApplyLink(id) =>
      Goto(s, t, Applying(pc.first, pc.work.(links := pc.work.links - {id})))
        .(cache := s.cache.(store := ChangeLink(s.cache.store, id, LinkAction(pc.work, id))))
    case FinishApply => Goto(s, t, Serving).(cache := CloseWindow(s.cache), published := Resident(s))
  }

  ghost function DoReload(s: State, t: Thread, f: Full): State
    requires CanReload(s, t, f)
  {
    var pc := At(s, t);
    match f
    case ReadAllDevices(rows) => Goto(s, t, Snapshotting(pc.retry, Some(rows)))
    case ReadAllLinks(rows) => Goto(s, t, Snapshotted(pc.retry, pc.read.value, rows, Fine))
    case SnapshotBreaks(outcome) => Goto(s, t, Snapshotted(pc.retry, [], [], outcome))
    case RelockSnapshot => DoRelockSnapshot(s, t, pc)
  }

  ghost function Next(s: State, step: Step): State
    requires Enabled(s, step)
  {
    match step
    case WriteDevice(w) => DoWriteDevice(s, w)
    case WriteLink(w) => DoWriteLink(s, w)
    case Gating(t, g) => DoGate(s, t, g)
    case Draining(t, d) => DoDrain(s, t, d)
    case Reading(t, r) => DoRead(s, t, r)
    case Merging(t, m) => DoMerge(s, t, m)
    case Reloading(t, f) => DoReload(s, t, f)
    case Answering(t, query) => DoServe(s, t, query)
  }

  // ----- runs -----

  ghost predicate Legal(s: State, steps: seq<Step>)
    decreases |steps|
  {
    steps == [] || (Enabled(s, steps[0]) && Legal(Next(s, steps[0]), steps[1..]))
  }

  ghost function Run(s: State, steps: seq<Step>): State
    requires Legal(s, steps)
    decreases |steps|
  {
    if steps == [] then s else Run(Next(s, steps[0]), steps[1..])
  }
}
