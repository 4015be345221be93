/** Findability over whole runs: as long as the batches applied since the last reload keep key
    owners, every answer is given from complete indexes. */
module CacheFindability {
  import opened Basics
  import opened KeyIndex
  import opened CacheStore
  import opened ChangeFeed
  import opened CacheProtocol
  import opened CacheControl
  import opened CacheCoherence
  import opened CacheTheorems

  /** What a window still has to do to each table. */
  function DeviceActions(work: Work): map<Id, Option<Device>> {
    Actions(work.devices, work.gotDevices)
  }

  function LinkActions(work: Work): map<Id, Option<Link>> {
    Actions(work.links, work.gotLinks)
  }

  /** Which index can still be trusted. */
  datatype Trust = Trust(devices: bool, links: bool)

  predicate Starts(s: State, step: Step) {
    step.Reading? && step.read.RelockChanges? && At(s, step.t).Fetched? && At(s, step.t).outcome.Fine?
  }

  predicate InstallsAt(s: State, step: Step) {
    step.Reloading? && step.full.RelockSnapshot? && At(s, step.t).Snapshotted? && At(s, step.t).outcome.Fine?
  }

  /** A complete read restores trust; a batch in which a changed row gives up a key that some row
      holds afterwards ends it. */
  ghost function TrustNext(s: State, step: Step, trust: Trust): Trust {
    if InstallsAt(s, step) then Trust(true, true)
    else if Starts(s, step) then
      var work := At(s, step.t).work;
      Trust(trust.devices && KeysKeepOwners(s.cache.store.devicesByID, SysNameKey, DeviceActions(work)),
            trust.links && KeysKeepOwners(s.cache.store.linksByID, EndpointKey, LinkActions(work)))
    else trust
  }

  ghost function TrustAfter(s: State, steps: seq<Step>, trust: Trust): Trust
    requires Legal(s, steps)
    decreases |steps|
  {
    if steps == [] then trust else TrustAfter(Next(s, steps[0]), steps[1..], TrustNext(s, steps[0], trust))
  }

  // ----- invariant -----

  ghost predicate TableFindable<R, K>(table: Table<R, K>, key: R -> Option<K>, rest: map<Id, Option<R>>) {
    SettledBut(table, key, rest.Keys) && KeysKeepOwners(table.rows, key, rest)
  }

  ghost predicate DevicesFindable(s: State) {
    && (forall t: Thread :: At(s, t).Applying?
          ==> TableFindable(DeviceTable(s.cache.store), SysNameKey, DeviceActions(At(s, t).work)))
    && ((forall t: Thread :: !At(s, t).Applying?) ==> Complete(DeviceTable(s.cache.store), SysNameKey))
  }

  ghost predicate LinksFindable(s: State) {
    && (forall t: Thread :: At(s, t).Applying?
          ==> TableFindable(LinkTable(s.cache.store), EndpointKey, LinkActions(At(s, t).work)))
    && ((forall t: Thread :: !At(s, t).Applying?) ==> Complete(LinkTable(s.cache.store), EndpointKey))
  }

  ghost predicate Findable(s: State, trust: Trust) {
    (trust.devices ==> DevicesFindable(s)) && (trust.links ==> LinksFindable(s))
  }

  // ----- steps that leave the tables alone -----

  predicate SameTables(s: State, after: State) {
    DeviceTable(after.cache.store) == DeviceTable(s.cache.store)
      && LinkTable(after.cache.store) == LinkTable(s.cache.store)
  }

  lemma OtherStepsLeaveTables(s: State, step: Step)
    requires Enabled(s, step) && !Writing(step) && !step.Merging? && !InstallsAt(s, step)
    ensures SameTables(s, Next(s, step)) && (At(Next(s, step), step.t).Applying? ==> Starts(s, step))
    ensures !At(s, step.t).Applying?
  {
    match step
    case Gating(t, g) => assert SameTables(s, DoGate(s, t, g)) && !At(DoGate(s, t, g), t).Applying?;
    case Draining(t, d) => assert SameTables(s, DoDrain(s, t, d)) && !At(DoDrain(s, t, d), t).Applying?;
    case Reading(t, r) => ReadLeavesTables(s, t, r);
    case Reloading(t, f) => ReloadLeavesTables(s, t, f);
    case Answering(t, query) => assert SameTables(s, DoServe(s, t, query)) && At(DoServe(s, t, query), t) == Outside;
  }

  lemma ReadLeavesTables(s: State, t: Thread, r: Read)
    requires CanRead(s, t, r)
    ensures SameTables(s, DoRead(s, t, r)) && (At(DoRead(s, t, r), t).Applying? ==> Starts(s, Reading(t, r)))
  {
  }

  lemma ReloadLeavesTables(s: State, t: Thread, f: Full)
    requires CanReload(s, t, f) && !InstallsAt(s, Reloading(t, f))
    ensures SameTables(s, DoReload(s, t, f)) && !At(DoReload(s, t, f), t).Applying?
  {
  }

  lemma UnchangedKeepsFindable(s: State, step: Step, trust: Trust)
    requires Control(s) && Enabled(s, step) && !Writing(step) && !step.Merging? && !InstallsAt(s, step)
             && !Starts(s, step)
    requires Findable(s, trust)
    ensures Findable(Next(s, step), trust)
  {
    var after := Next(s, step);
    OtherStepsLeaveTables(s, step);
    assert Local(s, step.t);
    StepMoves(s, step);
    assert forall u: Thread :: At(after, u).Applying? ==> At(after, u) == At(s, u);
    assert forall u: Thread :: At(s, u).Applying? ==> At(after, u) == At(s, u);
  }

  // ----- the window of a batch -----

  lemma StartKeepsFindable(s: State, step: Step, trust: Trust)
    requires Control(s) && Enabled(s, step) && Starts(s, step) && Findable(s, trust)
    ensures Findable(Next(s, step), TrustNext(s, step, trust))
  {
    var t, after := step.t, Next(s, step);
    OtherStepsLeaveTables(s, step);
    assert forall u: Thread :: !At(s, u).Applying?;
    assert At(after, t) == Applying(At(s, t).first, At(s, t).work);
    assert forall u: Thread :: u != t ==> At(after, u) == At(s, u);
  }

  lemma ActionsShrink<R>(batch: map<Id, ChangeKind>, got: map<Id, R>, id: Id)
    ensures Actions(batch - {id}, got) == Actions(batch, got) - {id}
  {
  }

  lemma ApplyDeviceKeepsFindable(s: State, t: Thread, id: Id, trust: Trust)
    requires Control(s) && CanMerge(s, t, ApplyDevice(id)) && Findable(s, trust)
    requires WellKeyed(At(s, t).work.gotDevices, DeviceId)
    ensures Findable(DoMerge(s, t, ApplyDevice(id)), trust)
  {
    var after, work := DoMerge(s, t, ApplyDevice(id)), At(s, t).work;
    OnlyApplier(s, t, ApplyDevice(id));
    ActionsShrink(work.devices, work.gotDevices, id);
    if trust.devices { ChangeKeepsSettled(DeviceTable(s.cache.store), SysNameKey, DeviceActions(work), id); }
  }

  lemma ApplyLinkKeepsFindable(s: State, t: Thread, id: Id, trust: Trust)
    requires Control(s) && CanMerge(s, t, ApplyLink(id)) && Findable(s, trust)
    requires WellKeyed(At(s, t).work.gotLinks, LinkId)
    ensures Findable(DoMerge(s, t, ApplyLink(id)), trust)
  {
    var after, work := DoMerge(s, t, ApplyLink(id)), At(s, t).work;
    OnlyApplier(s, t, ApplyLink(id));
    ActionsShrink(work.links, work.gotLinks, id);
    LinkChangeIsTableChange(s.cache.store, id, LinkAction(work, id));
    if trust.links { ChangeKeepsSettled(LinkTable(s.cache.store), EndpointKey, LinkActions(work), id); }
  }

  lemma OnlyApplier(s: State, t: Thread, m: Merge)
    requires Control(s) && CanMerge(s, t, m)
    ensures forall u: Thread :: u != t ==> !At(s, u).Applying? && At(DoMerge(s, t, m), u) == At(s, u)
    ensures At(DoMerge(s, t, m), t).Applying? <==> !m.FinishApply?
  {
  }

  lemma FinishKeepsFindable(s: State, t: Thread, trust: Trust)
    requires Control(s) && CanMerge(s, t, FinishApply) && Findable(s, trust)
    ensures Findable(DoMerge(s, t, FinishApply), trust)
  {
    OnlyApplier(s, t, FinishApply);
    assert DeviceActions(At(s, t).work) == map[] && LinkActions(At(s, t).work) == map[];
  }

  lemma InstallIsFindable(s: State, step: Step)
    requires Control(s) && FeedOk(s) && Enabled(s, step) && InstallsAt(s, step)
    ensures Findable(Next(s, step), Trust(true, true))
  {
    var pc := At(s, step.t);
    assert PcOk(s.devices, s.links, pc, s.invalidated);
    LoadBuildsTable(pc.allDevices, SysNameKey, DeviceId);
    LoadBuildsTable(pc.allLinks, EndpointKey, LinkId);
    InstallShape(s, step.t);
    assert forall u: Thread :: !At(Next(s, step), u).Applying?;
  }

  // ----- runs -----

  lemma StepKeepsFindable(s: State, step: Step, trust: Trust)
    requires Control(s) && Knowledge(s) && Enabled(s, step) && Findable(s, trust)
    ensures Findable(Next(s, step), TrustNext(s, step, trust))
  {
    if Writing(step) {
      WritesLeaveControl(s, step);
      assert forall t: Thread :: At(Next(s, step), t) == At(s, t);
    } else if InstallsAt(s, step) {
      InstallIsFindable(s, step);
    } else if Starts(s, step) {
      StartKeepsFindable(s, step, trust);
    } else if step.Merging? {
      assert PcOk(s.devices, s.links, At(s, step.t), s.invalidated);
      match step.merge
      case ApplyDevice(id) => ApplyDeviceKeepsFindable(s, step.t, id, trust);
      case ApplyLink(id) => ApplyLinkKeepsFindable(s, step.t, id, trust);
      case FinishApply => FinishKeepsFindable(s, step.t, trust);
    } else {
      UnchangedKeepsFindable(s, step, trust);
    }
  }

  lemma {:induction false} RunKeepsFindable(s: State, steps: seq<Step>, trust: Trust)
    requires Control(s) && Knowledge(s) && Legal(s, steps) && Findable(s, trust)
    ensures Findable(Run(s, steps), TrustAfter(s, steps, trust))
    decreases |steps|
  {
    if steps != [] {
      StepKeepsFindable(s, steps[0], trust);
      ControlIsKept(s, steps[0]);
      KnowledgeIsKept(s, steps[0]);
      RunKeepsFindable(Next(s, steps[0]), steps[1..], TrustNext(s, steps[0], trust));
    }
  }

  /** In every run, whoever answers while an index is trusted answers from a complete one: every
      resident device can be found by its sysName, every resident link by its endpoints. */
  lemma TrustedAnswersFindEverything(s: State, steps: seq<Step>, t: Thread)
    requires Init(s) && Legal(s, steps) && At(Run(s, steps), t).Serving?
    ensures TrustAfter(s, steps, Trust(true, true)).devices
            ==> Complete(DeviceTable(Run(s, steps).cache.store), SysNameKey)
    ensures TrustAfter(s, steps, Trust(true, true)).links
            ==> Complete(LinkTable(Run(s, steps).cache.store), EndpointKey)
  {
    InitControl(s);
    InitKnowledge(s);
    RunKeeps(s, steps);
    RunKeepsFindable(s, steps, Trust(true, true));
    var f := Run(s, steps);
    assert f.holder == Some(t);
    assert forall u: Thread :: At(f, u).Applying? ==> HoldsMutex(At(f, u));
  }
}
