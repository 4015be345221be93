/** What every run of the refresh protocol guarantees to the callers of the cache. */
module CacheTheorems {
  import opened Basics
  import opened KeyIndex
  import opened CacheStore
  import opened ChangeFeed
  import opened CacheProtocol
  import opened CacheControl
  import opened CacheCoherence

  lemma GateKeepsKnowledge(s: State, t: Thread, g: Gate)
    requires Control(s) && Knowledge(s) && CanGate(s, t, g)
    ensures Knowledge(DoGate(s, t, g))
  {
    match g
    case Prepare => PrepareKeeps(s, t);
    case Decide => DecideKeeps(s, t);
    case _ =>
      var after := DoGate(s, t, g);
      IdlePositionsAreOk(after.devices, after.links, At(after, t), after.invalidated);
      HarmlessKeeps(s, after, t);
  }

  lemma DrainKeepsKnowledge(s: State, t: Thread, d: Drain)
    requires Control(s) && Knowledge(s) && CanDrain(s, t, d)
    ensures Knowledge(DoDrain(s, t, d))
  {
    match d
    case TakeDevice => TakeDeviceKeeps(s, t);
    case TakeLink => TakeLinkKeeps(s, t);
    case _ =>
      assert PcOk(s.devices, s.links, At(s, t), s.invalidated);
      StopDrainingIsHarmless(s, t, d);
      DrainMove(s, t, d);
      HarmlessKeeps(s, DoDrain(s, t, d), t);
  }

  lemma ReadKeepsKnowledge(s: State, t: Thread, r: Read)
    requires Control(s) && Knowledge(s) && CanRead(s, t, r)
    ensures Knowledge(DoRead(s, t, r))
  {
    assert PcOk(s.devices, s.links, At(s, t), s.invalidated);
    if r.RelockChanges? { RelockChangesIsHarmless(s, t); } else { ReadIsHarmless(s, t, r); }
    ReadMove(s, t, r);
    HarmlessKeeps(s, DoRead(s, t, r), t);
  }

  lemma MergeKeepsKnowledge(s: State, t: Thread, m: Merge)
    requires Control(s) && Knowledge(s) && CanMerge(s, t, m)
    ensures Knowledge(DoMerge(s, t, m))
  {
    match m
    case ApplyDevice(id) => ApplyKeepsFeed(s, t, m); ApplyDeviceKeeps(s, t, id);
    case ApplyLink(id) => ApplyKeepsFeed(s, t, m); ApplyLinkKeeps(s, t, id);
    case FinishApply =>
      FinishIsHarmless(s, t);
      MergeMove(s, t, m);
      HarmlessKeeps(s, DoMerge(s, t, m), t);
  }

  lemma ReloadKeepsKnowledge(s: State, t: Thread, f: Full)
    requires Control(s) && Knowledge(s) && CanReload(s, t, f)
    ensures Knowledge(DoReload(s, t, f))
  {
    assert PcOk(s.devices, s.links, At(s, t), s.invalidated);
    if f.RelockSnapshot? && At(s, t).outcome.Fine? {
      InstallKeeps(s, t);
    } else {
      if f.RelockSnapshot? { FailedSnapshotIsHarmless(s, t); } else { SnapshotIsHarmless(s, t, f); }
      ReloadMove(s, t, f);
      HarmlessKeeps(s, DoReload(s, t, f), t);
    }
  }

  lemma AnswerKeepsKnowledge(s: State, t: Thread, query: Query)
    requires Control(s) && Knowledge(s) && CanAnswer(s, t, query)
    ensures Knowledge(DoServe(s, t, query))
  {
    AnswerIsHarmless(s, t, query);
    AnswerKeepsConsistent(s, t, query);
    AnswerMove(s, t, query);
    HarmlessKeeps(s, DoServe(s, t, query), t);
  }

  lemma KnowledgeIsKept(s: State, step: Step)
    requires Control(s) && Knowledge(s) && Enabled(s, step)
    ensures Knowledge(Next(s, step))
  {
    match step
    case WriteDevice(w) => WriteDeviceKeeps(s, w);
    case WriteLink(w) => WriteLinkKeeps(s, w);
    case Gating(t, g) => GateKeepsKnowledge(s, t, g);
    case Draining(t, d) => DrainKeepsKnowledge(s, t, d);
    case Reading(t, r) => ReadKeepsKnowledge(s, t, r);
    case Merging(t, m) => MergeKeepsKnowledge(s, t, m);
    case Reloading(t, f) => ReloadKeepsKnowledge(s, t, f);
    case Answering(t, query) => AnswerKeepsKnowledge(s, t, query);
  }

  lemma {:induction false} RunKeeps(s: State, steps: seq<Step>)
    requires Control(s) && Knowledge(s) && Legal(s, steps)
    ensures Control(Run(s, steps)) && Knowledge(Run(s, steps))
    decreases |steps|
  {
    if steps != [] {
      ControlIsKept(s, steps[0]);
      KnowledgeIsKept(s, steps[0]);
      RunKeeps(Next(s, steps[0]), steps[1..]);
    }
  }

  /** In every run: every resident row is the committed one unless an event about it is on its way
      or a reload is owed, the indexes, adjacency and lists are consistent, at most one refresh
      window is open, and every channel but that window's has been closed exactly once. */
  lemma EveryRun(s: State, steps: seq<Step>)
    requires Init(s) && Legal(s, steps)
    ensures Coherent(Run(s, steps)) && Consistent(Run(s, steps).cache.store)
    ensures Locking(Run(s, steps)) && SingleFlight(Run(s, steps)) && Channels(Run(s, steps))
  {
    InitControl(s);
    InitKnowledge(s);
    RunKeeps(s, steps);
  }

  /** Nothing about committed writes is still on its way to the cache. */
  ghost predicate Quiet(s: State) {
    && s.devices.unpublished == multiset{} && s.devices.queue == [] && !s.devices.repair
    && s.links.unpublished == multiset{} && s.links.queue == [] && !s.links.repair
    && !s.invalidated
  }

  /** A call that is about to answer with no refresh under way and nothing on its way answers from
      exactly the committed rows. */
  lemma QuietAnswersAreCommitted(s: State, steps: seq<Step>, t: Thread)
    requires Init(s) && Legal(s, steps)
    requires At(Run(s, steps), t).Serving? && !Run(s, steps).cache.refreshing && Quiet(Run(s, steps))
    ensures Resident(Run(s, steps)) == Rows(Run(s, steps).devices.rows, Run(s, steps).links.rows)
  {
    InitControl(s);
    InitKnowledge(s);
    RunKeeps(s, steps);
    var f := Run(s, steps);
    assert f.holder == Some(t) && OwnRefresh(f, At(f, t)) && !Owed(f);
    assert forall u: Thread :: WorkOf(At(f, u)) == NO_WORK;
    forall id
      ensures Look(f.cache.store.devicesByID, id) == Look(f.devices.rows, id)
      ensures Look(f.cache.store.linksByID, id) == Look(f.links.rows, id)
    {
      assert Agrees(f.devices, f.cache.store.devicesByID, id) || DeviceInFlight(f, id);
      assert Agrees(f.links, f.cache.store.linksByID, id) || LinkInFlight(f, id);
    }
    SameLookups(f.cache.store.devicesByID, f.devices.rows);
    SameLookups(f.cache.store.linksByID, f.links.rows);
  }

  /** Whoever answers, in any interleaving, answers on a loaded cache and from the rows of the last
      window that closed: never from a half-applied batch. */
  lemma AnswersSeeAPublication(s: State, steps: seq<Step>, t: Thread)
    requires Init(s) && Legal(s, steps) && At(Run(s, steps), t).Serving?
    ensures Resident(Run(s, steps)) == Run(s, steps).published && Run(s, steps).cache.loaded
  {
    InitControl(s);
    InitKnowledge(s);
    RunKeeps(s, steps);
    var f := Run(s, steps);
    assert f.holder == Some(t);
    assert forall u: Thread :: At(f, u).Applying? ==> HoldsMutex(At(f, u));
  }

  /** A list answer holds every row of the last closed window once and nothing else. */
  lemma ListAnswersArePublished(s: State, steps: seq<Step>, t: Thread, devices: seq<Device>, links: seq<Link>)
    requires Init(s) && Legal(s, steps)
    ensures CanAnswer(Run(s, steps), t, AllDevices(devices))
            ==> Lists(devices, Run(s, steps).published.devices, DeviceId)
    ensures CanAnswer(Run(s, steps), t, AllLinks(links)) ==> Lists(links, Run(s, steps).published.links, LinkId)
  {
    EveryRun(s, steps);
    if At(Run(s, steps), t).Serving? { AnswersSeeAPublication(s, steps, t); }
  }

  /** With nothing on its way and no refresh open, a list answer is exactly the committed table. */
  lemma QuietListsAreCommitted(s: State, steps: seq<Step>, t: Thread, devices: seq<Device>, links: seq<Link>)
    requires Init(s) && Legal(s, steps) && !Run(s, steps).cache.refreshing && Quiet(Run(s, steps))
    ensures CanAnswer(Run(s, steps), t, AllDevices(devices)) ==> Lists(devices, Run(s, steps).devices.rows, DeviceId)
    ensures CanAnswer(Run(s, steps), t, AllLinks(links)) ==> Lists(links, Run(s, steps).links.rows, LinkId)
  {
    EveryRun(s, steps);
    if At(Run(s, steps), t).Serving? { QuietAnswersAreCommitted(s, steps, t); }
  }

  /** Thread `w` stays inside its refresh window in every state of the run. */
  ghost predicate StaysInWindow(s: State, steps: seq<Step>, w: Thread)
    requires Legal(s, steps)
    decreases |steps|
  {
    InWindow(At(s, w)) && (steps == [] || StaysInWindow(Next(s, steps[0]), steps[1..], w))
  }

  lemma PublicationsCloseWindows(s: State, step: Step, w: Thread)
    requires Control(s) && Enabled(s, step) && InWindow(At(s, w)) && InWindow(At(Next(s, step), w))
    ensures Next(s, step).published == s.published
  {
    if Writing(step) {
      WritesLeaveControl(s, step);
    } else {
      var p := At(s, step.t);
      if InWindow(p) {
        assert step.t == w;
        PublishingLeavesWindow(s, step);
      } else {
        assert Local(s, step.t);
        StepMoves(s, step);
      }
    }
  }

  lemma PublishingLeavesWindow(s: State, step: Step)
    requires Enabled(s, step) && !Writing(step)
    ensures Next(s, step).published == s.published || !InWindow(At(Next(s, step), step.t))
  {
    match step
    case Gating(t, g) => assert DoGate(s, t, g).published == s.published;
    case Draining(t, d) => assert DoDrain(s, t, d).published == s.published;
    case Reading(t, r) => assert DoRead(s, t, r).published == s.published;
    case Answering(t, query) => assert DoServe(s, t, query).published == s.published;
    case _ =>
  }

  lemma {:induction false} WindowKeepsPublication(s: State, steps: seq<Step>, w: Thread)
    requires Control(s) && Legal(s, steps) && StaysInWindow(s, steps, w)
    ensures Run(s, steps).published == s.published && Control(Run(s, steps))
    decreases |steps|
  {
    if steps != [] {
      PublicationsCloseWindows(s, steps[0], w);
      ControlIsKept(s, steps[0]);
      WindowKeepsPublication(Next(s, steps[0]), steps[1..], w);
    }
  }

  /** From the moment a window is open until its owner closes it, every reader is served the rows
      that were published when it was open, whatever else happens in between. */
  lemma ReadersInAWindowSeeOneSnapshot(s: State, before: seq<Step>, steps: seq<Step>, w: Thread, t: Thread)
    requires Init(s) && Legal(s, before) && Legal(Run(s, before), steps)
    requires StaysInWindow(Run(s, before), steps, w) && At(Run(Run(s, before), steps), t).Serving?
    ensures Resident(Run(Run(s, before), steps)) == Run(s, before).published
  {
    InitControl(s);
    InitKnowledge(s);
    RunKeeps(s, before);
    WindowKeepsPublication(Run(s, before), steps, w);
    var f := Run(Run(s, before), steps);
    assert f.holder == Some(t);
    assert forall u: Thread :: At(f, u).Applying? ==> HoldsMutex(At(f, u));
  }

  /** A cold reader is never left waiting on a channel nobody will close: if no window is open, it
      can go on. */
  lemma ParkedReadersAreReleased(s: State, steps: seq<Step>, t: Thread)
    requires Init(s) && Legal(s, steps)
    requires At(Run(s, steps), t).Parked? && !Run(s, steps).cache.refreshing
    ensures Enabled(Run(s, steps), Gating(t, Wake))
  {
    EveryRun(s, steps);
  }

  /** Step `i` installs a complete read of both tables. */
  ghost predicate Installs(s: State, steps: seq<Step>, i: nat) {
    && i < |steps| && steps[i].Reloading? && steps[i].full.RelockSnapshot? && Legal(s, steps[..i])
    && At(Run(s, steps[..i]), steps[i].t).Snapshotted? && At(Run(s, steps[..i]), steps[i].t).outcome.Fine?
  }

  lemma {:induction false} LoadingNeedsAnInstall(s: State, steps: seq<Step>)
    requires Control(s) && Legal(s, steps) && !s.cache.loaded && Run(s, steps).cache.loaded
    ensures exists i: nat :: Installs(s, steps, i)
    decreases |steps|
  {
    ControlIsKept(s, steps[0]);
    if Next(s, steps[0]).cache.loaded {
      assert steps[..0] == [];
      if Writing(steps[0]) {
        WritesLeaveControl(s, steps[0]);
      } else {
        OnlyInstallsLoad(s, steps[0]);
      }
      assert Installs(s, steps, 0);
    } else {
      LoadingNeedsAnInstall(Next(s, steps[0]), steps[1..]);
      var i: nat :| Installs(Next(s, steps[0]), steps[1..], i);
      assert steps[..i + 1][1..] == steps[1..][..i];
      assert Installs(s, steps, i + 1);
    }
  }

  lemma OnlyInstallsLoad(s: State, step: Step)
    requires Enabled(s, step) && !Writing(step) && !s.cache.loaded && Next(s, step).cache.loaded
    ensures step.Reloading? && step.full.RelockSnapshot? && At(s, step.t).outcome.Fine?
  {
  }

  /** Nobody is answered before a complete read has been installed. */
  lemma ColdReadersWaitForALoad(s: State, steps: seq<Step>, t: Thread)
    requires Init(s) && Legal(s, steps) && At(Run(s, steps), t).Serving?
    ensures exists i: nat :: Installs(s, steps, i)
  {
    InitControl(s);
    AnswersSeeAPublication(s, steps, t);
    LoadingNeedsAnInstall(s, steps);
  }
}
