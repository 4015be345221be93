/** How calls end: where answers come from, what an error needs, how far a call can get, and that
    nothing is read again when nothing has changed. */
module CacheCompletion {
  import opened Basics
  import opened KeyIndex
  import opened CacheStore
  import opened ChangeFeed
  import opened CacheProtocol
  import opened CacheControl
  import opened CacheCoherence
  import opened CacheTheorems
  import opened CacheFreshness
  import opened CacheProgress

  // ----- where a step can lead -----

  /** A full read broke, or a read of changed rows panicked, or one failed in the pass that follows
      the call's own full reload. */
  predicate MayGiveUp(pc: Pc) {
    || (pc.Snapshotted? && !pc.outcome.Fine?)
    || (pc.Fetched? && pc.outcome.Panicked?)
    || (pc.Fetched? && pc.outcome.Failed? && pc.first)
  }

  /** The step is a repository failure with this outcome: a read that ends badly, or one of a row
      that is gone. */
  predicate Fails(s: State, step: Step, outcome: Outcome)
    requires !Writing(step)
  {
    || step == Reading(step.t, ReadsEnd(outcome))
    || (step.Reading? && step.read.ReadDevice? && step.read.id !in s.devices.rows && outcome.Failed?)
    || (step.Reading? && step.read.ReadLink? && step.read.id !in s.links.rows && outcome.Failed?)
    || step == Reloading(step.t, SnapshotBreaks(outcome))
  }

  predicate Broken(pc: Pc) {
    (pc.Fetched? || pc.Snapshotted?) && !pc.outcome.Fine?
  }

  /** The position belongs to the pass after a full reload. */
  predicate SecondPass(pc: Pc) {
    (pc.DrainingDevices? || pc.DrainingLinks? || pc.Fetching? || pc.Fetched? || pc.Applying?) && pc.first
  }

  predicate InstallsFor(s: State, step: Step, t: Thread) {
    step == Reloading(t, RelockSnapshot) && At(s, t).Snapshotted? && At(s, t).outcome.Fine?
  }

  /** The position from which a call may go on to answer: warm while another refreshes; without
      events and nothing owed; after a pass that found nothing, or applied everything it found; or
      after a full read that no pass has to follow. */
  predicate MayAnswer(s: State, pc: Pc) {
    || (pc.Preparing? && s.cache.refreshing && s.cache.loaded)
    || (pc.Checked? && !s.incremental && s.cache.loaded && !s.cache.needsFullReload)
    || (pc.DrainingLinks? && pc.work.devices == map[] && pc.work.links == map[])
    || (pc.Applying? && pc.work.devices == map[] && pc.work.links == map[])
    || (pc.Snapshotted? && pc.outcome.Fine? && (pc.retry || !s.incremental))
  }

  /** What has to precede each way of ending up. */
  predicate Lands(s: State, step: Step, after: Pc)
    requires !Writing(step)
  {
    var pc := At(s, step.t);
    && (after.Outside? ==> step.Answering? || MayGiveUp(pc))
    && (Broken(after) ==> Fails(s, step, after.outcome))
    && (SecondPass(after) ==> SecondPass(pc) || InstallsFor(s, step, step.t))
    && (after.Serving? ==> MayAnswer(s, pc))
    && (after.Parked? ==> pc.Preparing? && s.cache.refreshing && !s.cache.loaded)
  }

  lemma GateLands(s: State, t: Thread, g: Gate)
    requires CanGate(s, t, g)
    ensures Lands(s, Gating(t, g), At(DoGate(s, t, g), t))
  {
  }

  lemma DrainLands(s: State, t: Thread, d: Drain)
    requires CanDrain(s, t, d)
    ensures Lands(s, Draining(t, d), At(DoDrain(s, t, d), t))
  {
  }

  lemma ReadLands(s: State, t: Thread, r: Read)
    requires CanRead(s, t, r)
    ensures Lands(s, Reading(t, r), At(DoRead(s, t, r), t))
  {
  }

  lemma MergeLands(s: State, t: Thread, m: Merge)
    requires CanMerge(s, t, m)
    ensures Lands(s, Merging(t, m), At(DoMerge(s, t, m), t))
  {
  }

  lemma ReloadLands(s: State, t: Thread, f: Full)
    requires CanReload(s, t, f)
    ensures Lands(s, Reloading(t, f), At(DoReload(s, t, f), t))
  {
  }

  /** A call ends with an answer or from a position that excuses an error, takes nothing for a
      failure that the repository did not cause, answers only from where it may, and waits for
      another's refresh only when the cache is cold. */
  lemma StepLands(s: State, step: Step)
    requires Enabled(s, step) && !Writing(step)
    ensures Lands(s, step, At(Next(s, step), step.t))
  {
    match step
    case Gating(t, g) => GateLands(s, t, g);
    case Draining(t, d) => DrainLands(s, t, d);
    case Reading(t, r) => ReadLands(s, t, r);
    case Merging(t, m) => MergeLands(s, t, m);
    case Reloading(t, f) => ReloadLands(s, t, f);
    case Answering(t, query) => assert At(DoServe(s, t, query), t) == Outside;
  }

  // ----- ending without an answer -----

  /** Whether the call thread `t` is in has installed a full read of its own. */
  ghost function HasReloaded(s: State, steps: seq<Step>, t: Thread, before: bool): bool
    requires Legal(s, steps)
    decreases |steps|
  {
    if steps == [] then before
    else HasReloaded(Next(s, steps[0]), steps[1..], t, ReloadedNow(s, steps[0], t, before))
  }

  ghost predicate ReloadedNow(s: State, step: Step, t: Thread, before: bool)
    requires Enabled(s, step)
  {
    InstallsFor(s, step, t) || (before && !At(Next(s, step), t).Outside?)
  }

  lemma StepKeepsReloaded(s: State, step: Step, t: Thread, before: bool)
    requires Control(s) && Enabled(s, step) && (SecondPass(At(s, t)) ==> before)
    ensures SecondPass(At(Next(s, step), t)) ==> ReloadedNow(s, step, t, before)
  {
    if Writing(step) {
      WritesLeaveControl(s, step);
      assert At(Next(s, step), t) == At(s, t);
    } else if step.t == t {
      StepLands(s, step);
    } else {
      assert Local(s, step.t);
      StepMoves(s, step);
    }
  }

  lemma {:induction false} SecondPassFollowsReload(s: State, steps: seq<Step>, t: Thread, before: bool)
    requires Control(s) && Legal(s, steps) && (SecondPass(At(s, t)) ==> before)
    ensures SecondPass(At(Run(s, steps), t)) ==> HasReloaded(s, steps, t, before)
    decreases |steps|
  {
    if steps != [] {
      StepKeepsReloaded(s, steps[0], t, before);
      ControlIsKept(s, steps[0]);
      SecondPassFollowsReload(Next(s, steps[0]), steps[1..], t, ReloadedNow(s, steps[0], t, before));
    }
  }

  /** In every run a call that ends without an answer does so because a full read broke, a read of
      changed rows panicked, or such a read failed after the call had already installed a full read
      of its own. A failed incremental read alone never ends a call. */
  lemma ErrorsAreExcused(s: State, steps: seq<Step>, step: Step)
    requires Init(s) && Legal(s, steps) && Enabled(Run(s, steps), step) && !Writing(step) && !step.Answering?
    requires At(Next(Run(s, steps), step), step.t).Outside?
    ensures var pc := At(Run(s, steps), step.t);
            || (pc.Snapshotted? && !pc.outcome.Fine?)
            || (pc.Fetched? && pc.outcome.Panicked?)
            || (pc.Fetched? && pc.outcome.Failed? && HasReloaded(s, steps, step.t, false))
  {
    InitControl(s);
    StepLands(Run(s, steps), step);
    SecondPassFollowsReload(s, steps, step.t, false);
  }

  // ----- a call takes finitely many steps -----

  function Stage(pc: Pc): nat {
    match pc
    case Preparing => 13
    case Checked => 12
    case Snapshotting(retry, read) => (if retry then 3 else 10) + (if read.None? then 1 else 0)
    case Snapshotted(retry, _, _, _) => if retry then 2 else 9
    case DrainingDevices(_, _, _) => 8
    case DrainingLinks(_, _, _) => 7
    case Fetching(_, _) => 6
    case Fetched(_, _, _) => 5
    case Applying(_, _) => 1
    case _ => 0
  }

  /** What is left to do within a stage. */
  function Left(pc: Pc): int {
    match pc
    case DrainingDevices(_, taken, _) => BATCH_LIMIT - taken
    case DrainingLinks(_, taken, _) => BATCH_LIMIT - taken
    case Fetching(_, work) =>
      |Wanted(work.devices) - work.gotDevices.Keys| + |Wanted(work.links) - work.gotLinks.Keys|
    case Applying(_, work) => |work.devices| + |work.links|
    case _ => 0
  }

  predicate Below(after: Pc, before: Pc) {
    Stage(after) < Stage(before) || (Stage(after) == Stage(before) && 0 <= Left(after) < Left(before))
  }

  lemma OneFewer(a: set<Id>, b: set<Id>, id: Id)
    requires id in a - b
    ensures |a - (b + {id})| == |a - b| - 1
  {
    assert a - (b + {id}) == (a - b) - {id};
  }

  lemma OneFewerEntry<V>(m: map<Id, V>, id: Id)
    requires id in m
    ensures |m - {id}| == |m| - 1
  {
    assert (m - {id}).Keys == m.Keys - {id};
    assert |m| == |m.Keys| && |m - {id}| == |(m - {id}).Keys|;
  }

  /** One more row read. */
  lemma FetchingDescends(first: bool, work: Work, more: Work)
    requires more.devices == work.devices && more.links == work.links
    requires |Wanted(work.devices) - more.gotDevices.Keys| + |Wanted(work.links) - more.gotLinks.Keys|
             < |Wanted(work.devices) - work.gotDevices.Keys| + |Wanted(work.links) - work.gotLinks.Keys|
    ensures Below(Fetching(first, more), Fetching(first, work))
  {
  }

  lemma DeviceReadsDescend(s: State, t: Thread, id: Id)
    requires CanRead(s, t, ReadDevice(id)) && id in s.devices.rows
    ensures Below(At(DoRead(s, t, ReadDevice(id)), t), At(s, t))
  {
    var pc := At(s, t);
    var more := pc.work.(gotDevices := pc.work.gotDevices[id := s.devices.rows[id]]);
    assert At(DoRead(s, t, ReadDevice(id)), t) == Fetching(pc.first, more) && pc == Fetching(pc.first, pc.work);
    assert more.gotDevices.Keys == pc.work.gotDevices.Keys + {id};
    OneFewer(Wanted(pc.work.devices), pc.work.gotDevices.Keys, id);
    FetchingDescends(pc.first, pc.work, more);
  }

  lemma LinkReadsDescend(s: State, t: Thread, id: Id)
    requires CanRead(s, t, ReadLink(id)) && id in s.links.rows
    ensures Below(At(DoRead(s, t, ReadLink(id)), t), At(s, t))
  {
    var pc := At(s, t);
    var more := pc.work.(gotLinks := pc.work.gotLinks[id := s.links.rows[id]]);
    assert At(DoRead(s, t, ReadLink(id)), t) == Fetching(pc.first, more) && pc == Fetching(pc.first, pc.work);
    assert more.gotLinks.Keys == pc.work.gotLinks.Keys + {id};
    OneFewer(Wanted(pc.work.links), pc.work.gotLinks.Keys, id);
    FetchingDescends(pc.first, pc.work, more);
  }

  lemma ReadsDescend(s: State, t: Thread, r: Read)
    requires CanRead(s, t, r)
    ensures At(DoRead(s, t, r), t).Outside? || Below(At(DoRead(s, t, r), t), At(s, t))
  {
    if r.ReadDevice? && r.id in s.devices.rows {
      DeviceReadsDescend(s, t, r.id);
    } else if r.ReadLink? && r.id in s.links.rows {
      LinkReadsDescend(s, t, r.id);
    } else {
      assert At(DoRead(s, t, r), t).Outside? || Stage(At(DoRead(s, t, r), t)) < Stage(At(s, t));
    }
  }

  lemma GatesDescend(s: State, t: Thread, g: Gate)
    requires CanGate(s, t, g) && Engaged(s, t)
    ensures Stage(At(DoGate(s, t, g), t)) < Stage(At(s, t))
  {
  }

  lemma TakesCount(s: State, t: Thread, d: Drain)
    requires CanDrain(s, t, d) && (d.TakeDevice? || d.TakeLink?)
    ensures var pc, after := At(s, t), At(DoDrain(s, t, d), t);
            && pc.DrainingDevices? == after.DrainingDevices? == d.TakeDevice?
            && pc.DrainingLinks? == after.DrainingLinks? == d.TakeLink?
            && after.first == pc.first && after.taken == pc.taken + 1 <= BATCH_LIMIT
  {
  }

  lemma TakesDescend(s: State, t: Thread, d: Drain)
    requires CanDrain(s, t, d) && (d.TakeDevice? || d.TakeLink?)
    ensures Below(At(DoDrain(s, t, d), t), At(s, t))
  {
    TakesCount(s, t, d);
    CountingDescends(At(s, t), At(DoDrain(s, t, d), t));
  }

  lemma CountingDescends(pc: Pc, after: Pc)
    requires (pc.DrainingDevices? && after.DrainingDevices?) || (pc.DrainingLinks? && after.DrainingLinks?)
    requires after.taken == pc.taken + 1 <= BATCH_LIMIT
    ensures Below(after, pc)
  {
  }

  lemma StopsDescend(s: State, t: Thread, d: Drain)
    requires CanDrain(s, t, d) && (d.StopDevices? || d.StopLinks?)
    ensures Stage(At(DoDrain(s, t, d), t)) < Stage(At(s, t))
  {
  }

  lemma ApplyingDescends(pc: Pc, after: Pc)
    requires pc.Applying? && after.Applying?
    requires |after.work.devices| + |after.work.links| < |pc.work.devices| + |pc.work.links|
    ensures Below(after, pc)
  {
  }

  lemma ApplyDescends(s: State, t: Thread, m: Merge)
    requires CanMerge(s, t, m) && !m.FinishApply?
    ensures Below(At(DoMerge(s, t, m), t), At(s, t))
  {
    var work := At(s, t).work;
    ApplyShape(s, t, m);
    if m.ApplyDevice? { OneFewerEntry(work.devices, m.id); } else { OneFewerEntry(work.links, m.id); }
    ApplyingDescends(At(s, t), At(DoMerge(s, t, m), t));
  }

  lemma FinishDescends(s: State, t: Thread)
    requires CanMerge(s, t, FinishApply)
    ensures Stage(At(DoMerge(s, t, FinishApply), t)) < Stage(At(s, t))
  {
    assert At(DoMerge(s, t, FinishApply), t) == Serving;
  }

  /** Every step of its own brings a call that has the mutex or a window nearer to its end, whatever
      writers and other callers do in between: it cannot go on for ever. */
  lemma OwnStepsDescend(s: State, step: Step)
    requires Enabled(s, step) && !Writing(step) && Engaged(s, step.t) && !At(s, step.t).Serving?
    ensures var after := At(Next(s, step), step.t); after.Outside? || Below(after, At(s, step.t))
  {
    match step
    case Gating(t, g) => GatesDescend(s, t, g);
    case Draining(t, d) => if d.TakeDevice? || d.TakeLink? { TakesDescend(s, t, d); } else { StopsDescend(s, t, d); }
    case Reading(t, r) => ReadsDescend(s, t, r);
    case Merging(t, m) => if m.FinishApply? { FinishDescends(s, t); } else { ApplyDescends(s, t, m); }
    case Reloading(t, f) => ReloadsDescend(s, t, f);
    case Answering(t, query) =>
  }

  lemma ReloadsDescend(s: State, t: Thread, f: Full)
    requires CanReload(s, t, f)
    ensures At(DoReload(s, t, f), t).Outside? || Below(At(DoReload(s, t, f), t), At(s, t))
  {
  }

  // ----- a call can be completed -----

  /** The call has been answered, or met a row that is gone in the pass after its own reload. */
  predicate Completed(pc: Pc) {
    pc.Serving? || (pc.Fetched? && pc.first && pc.outcome.Failed?)
  }

  ghost predicate OwnSteps(steps: seq<Step>, t: Thread) {
    forall i :: 0 <= i < |steps| ==> !Writing(steps[i]) && steps[i].t == t && Proceeds(steps[i])
  }

  /** A failure has already decided that the call ends in an error. */
  predicate Doomed(pc: Pc) {
    (pc.Snapshotted? && !pc.outcome.Fine?) || (pc.Fetched? && pc.outcome.Panicked?)
  }

  lemma OwnStepLeads(s: State, step: Step, t: Thread)
    requires Control(s) && Enabled(s, step) && !Writing(step) && step.t == t && Proceeds(step) && Engaged(s, t)
    requires !Completed(At(s, t)) && !Doomed(At(s, t)) && (s.holder == None || s.holder == Some(t))
    ensures var after := Next(s, step);
            && Engaged(after, t) && !Doomed(At(after, t)) && (after.holder == None || after.holder == Some(t))
            && Below(At(after, t), At(s, t))
  {
    assert Local(s, t);
    StepMoves(s, step);
    StepLands(s, step);
    OwnStepsDescend(s, step);
    StaysUnderway(s, step);
  }

  lemma ReadsStayComplete(s: State, step: Step)
    requires Control(s) && BatchesAreRead(s) && Enabled(s, step) && !Writing(step)
    ensures BatchesAreRead(Next(s, step))
  {
    ActorKeepsReads(s, step);
    assert Local(s, step.t);
    StepMoves(s, step);
  }

  lemma NextOwnStep(s: State, t: Thread) returns (step: Step)
    requires Control(s) && Knowledge(s) && BatchesAreRead(s) && Engaged(s, t) && !Completed(At(s, t))
    requires s.holder == None || s.holder == Some(t)
    ensures Enabled(s, step) && !Writing(step) && step.t == t && Proceeds(step)
  {
    assert HoldsMutex(At(s, t)) <==> s.holder == Some(t);
    if HoldsMutex(At(s, t)) { step := HolderCanGoOn(s, t); } else { step := RefresherCanGoOn(s, t); }
  }

  ghost predicate CanGoOn(s: State, t: Thread) {
    && Control(s) && Knowledge(s) && BatchesAreRead(s) && Engaged(s, t) && !Doomed(At(s, t))
    && (s.holder == None || s.holder == Some(t))
  }

  lemma StepTowardsEnd(s: State, t: Thread) returns (step: Step)
    requires CanGoOn(s, t) && !Completed(At(s, t))
    ensures Enabled(s, step) && !Writing(step) && step.t == t && Proceeds(step)
    ensures CanGoOn(Next(s, step), t) && Below(At(Next(s, step), t), At(s, t))
  {
    step := NextOwnStep(s, t);
    OwnStepLeads(s, step, t);
    ControlIsKept(s, step);
    KnowledgeIsKept(s, step);
    ReadsStayComplete(s, step);
  }

  lemma OneStepMore(s: State, step: Step, rest: seq<Step>, t: Thread)
    requires Enabled(s, step) && !Writing(step) && step.t == t && Proceeds(step)
    requires Legal(Next(s, step), rest) && OwnSteps(rest, t)
    ensures Legal(s, [step] + rest) && OwnSteps([step] + rest, t) && Run(s, [step] + rest) == Run(Next(s, step), rest)
  {
    var steps := [step] + rest;
    assert steps[0] == step && steps[1..] == rest;
    assert forall i :: 0 < i < |steps| ==> steps[i] == rest[i - 1];
  }

  lemma CallCanFinish(s: State, t: Thread) returns (steps: seq<Step>)
    requires CanGoOn(s, t)
    ensures Legal(s, steps) && OwnSteps(steps, t) && Completed(At(Run(s, steps), t))
    decreases Stage(At(s, t)), Left(At(s, t))
  {
    if Completed(At(s, t)) {
      steps := [];
    } else {
      var step := StepTowardsEnd(s, t);
      var rest := CallCanFinish(Next(s, step), t);
      OneStepMore(s, step, rest, t);
      steps := [step] + rest;
    }
  }

  /** From every reachable state, a call that has the mutex, or a window and the mutex is free, can
      go on by itself to its answer, unless a row is gone in the pass after its own reload: no
      failed incremental read stands in its way. */
  lemma EveryCallCanFinish(s: State, before: seq<Step>, t: Thread) returns (steps: seq<Step>)
    requires Init(s) && Legal(s, before) && Engaged(Run(s, before), t) && !Doomed(At(Run(s, before), t))
    requires Run(s, before).holder == None || Run(s, before).holder == Some(t)
    ensures Legal(Run(s, before), steps) && OwnSteps(steps, t)
    ensures var pc := At(Run(Run(s, before), steps), t); pc.Serving? || (pc.Fetched? && pc.first && pc.outcome.Failed?)
  {
    InitControl(s);
    InitKnowledge(s);
    RunKeeps(s, before);
    RunKeepsReads(s, before);
    steps := CallCanFinish(Run(s, before), t);
  }

  predicate Underway(pc: Pc) {
    Deciding(pc) || InWindow(pc) || pc.Serving?
  }

  lemma StaysUnderway(s: State, step: Step)
    requires Enabled(s, step) && !Writing(step) && Engaged(s, step.t)
    ensures var after := At(Next(s, step), step.t); Underway(after) || after.Outside?
  {
    match step
    case Gating(t, g) => assert Underway(At(DoGate(s, t, g), t));
    case Draining(t, d) => assert Underway(At(DoDrain(s, t, d), t));
    case Reading(t, r) => assert Underway(At(DoRead(s, t, r), t)) || At(DoRead(s, t, r), t).Outside?;
    case Merging(t, m) => assert Underway(At(DoMerge(s, t, m), t));
    case Reloading(t, f) => assert Underway(At(DoReload(s, t, f), t)) || At(DoReload(s, t, f), t).Outside?;
    case Answering(t, query) => assert At(DoServe(s, t, query), t) == Outside;
  }

  // ----- nothing is read again when nothing has changed -----

  /** Nothing is announced, lost or owed. */
  predicate Idle(s: State) {
    && s.cache.loaded && !s.cache.needsFullReload && !s.cache.refreshing
    && s.devices.queue == [] && s.links.queue == [] && !s.devices.repair && !s.links.repair && !s.invalidated
  }

  /** A call on an idle cache answers without opening a window: four steps, no read, and nothing
      changed but its own position. */
  lemma IdleCallsReadNothing(s: State, t: Thread)
    requires Idle(s) && At(s, t).Preparing? && s.incremental
    ensures var steps := [Gating(t, Prepare), Gating(t, Decide), Draining(t, StopDevices), Draining(t, StopLinks)];
            Legal(s, steps) && Run(s, steps) == Goto(s, t, Serving)
  {
    var steps := [Gating(t, Prepare), Gating(t, Decide), Draining(t, StopDevices), Draining(t, StopLinks)];
    var checked, draining := Goto(s, t, Checked), Goto(s, t, DrainingDevices(false, 0, NO_WORK));
    var linking := Goto(s, t, DrainingLinks(false, 0, NO_WORK));
    assert Next(s, steps[0]) == checked;
    assert Next(checked, steps[1]) == draining;
    assert Next(draining, steps[2]) == linking;
    assert Next(linking, steps[3]) == Goto(s, t, Serving);
    InFourSteps(s, steps, checked, draining, linking);
  }

  lemma InFourSteps(s: State, steps: seq<Step>, a: State, b: State, c: State)
    requires |steps| == 4 && Enabled(s, steps[0]) && Next(s, steps[0]) == a && Enabled(a, steps[1])
             && Next(a, steps[1]) == b
    requires Enabled(b, steps[2]) && Next(b, steps[2]) == c && Enabled(c, steps[3])
    ensures Legal(s, steps) && Run(s, steps) == Next(c, steps[3])
  {
    var one, two, three := steps[1..], steps[2..], steps[3..];
    assert one[1..] == two && two[1..] == three && three[1..] == [];
    assert Legal(c, three) && Run(c, three) == Next(c, steps[3]);
    assert Legal(b, two) && Run(b, two) == Run(c, three);
    assert Legal(a, one) && Run(a, one) == Run(b, two);
  }

  /** Whatever asks for a full reload is used up by asking: the window is open and the flags are
      clear, so only new trouble asks again. */
  lemma ReloadIsAskedForOnce(s: State, t: Thread)
    requires At(s, t).Preparing? && !s.cache.refreshing && ModeOk(s)
    requires !s.cache.loaded || s.cache.needsFullReload || s.devices.repair || s.links.repair || s.invalidated
    ensures var checked := Next(s, Gating(t, Prepare));
            var after := Next(checked, Gating(t, Decide));
            && At(after, t) == Snapshotting(false, None) && after.cache.refreshing && after.holder == None
            && !after.devices.repair && !after.links.repair && !after.invalidated
  {
  }
}
