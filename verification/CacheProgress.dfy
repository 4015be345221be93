/** Progress: no reachable state leaves a getter call waiting for something nobody can do. */
module CacheProgress {
  import opened Basics
  import opened KeyIndex
  import opened CacheStore
  import opened ChangeFeed
  import opened CacheProtocol
  import opened CacheControl
  import opened CacheCoherence
  import opened CacheTheorems

  // ----- a batch is only applied when all of it was read -----

  predicate ReadsComplete(pc: Pc) {
    pc.Applying? || (pc.Fetched? && pc.outcome.Fine?) ==> AllRead(pc.work)
  }

  ghost predicate BatchesAreRead(s: State) {
    forall t: Thread :: ReadsComplete(At(s, t))
  }

  lemma ReadKeepsReads(s: State, t: Thread, r: Read)
    requires CanRead(s, t, r) && ReadsComplete(At(s, t))
    ensures ReadsComplete(At(DoRead(s, t, r), t))
  {
  }

  lemma MergeKeepsReads(s: State, t: Thread, m: Merge)
    requires CanMerge(s, t, m) && ReadsComplete(At(s, t))
    ensures ReadsComplete(At(DoMerge(s, t, m), t))
  {
    if m.ApplyDevice? { assert Wanted(At(s, t).work.devices - {m.id}) <= Wanted(At(s, t).work.devices); }
    if m.ApplyLink? { assert Wanted(At(s, t).work.links - {m.id}) <= Wanted(At(s, t).work.links); }
  }

  lemma ActorKeepsReads(s: State, step: Step)
    requires Enabled(s, step) && !Writing(step) && ReadsComplete(At(s, step.t))
    ensures ReadsComplete(At(Next(s, step), step.t))
  {
    match step
    case Gating(t, g) => var after := DoGate(s, t, g); assert !At(after, t).Applying? && !At(after, t).Fetched?;
    case Draining(t, d) => var after := DoDrain(s, t, d); assert !At(after, t).Applying? && !At(after, t).Fetched?;
    case Reading(t, r) => ReadKeepsReads(s, t, r);
    case Merging(t, m) => MergeKeepsReads(s, t, m);
    case Reloading(t, f) => var after := DoReload(s, t, f); assert !At(after, t).Applying? && !At(after, t).Fetched?;
    case Answering(t, query) => assert At(DoServe(s, t, query), t) == Outside;
  }

  lemma {:induction false} RunKeepsReads(s: State, steps: seq<Step>)
    requires Control(s) && Legal(s, steps) && BatchesAreRead(s)
    ensures BatchesAreRead(Run(s, steps))
    decreases |steps|
  {
    if steps != [] {
      var after := Next(s, steps[0]);
      if Writing(steps[0]) {
        WritesLeaveControl(s, steps[0]);
        assert forall t: Thread :: At(after, t) == At(s, t);
      } else {
        ActorKeepsReads(s, steps[0]);
        assert Local(s, steps[0].t);
        StepMoves(s, steps[0]);
      }
      ControlIsKept(s, steps[0]);
      RunKeepsReads(after, steps[1..]);
    }
  }

  // ----- somebody can go on -----

  /** A step of a call under way that is neither a failure nor a new call. */
  predicate Proceeds(step: Step) {
    && !Writing(step) && step != Gating(step.t, Enter)
    && (step.Reading? && step.read.ReadsEnd? ==> step.read.outcome.Fine?)
    && !(step.Reloading? && step.full.SnapshotBreaks?)
  }

  /** Every table has a listing. */
  lemma AListingExists<R(!new)>(rows: map<Id, R>, idOf: R -> Id) returns (list: seq<R>)
    requires WellKeyed(rows, idOf)
    ensures Lists(list, rows, idOf)
  {
    var order := AnOrderExists(rows.Keys);
    assert forall i :: 0 <= i < |order| ==> order[i] in order;
    list := seq(|order|, i requires 0 <= i < |order| => rows[order[i]]);
    forall row
      ensures row in list <==> idOf(row) in rows && rows[idOf(row)] == row
    {
      if idOf(row) in rows && rows[idOf(row)] == row {
        assert idOf(row) in order;
        var i :| 0 <= i < |order| && order[i] == idOf(row);
        assert list[i] == row;
      }
    }
  }

  lemma HolderCanGoOn(s: State, t: Thread) returns (step: Step)
    requires HoldsMutex(At(s, t)) && ReadsComplete(At(s, t))
    ensures Enabled(s, step) && Proceeds(step) && step.t == t && (step.Answering? ==> At(s, t).Serving?)
  {
    match At(s, t)
    case Preparing => step := Gating(t, Prepare);
    case Checked => step := Gating(t, Decide);
    case DrainingDevices(_, taken, _) => step := Draining(t, if taken < BATCH_LIMIT && s.devices.queue != []
      then TakeDevice else StopDevices);
    case DrainingLinks(_, taken, _) => step := Draining(t, if taken < BATCH_LIMIT && s.links.queue != [] then TakeLink
      else StopLinks);
    case Applying(_, work) =>
      if work.devices != map[] {
        var id :| id in work.devices;
        assert work.devices[id] != Deleted ==> id in Wanted(work.devices);
        step := Merging(t, ApplyDevice(id));
      } else if work.links != map[] {
        var id :| id in work.links;
        assert work.links[id] != Deleted ==> id in Wanted(work.links);
        step := Merging(t, ApplyLink(id));
      } else {
        step := Merging(t, FinishApply);
      }
    case _ => step := Answering(t, Lookup);
  }

  lemma RefresherCanGoOn(s: State, t: Thread) returns (step: Step)
    requires s.holder == None && InWindow(At(s, t)) && !At(s, t).Applying?
    requires WellKeyed(s.devices.rows, DeviceId) && WellKeyed(s.links.rows, LinkId)
    ensures Enabled(s, step) && Proceeds(step) && step.t == t && !step.Answering?
  {
    match At(s, t)
    case Fetching(_, work) =>
      if !(Wanted(work.devices) <= work.gotDevices.Keys) {
        var id :| id in Wanted(work.devices) && id !in work.gotDevices.Keys;
        step := Reading(t, ReadDevice(id));
      } else if !(Wanted(work.links) <= work.gotLinks.Keys) {
        var id :| id in Wanted(work.links) && id !in work.gotLinks.Keys;
        step := Reading(t, ReadLink(id));
      } else {
        step := Reading(t, ReadsEnd(Fine));
      }
    case Fetched(_, _, _) => step := Reading(t, RelockChanges);
    case Snapshotting(_, read) =>
      if read.None? {
        var list := AListingExists(s.devices.rows, DeviceId);
        step := Reloading(t, ReadAllDevices(list));
      } else {
        var list := AListingExists(s.links.rows, LinkId);
        step := Reloading(t, ReadAllLinks(list));
      }
    case _ => step := Reloading(t, RelockSnapshot);
  }

  /** In every reachable state with a call under way, some call can take a step that is not a
      failure: the mutex, the refresh marker and the channels never deadlock. */
  lemma NobodyIsStuck(s: State, steps: seq<Step>, t: Thread) returns (step: Step)
    requires Init(s) && Legal(s, steps) && !At(Run(s, steps), t).Outside?
    ensures Enabled(Run(s, steps), step) && Proceeds(step)
  {
    InitControl(s);
    InitKnowledge(s);
    RunKeeps(s, steps);
    RunKeepsReads(s, steps);
    step := SomebodyGoesOn(Run(s, steps), t);
  }

  lemma SomebodyGoesOn(s: State, t: Thread) returns (step: Step)
    requires Locking(s) && SingleFlight(s) && Channels(s) && BatchesAreRead(s) && !At(s, t).Outside?
    requires Orderly(s.devices, DeviceId) && Orderly(s.links, LinkId)
    ensures Enabled(s, step) && Proceeds(step)
  {
    if s.holder.Some? {
      step := HolderCanGoOn(s, s.holder.value);
    } else if s.cache.refreshing {
      var u: Thread :| InWindow(At(s, u));
      step := RefresherCanGoOn(s, u);
    } else {
      step := Gating(t, if At(s, t).Entering? then Lock else Wake);
    }
  }
}
