/** Control of the refresh protocol: mutual exclusion, single flight, channel discipline and
    snapshot isolation, in every run. */
module CacheControl {
  import opened Basics
  import opened CacheStore
  import opened ChangeFeed
  import opened CacheProtocol

  /** The mutex is held by exactly the thread whose position says so. */
  ghost predicate Locking(s: State) {
    forall t: Thread :: HoldsMutex(At(s, t)) <==> s.holder == Some(t)
  }

  predicate Deciding(pc: Pc) {
    pc.Checked? || pc.DrainingDevices? || pc.DrainingLinks?
  }

  /** At most one refresh window is open, the marker says whether one is, and nobody decides or
      drains while one is open. */
  ghost predicate SingleFlight(s: State) {
    && (forall t: Thread, u: Thread :: InWindow(At(s, t)) && InWindow(At(s, u)) ==> t == u)
    && (forall t: Thread :: InWindow(At(s, t)) ==> s.cache.refreshing)
    && (s.cache.refreshing ==> exists t: Thread :: InWindow(At(s, t)))
    && (forall t: Thread :: Deciding(At(s, t)) ==> !s.cache.refreshing)
  }

  /** Every channel ever made is closed exactly once, except that of the open window, which is
      still open and is the one the field holds. */
  ghost predicate Channels(s: State) {
    && (s.cache.refreshing ==> s.cache.refreshDone + 1 == |s.cache.closes|)
    && (forall i :: 0 <= i < |s.cache.closes| ==>
          s.cache.closes[i] == if s.cache.refreshing && i == |s.cache.closes| - 1 then 0 else 1)
    && (forall t: Thread :: At(s, t).Parked? ==> At(s, t).done < |s.cache.closes|)
  }

  predicate NeedsLoaded(pc: Pc) {
    pc.Serving? || pc.DrainingDevices? || pc.DrainingLinks? || pc.Fetching? || pc.Fetched? || pc.Applying?
  }

  /** Answers and incremental refreshes only happen on a loaded cache, and a full read is only
      under way while it is owed. */
  ghost predicate LoadFlags(s: State) {
    && (forall t: Thread :: NeedsLoaded(At(s, t)) ==> s.cache.loaded)
    && (forall t: Thread :: At(s, t).Snapshotting? || At(s, t).Snapshotted?
          ==> !s.cache.loaded || s.cache.needsFullReload)
    && (forall t: Thread :: OwnRefresh(s, At(s, t)) ==> !s.cache.needsFullReload)
  }

  /** The call is in, or has just completed, a refresh of its own. */
  predicate OwnRefresh(s: State, pc: Pc) {
    NeedsLoaded(pc) && (pc.Serving? ==> !s.cache.refreshing)
  }

  /** Unless a batch is being applied, the resident rows are those of the last closed window. */
  ghost predicate Isolated(s: State) {
    (forall t: Thread :: !At(s, t).Applying?) ==> Resident(s) == s.published
  }

  ghost predicate Control(s: State) {
    Locking(s) && SingleFlight(s) && Channels(s) && LoadFlags(s) && Isolated(s)
  }

  lemma InitControl(s: State)
    requires Init(s)
    ensures Control(s)
  {
  }

  predicate Writing(step: Step) {
    step.WriteDevice? || step.WriteLink?
  }

  // ----- what one step of a thread does to the control state -----

  /** What the invariants say about the acting thread. */
  ghost predicate Local(s: State, t: Thread) {
    var pc := At(s, t);
    && (HoldsMutex(pc) ==> s.holder == Some(t))
    && (InWindow(pc) ==> s.cache.refreshing && s.cache.refreshDone + 1 == |s.cache.closes|)
    && (Deciding(pc) ==> !s.cache.refreshing)
    && (NeedsLoaded(pc) ==> s.cache.loaded)
    && (pc.Snapshotting? || pc.Snapshotted? ==> !s.cache.loaded || s.cache.needsFullReload)
    && (OwnRefresh(s, pc) ==> !s.cache.needsFullReload)
  }

  predicate Closing(before: Pc, after: Pc) {
    InWindow(before) && (!InWindow(after) || (before.Fetched? && after.Snapshotting?))
  }

  predicate Opening(before: Pc, after: Pc) {
    InWindow(after) && (!InWindow(before) || (before.Fetched? && after.Snapshotting?))
  }

  /** The mutex is taken only when free and the marker set only when clear; a window closes its own
      channel once and opens a fresh one. */
  ghost predicate GateMoves(s: State, after: State, t: Thread) {
    var c, p, q := s.cache, At(s, t), At(after, t);
    && after.holder == (if HoldsMutex(q) then Some(t) else if HoldsMutex(p) then None else s.holder)
    && (HoldsMutex(q) && !HoldsMutex(p) ==> s.holder == None)
    && after.cache.refreshing == (InWindow(q) || (c.refreshing && !InWindow(p)))
    && (InWindow(q) && !InWindow(p) ==> !c.refreshing && HoldsMutex(p))
    && (Deciding(q) ==> !after.cache.refreshing)
    && (Closing(p, q) ==> c.refreshDone < |c.closes| && (HoldsMutex(p) || s.holder == None))
    && after.cache.refreshDone == (if Opening(p, q) then |c.closes| else c.refreshDone)
    && (var closed := if Closing(p, q) then c.closes[c.refreshDone := c.closes[c.refreshDone] + 1] else c.closes;
        && after.cache.closes == (if Opening(p, q) then closed + [0] else closed)
        && (q.Parked? ==> q == p || (c.refreshing && q.done == c.refreshDone && closed == c.closes)))
  }

  /** Flags change only at the end of a full read, and rows only in a batch or a full read. */
  ghost predicate DataMoves(s: State, after: State, t: Thread) {
    var p, q := At(s, t), At(after, t);
    && (NeedsLoaded(q) ==> after.cache.loaded)
    && (q.Snapshotting? || q.Snapshotted? ==> !after.cache.loaded || after.cache.needsFullReload)
    && (OwnRefresh(after, q) ==> !after.cache.needsFullReload)
    && (after.cache.needsFullReload && !s.cache.needsFullReload ==>
          p.Fetched? || p.Snapshotted? || ((p.Preparing? || p.Checked?) && !s.cache.refreshing))
    && (s.cache.loaded ==> after.cache.loaded)
    && (!p.Snapshotted? ==>
        after.cache.loaded == s.cache.loaded
        && (s.cache.needsFullReload ==> after.cache.needsFullReload))
    && (!p.Applying? && !p.Snapshotted? ==> Resident(after) == Resident(s) && after.published == s.published)
    && (p.Applying? && !q.Applying? ==> Resident(after) == after.published)
    && (p.Snapshotted? ==>
        Resident(after) == after.published
        || (Resident(after) == Resident(s) && after.published == s.published))
  }

  ghost predicate Moves(s: State, after: State, t: Thread) {
    && (forall u: Thread :: u != t ==> At(after, u) == At(s, u))
    && GateMoves(s, after, t) && DataMoves(s, after, t)
  }

  lemma PrepareMove(s: State, t: Thread)
    requires At(s, t).Preparing? && Local(s, t)
    ensures Moves(s, DoPrepare(s, t), t)
  {
  }

  lemma DecideMove(s: State, t: Thread)
    requires At(s, t).Checked? && Local(s, t)
    ensures Moves(s, DoDecide(s, t), t)
  {
  }

  lemma GateMove(s: State, t: Thread, g: Gate)
    requires CanGate(s, t, g) && Local(s, t)
    ensures Moves(s, DoGate(s, t, g), t)
  {
    match g
    case Prepare => PrepareMove(s, t);
    case Decide => DecideMove(s, t);
    case _ =>
  }

  lemma DrainMove(s: State, t: Thread, d: Drain)
    requires CanDrain(s, t, d) && Local(s, t)
    ensures Moves(s, DoDrain(s, t, d), t)
  {
  }

  lemma RelockChangesMove(s: State, t: Thread)
    requires At(s, t).Fetched? && s.holder == None && Local(s, t)
    ensures Moves(s, DoRelockChanges(s, t, At(s, t).first, At(s, t).work, At(s, t).outcome), t)
  {
  }

  lemma GotoMove(s: State, t: Thread, pc: Pc)
    requires At(s, t).Fetching? && (pc.Fetching? || pc.Fetched?) && Local(s, t)
    ensures Moves(s, Goto(s, t, pc), t)
  {
  }

  lemma ReadMove(s: State, t: Thread, r: Read)
    requires CanRead(s, t, r) && Local(s, t)
    ensures Moves(s, DoRead(s, t, r), t)
  {
    if r.RelockChanges? {
      RelockChangesMove(s, t);
    } else {
      var pc := At(DoRead(s, t, r), t);
      assert DoRead(s, t, r) == Goto(s, t, pc);
      GotoMove(s, t, pc);
    }
  }

  lemma MergeMove(s: State, t: Thread, m: Merge)
    requires CanMerge(s, t, m) && Local(s, t)
    ensures Moves(s, DoMerge(s, t, m), t)
  {
  }

  lemma InstallMove(s: State, t: Thread)
    requires At(s, t).Snapshotted? && s.holder == None && Local(s, t) && At(s, t).outcome.Fine?
    ensures Moves(s, DoRelockSnapshot(s, t, At(s, t)), t)
  {
  }

  lemma AbortMove(s: State, t: Thread)
    requires At(s, t).Snapshotted? && s.holder == None && Local(s, t) && !At(s, t).outcome.Fine?
    ensures Moves(s, DoRelockSnapshot(s, t, At(s, t)), t)
  {
  }

  lemma ReloadMove(s: State, t: Thread, f: Full)
    requires CanReload(s, t, f) && Local(s, t)
    ensures Moves(s, DoReload(s, t, f), t)
  {
    match f
    case RelockSnapshot => if At(s, t).outcome.Fine? { InstallMove(s, t); } else { AbortMove(s, t); }
    case _ =>
  }

  lemma AnswerMove(s: State, t: Thread, query: Query)
    requires CanAnswer(s, t, query) && Local(s, t)
    ensures Moves(s, DoServe(s, t, query), t)
  {
  }

  lemma StepMoves(s: State, step: Step)
    requires Enabled(s, step) && !Writing(step) && Local(s, step.t)
    ensures Moves(s, Next(s, step), step.t)
  {
    match step
    case Gating(t, g) => GateMove(s, t, g);
    case Draining(t, d) => DrainMove(s, t, d);
    case Reading(t, r) => ReadMove(s, t, r);
    case Merging(t, m) => MergeMove(s, t, m);
    case Reloading(t, f) => ReloadMove(s, t, f);
    case Answering(t, query) => AnswerMove(s, t, query);
  }

  lemma WritesLeaveControl(s: State, step: Step)
    requires Enabled(s, step) && Writing(step)
    ensures Next(s, step).cache == s.cache && Next(s, step).holder == s.holder
    ensures Next(s, step).published == s.published && Next(s, step).pcs == s.pcs
  {
  }

  // ----- invariance -----

  lemma MoveKeepsGate(s: State, after: State, t: Thread)
    requires Locking(s) && SingleFlight(s) && Moves(s, after, t)
    ensures Locking(after) && SingleFlight(after)
  {
    if after.cache.refreshing && !InWindow(At(after, t)) {
      var u: Thread :| InWindow(At(s, u));
      assert InWindow(At(after, u));
    }
  }

  lemma MoveKeepsChannels(s: State, after: State, t: Thread)
    requires SingleFlight(s) && Channels(s) && Moves(s, after, t)
    ensures Channels(after)
  {
  }

  lemma MoveKeepsData(s: State, after: State, t: Thread)
    requires Locking(s) && SingleFlight(s) && LoadFlags(s) && Isolated(s) && Moves(s, after, t)
    ensures LoadFlags(after) && Isolated(after)
  {
    forall u: Thread | u != t && OwnRefresh(after, At(after, u))
      ensures !after.cache.needsFullReload
    {
      assert At(after, u) == At(s, u);
      assert HoldsMutex(At(s, u)) ==> s.holder == Some(u);
    }
    if At(s, t).Snapshotted? { assert forall u: Thread :: !At(s, u).Applying?; }
  }

  lemma ControlIsKept(s: State, step: Step)
    requires Enabled(s, step) && Control(s)
    ensures Control(Next(s, step))
  {
    if Writing(step) {
      WritesLeaveControl(s, step);
      assert forall t: Thread :: At(Next(s, step), t) == At(s, t);
    } else {
      assert Local(s, step.t);
      StepMoves(s, step);
      MoveKeepsGate(s, Next(s, step), step.t);
      MoveKeepsChannels(s, Next(s, step), step.t);
      MoveKeepsData(s, Next(s, step), step.t);
    }
  }
}
