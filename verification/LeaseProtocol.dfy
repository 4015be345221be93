/** Many bulk-download requests on one lock table: every lock attempt and every release is a step
    of its own, so requests interleave freely. A request acquires either on one connection
    (`combined`) or with separate leases for slot and actor. */
module LeaseProtocol {
  import opened Basics
  import opened Leases

  type Request = nat

  datatype Ending = Refused(reason: Reason) | Errored | Served

  datatype Phase =
    | Absent
    | Probing(combined: bool, actor: string, slot: nat)   // about to try this slot
    | HasSlot(combined: bool, actor: string, slot: nat)   // about to try the actor's lock
    | Holding(combined: bool, actor: string, slot: nat)   // admitted
    | Leaving(actor: string, slot: nat)                   // actor lease released, slot lease not yet
    | Over(ending: Ending)

  /** How locks are named; nothing below depends on the names being different. */
  datatype Naming = Naming(slot: nat -> string, actor: string -> string)

  /** The handler's names. */
  function HandlerNaming(): Naming {
    Naming((n: nat) => GlobalKey(n), (a: string) => ActorKey(a))
  }

  /** `owner` is the lock table: which request's connection holds each key. */
  datatype State = State(naming: Naming, limit: nat, owner: map<string, Request>, phases: map<Request, Phase>)

  function At(s: State, r: Request): Phase {
    if r in s.phases then s.phases[r] else Absent
  }

  function Keys(n: Naming, p: Phase): set<string> {
    match p
    case HasSlot(_, _, slot) => {n.slot(slot)}
    case Holding(_, actor, slot) => {n.slot(slot), n.actor(actor)}
    case Leaving(_, slot) => {n.slot(slot)}
    case _ => {}
  }

  predicate Init(s: State) {
    s.limit > 0 && s.owner == map[] && s.phases == map[]
  }

  datatype Step =
    | Begin(r: Request, combined: bool, actor: string)
    | TrySlot(r: Request)
    | TryActor(r: Request)
    | TryBoth(r: Request)       // slot and actor in one indivisible attempt
    | Fail(r: Request)          // the repository errors; whatever is held is given back
    | ReleaseActor(r: Request)
    | ReleaseSlot(r: Request)
    | ReleaseAll(r: Request)    // one connection gives back both
    | Crash(r: Request)         // the connection is lost

  predicate Enabled(s: State, step: Step) {
    var p := At(s, step.r);
    match step
    case Begin(_, _, _) => p.Absent?
    case TrySlot(_) => p.Probing?
    case TryActor(_) => p.HasSlot?
    case TryBoth(_) => p.Probing? && p.combined
    case Fail(_) => p.Probing? || p.HasSlot?
    case ReleaseActor(_) => p.Holding? && !p.combined
    case ReleaseSlot(_) => p.Leaving?
    case ReleaseAll(_) => p.Holding? && p.combined
    case Crash(_) => !p.Absent?
  }

  /** What a step does: the phase it leads to and the keys it takes and gives back. */
  datatype Plan = Plan(to: Phase, take: set<string>, drop: set<string>)

  function NextSlot(s: State, p: Phase): Phase
    requires p.Probing?
  {
    if p.slot + 1 < s.limit then Probing(p.combined, p.actor, p.slot + 1) else Over(Refused(GlobalLimit))
  }

  /** A lock another connection holds is busy; a lock this connection holds is not. */
  predicate Busy(s: State, r: Request, combined: bool, key: string) {
    key in s.owner && !(combined && s.owner[key] == r)
  }

  function PlanOf(s: State, step: Step): Plan
    requires Enabled(s, step)
  {
    var r := step.r;
    var p := At(s, r);
    match step
    case Begin(_, combined, actor) => Plan(Probing(combined, actor, 0), {}, {})
    case TrySlot(_) =>
      if Busy(s, r, p.combined, s.naming.slot(p.slot)) then Plan(NextSlot(s, p), {}, {})
      else Plan(HasSlot(p.combined, p.actor, p.slot), {s.naming.slot(p.slot)}, {})
    case TryActor(_) =>
      if Busy(s, r, p.combined, s.naming.actor(p.actor))
        then Plan(Over(Refused(ActorLimit)), {}, {s.naming.slot(p.slot)})
      else Plan(Holding(p.combined, p.actor, p.slot), {s.naming.actor(p.actor)}, {})
    case TryBoth(_) =>
      if Busy(s, r, true, s.naming.slot(p.slot)) then Plan(NextSlot(s, p), {}, {})
      else if Busy(s, r, true, s.naming.actor(p.actor)) then Plan(Over(Refused(ActorLimit)), {}, {})
      else Plan(Holding(p.combined, p.actor, p.slot), {s.naming.slot(p.slot), s.naming.actor(p.actor)}, {})
    case Fail(_) => Plan(Over(Errored), {}, Keys(s.naming, p))
    case ReleaseActor(_) => Plan(Leaving(p.actor, p.slot), {}, {s.naming.actor(p.actor)})
    case ReleaseSlot(_) => Plan(Over(Served), {}, {s.naming.slot(p.slot)})
    case ReleaseAll(_) => Plan(Over(Served), {}, Keys(s.naming, p))
    case Crash(_) => Plan(Over(Errored), {}, Keys(s.naming, p))
  }

  function Reassigned(owner: map<string, Request>, take: set<string>, drop: set<string>,
                      r: Request): map<string, Request> {
    (owner - drop) + map k | k in take :: r
  }

  lemma ReassignedIs(owner: map<string, Request>, take: set<string>, drop: set<string>, r: Request)
    ensures Reassigned(owner, take, drop, r).Keys == owner.Keys - drop + take
    ensures take == {} && drop !! owner.Keys ==> Reassigned(owner, take, drop, r) == owner
  {
  }

  function Next(s: State, step: Step): State
    requires Enabled(s, step)
  {
    var plan := PlanOf(s, step);
    State(s.naming, s.limit, Reassigned(s.owner, plan.take, plan.drop, step.r), s.phases[step.r := plan.to])
  }

  ghost predicate Legal(s: State, steps: seq<Step>)
    decreases |steps|
  {
    steps == [] || (Enabled(s, steps[0]) && Legal(Next(s, steps[0]), steps[1..]))
  }

  ghost function Run(s: State, steps: seq<Step>): State
    requires Legal(s, steps)
    decreases |steps|
  {
    if steps == [] then s else Run(Next(s, steps[0]), steps[1..])
  }

  // ----- invariant -----

  predicate Owns(s: State, key: string, r: Request) {
    key in s.owner && s.owner[key] == r
  }

  /** The lock table holds exactly the keys the requests' phases call for, slots are in range, and
      separate leases are for different locks. */
  ghost predicate TableExact(s: State) {
    forall r: Request, key: string :: key in Keys(s.naming, At(s, r)) <==> Owns(s, key, r)
  }

  predicate PhaseOk(n: Naming, limit: nat, p: Phase) {
    && (p.Probing? || p.HasSlot? || p.Holding? || p.Leaving? ==> p.slot < limit)
    && (p.Holding? && !p.combined ==> n.actor(p.actor) != n.slot(p.slot))
  }

  ghost predicate Good(s: State) {
    TableExact(s) && forall r: Request :: PhaseOk(s.naming, s.limit, At(s, r))
  }

  /** A request takes only free keys or keys of its own, drops only keys of its own, and ends up
      with the keys its new phase calls for. */
  lemma PlansAreSafe(s: State, step: Step)
    requires s.limit > 0 && Enabled(s, step) && PhaseOk(s.naming, s.limit, At(s, step.r))
    requires forall key :: key in Keys(s.naming, At(s, step.r)) ==> key in s.owner && s.owner[key] == step.r
    ensures var plan, mine := PlanOf(s, step), Keys(s.naming, At(s, step.r));
            && plan.drop <= mine && (forall key :: key in plan.take ==> key !in s.owner || s.owner[key] == step.r)
            && Keys(s.naming, plan.to) == (mine - plan.drop) + plan.take
            && PhaseOk(s.naming, s.limit, plan.to)
  {
  }

  lemma OwnKeysOnly(s: State, step: Step)
    requires Good(s) && s.limit > 0 && Enabled(s, step)
    ensures var after := Next(s, step);
            && after.limit == s.limit && after.naming == s.naming
               && (forall u: Request :: u != step.r ==> At(after, u) == At(s, u))
            && PhaseOk(s.naming, s.limit, At(after, step.r))
            && (forall key :: key in Keys(s.naming, At(after, step.r)) <==> Owns(after, key, step.r))
            && (forall key, u: Request :: u != step.r ==> (Owns(after, key, u) <==> Owns(s, key, u)))
  {
    assert forall key :: key in Keys(s.naming, At(s, step.r)) <==> Owns(s, key, step.r);
    assert PhaseOk(s.naming, s.limit, At(s, step.r));
    PlansAreSafe(s, step);
  }

  lemma StepKeepsGood(s: State, step: Step)
    requires Good(s) && s.limit > 0 && Enabled(s, step)
    ensures Good(Next(s, step))
  {
    var after := Next(s, step);
    OwnKeysOnly(s, step);
    forall u: Request, key: string
      ensures key in Keys(s.naming, At(after, u)) <==> Owns(after, key, u)
    {
      if u != step.r {
        assert key in Keys(s.naming, At(s, u)) <==> Owns(s, key, u);
      }
    }
  }

  lemma {:induction false} RunIsGood(s: State, steps: seq<Step>)
    requires Good(s) && s.limit > 0 && Legal(s, steps)
    ensures Good(Run(s, steps)) && Run(s, steps).limit == s.limit && Run(s, steps).naming == s.naming
    decreases |steps|
  {
    if steps != [] {
      StepKeepsGood(s, steps[0]);
      OwnKeysOnly(s, steps[0]);
      RunIsGood(Next(s, steps[0]), steps[1..]);
    }
  }

  lemma InitIsGood(s: State)
    requires Init(s)
    ensures Good(s)
  {
  }

  // ----- safety -----

  predicate OccupiesSlot(p: Phase) {
    p.HasSlot? || p.Holding? || p.Leaving?
  }

  lemma {:induction false} Pigeonhole(requests: set<Request>, slotOf: map<Request, nat>, limit: nat)
    requires forall r :: r in requests ==> r in slotOf && slotOf[r] < limit
    requires forall a, b :: a in requests && b in requests && slotOf[a] == slotOf[b] ==> a == b
    ensures |requests| <= limit
    decreases limit
  {
    if requests != {} {
      var some :| some in requests;
      assert slotOf[some] < limit;
      if exists r :: r in requests && slotOf[r] == limit - 1 {
        var r :| r in requests && slotOf[r] == limit - 1;
        Pigeonhole(requests - {r}, slotOf, limit - 1);
      } else {
        Pigeonhole(requests, slotOf, limit - 1);
      }
    }
  }

  /** In every interleaving at most `limit` requests occupy a global slot. */
  lemma AtMostLimitRequests(s: State, steps: seq<Step>, requests: set<Request>)
    requires Init(s) && Legal(s, steps)
    requires forall r :: r in requests ==> OccupiesSlot(At(Run(s, steps), r))
    ensures |requests| <= s.limit
  {
    InitIsGood(s);
    RunIsGood(s, steps);
    var f := Run(s, steps);
    var slotOf := map r | r in requests :: At(f, r).slot;
    forall a, b | a in requests && b in requests && slotOf[a] == slotOf[b]
      ensures a == b
    {
      assert f.naming.slot(slotOf[a]) in Keys(f.naming, At(f, a))
             && f.naming.slot(slotOf[b]) in Keys(f.naming, At(f, b));
      assert f.owner[f.naming.slot(slotOf[a])] == a && f.owner[f.naming.slot(slotOf[b])] == b;
    }
    forall r | r in requests ensures slotOf[r] < s.limit { assert PhaseOk(f.naming, f.limit, At(f, r)); }
    Pigeonhole(requests, slotOf, s.limit);
  }

  /** In every interleaving at most one request per actor is admitted. */
  lemma AtMostOnePerActor(s: State, steps: seq<Step>, a: Request, b: Request)
    requires Init(s) && Legal(s, steps)
    requires At(Run(s, steps), a).Holding? && At(Run(s, steps), b).Holding?
    requires s.naming.actor(At(Run(s, steps), a).actor) == s.naming.actor(At(Run(s, steps), b).actor)
    ensures a == b
  {
    InitIsGood(s);
    RunIsGood(s, steps);
    var f := Run(s, steps);
    var key := f.naming.actor(At(f, a).actor);
    assert key in Keys(f.naming, At(f, a)) && key in Keys(f.naming, At(f, b));
    assert f.owner[key] == a && f.owner[key] == b;
  }

  /** However a request ends, refused, failed or served, it leaves no lock behind; when all have
      ended the table is empty. */
  lemma EndedRequestsHoldNothing(s: State, steps: seq<Step>)
    requires Init(s) && Legal(s, steps)
    ensures forall r: Request, key :: At(Run(s, steps), r).Over? && key in Run(s, steps).owner
              ==> Run(s, steps).owner[key] != r
    ensures (forall r: Request :: At(Run(s, steps), r).Over? || At(Run(s, steps), r).Absent?)
            ==> Run(s, steps).owner == map[]
  {
    InitIsGood(s);
    RunIsGood(s, steps);
    var f := Run(s, steps);
    forall key | key in f.owner
      ensures !At(f, f.owner[key]).Over? && !At(f, f.owner[key]).Absent?
    {
      assert key in Keys(f.naming, At(f, f.owner[key]));
    }
  }

  /** The steps of one request only. */
  ghost predicate OnlyBy(steps: seq<Step>, r: Request) {
    forall i :: 0 <= i < |steps| ==> steps[i].r == r
  }

  lemma {:induction false} OthersUntouched(s: State, steps: seq<Step>, r: Request)
    requires Good(s) && s.limit > 0 && Legal(s, steps) && OnlyBy(steps, r)
    ensures forall u: Request :: u != r ==> At(Run(s, steps), u) == At(s, u)
    decreases |steps|
  {
    if steps != [] {
      OwnKeysOnly(s, steps[0]);
      StepKeepsGood(s, steps[0]);
      OthersUntouched(Next(s, steps[0]), steps[1..], r);
    }
  }

  /** An acquisition that nobody interrupts and that ends refused or failed leaves the lock table
      exactly as it found it. */
  lemma RefusedAcquireRestoresTable(s: State, before: seq<Step>, steps: seq<Step>, r: Request)
    requires Init(s) && Legal(s, before) && Legal(Run(s, before), steps) && OnlyBy(steps, r)
    requires At(Run(s, before), r).Absent? && At(Run(Run(s, before), steps), r).Over?
    ensures Run(Run(s, before), steps).owner == Run(s, before).owner
  {
    InitIsGood(s);
    RunIsGood(s, before);
    var m := Run(s, before);
    RunIsGood(m, steps);
    OthersUntouched(m, steps, r);
    var f := Run(m, steps);
    forall key
      ensures Look(f.owner, key) == Look(m.owner, key)
    {
      if key in m.owner {
        var u := m.owner[key];
        assert key in Keys(m.naming, At(m, u));
        assert u != r && key in Keys(f.naming, At(f, u));
      }
      if key in f.owner {
        var u := f.owner[key];
        assert key in Keys(f.naming, At(f, u));
        assert u != r && key in Keys(m.naming, At(m, u));
      }
    }
    SameLookups(f.owner, m.owner);
  }

  // ----- what an acquisition decides -----

  /** The steps of acquiring, without failures and releases. */
  predicate Acquiring(step: Step) {
    step.TrySlot? || step.TryActor? || step.TryBoth?
  }

  /** What the handler's acquisition of either kind should decide on a lock table. */
  function Decision(held: set<string>, limit: nat, combined: bool, actor: string): (Admission, set<string>) {
    if combined then Admit(held, limit, actor) else AdmitInTwoSteps(held, limit, actor)
  }

  /** An acquisition that began on the table `start` is on its way to that decision, or there. */
  ghost predicate OnTrack(start: map<string, Request>, s: State, r: Request, combined: bool, actor: string) {
    var held := start.Keys;
    match At(s, r)
    case Probing(c, a, slot) =>
      c == combined && a == actor && s.owner == start && slot < s.limit
        && LowestFree(held, slot, s.limit) == LowestFree(held, 0, s.limit)
    case HasSlot(c, a, slot) =>
      c == combined && a == actor && LowestFree(held, 0, s.limit) == Some(slot)
        && s.owner == start[GlobalKey(slot) := r]
    case Holding(_, _, slot) => Decision(held, s.limit, combined, actor) == (Granted(slot), s.owner.Keys)
    case Over(ending) => ending.Refused? && s.owner == start
      && Decision(held, s.limit, combined, actor) == (Rejected(ending.reason), held)
    case _ => false
  }

  lemma SlotProbeKeepsTrack(start: map<string, Request>, s: State, r: Request, combined: bool, actor: string)
    requires s.naming == HandlerNaming() && Enabled(s, TrySlot(r)) && OnTrack(start, s, r, combined, actor)
    requires forall key :: key in start ==> start[key] != r
    ensures OnTrack(start, Next(s, TrySlot(r)), r, combined, actor)
  {
    var slot := At(s, r).slot;
    assert s.naming.slot(slot) == GlobalKey(slot);
    ReassignedIs(s.owner, {}, {}, r);
  }

  lemma RefusedActorKeepsTrack(start: map<string, Request>, s: State, r: Request, combined: bool, actor: string)
    requires s.naming == HandlerNaming() && Enabled(s, TryActor(r)) && OnTrack(start, s, r, combined, actor)
    requires (forall key :: key in start ==> start[key] != r) && Busy(s, r, combined, ActorKey(actor))
    ensures OnTrack(start, Next(s, TryActor(r)), r, combined, actor)
  {
    var slot := At(s, r).slot;
    var slotKey := GlobalKey(slot);
    assert s.naming.slot(slot) == slotKey && s.naming.actor(actor) == ActorKey(actor) && slotKey !in start;
    assert Next(s, TryActor(r)).owner == Reassigned(s.owner, {}, {slotKey}, r) == start;
  }

  lemma AdmittedActorKeepsTrack(start: map<string, Request>, s: State, r: Request, combined: bool, actor: string)
    requires s.naming == HandlerNaming() && Enabled(s, TryActor(r)) && OnTrack(start, s, r, combined, actor)
    requires (forall key :: key in start ==> start[key] != r) && !Busy(s, r, combined, ActorKey(actor))
    ensures OnTrack(start, Next(s, TryActor(r)), r, combined, actor)
  {
    var slot := At(s, r).slot;
    var slotKey, actorKey := GlobalKey(slot), ActorKey(actor);
    assert s.naming.slot(slot) == slotKey && s.naming.actor(actor) == actorKey && slotKey !in start;
    ReassignedIs(s.owner, {actorKey}, {}, r);
    assert Next(s, TryActor(r)).owner.Keys == start.Keys + {slotKey, actorKey};
  }

  lemma JointProbeKeepsTrack(start: map<string, Request>, s: State, r: Request, combined: bool, actor: string)
    requires s.naming == HandlerNaming() && Enabled(s, TryBoth(r)) && OnTrack(start, s, r, combined, actor)
    requires forall key :: key in start ==> start[key] != r
    ensures OnTrack(start, Next(s, TryBoth(r)), r, combined, actor)
  {
    var slot := At(s, r).slot;
    var slotKey, actorKey := GlobalKey(slot), ActorKey(actor);
    assert s.naming.slot(slot) == slotKey && s.naming.actor(actor) == actorKey;
    if slotKey in start || actorKey in start {
      ReassignedIs(s.owner, {}, {}, r);
      assert Next(s, TryBoth(r)).owner == start;
      assert slotKey !in start ==> LowestFree(start.Keys, 0, s.limit) == Some(slot);
    } else {
      ReassignedIs(s.owner, {slotKey, actorKey}, {}, r);
      assert Next(s, TryBoth(r)).owner.Keys == start.Keys + {slotKey, actorKey};
      assert LowestFree(start.Keys, 0, s.limit) == Some(slot) && combined;
    }
  }

  lemma {:induction false} StepsKeepTrack(start: map<string, Request>, s: State, steps: seq<Step>, r: Request,
                                          combined: bool, actor: string)
    requires s.naming == HandlerNaming() && Legal(s, steps) && OnlyBy(steps, r) && OnTrack(start, s, r, combined, actor)
    requires (forall key :: key in start ==> start[key] != r) && forall i :: 0 <= i < |steps| ==> Acquiring(steps[i])
    ensures OnTrack(start, Run(s, steps), r, combined, actor) && Run(s, steps).limit == s.limit
    decreases |steps|
  {
    if steps != [] {
      assert Acquiring(steps[0]) && steps[0].r == r;
      match steps[0] {
        case TrySlot(_) => SlotProbeKeepsTrack(start, s, r, combined, actor);
        case TryActor(_) =>
          if Busy(s, r, combined, ActorKey(actor)) { RefusedActorKeepsTrack(start, s, r, combined, actor); }
          else { AdmittedActorKeepsTrack(start, s, r, combined, actor); }
        case TryBoth(_) => JointProbeKeepsTrack(start, s, r, combined, actor);
        case _ =>
      }
      StepsKeepTrack(start, Next(s, steps[0]), steps[1..], r, combined, actor);
    }
  }

  /** An uninterrupted acquisition that has come to an end, on any table other requests left behind,
      has decided and changed the table exactly as its specification says. */
  lemma AcquisitionDecides(s: State, before: seq<Step>, steps: seq<Step>, r: Request, combined: bool, actor: string)
    requires Init(s) && s.naming == HandlerNaming() && Legal(s, before) && At(Run(s, before), r).Absent?
    requires Legal(Run(s, before), [Begin(r, combined, actor)] + steps) && OnlyBy(steps, r)
    requires forall i :: 0 <= i < |steps| ==> Acquiring(steps[i])
    ensures var m, f := Run(s, before), Run(Run(s, before), [Begin(r, combined, actor)] + steps);
            var decision := Decision(m.owner.Keys, s.limit, combined, actor);
            && (At(f, r).Holding? ==> decision == (Granted(At(f, r).slot), f.owner.Keys))
            && (At(f, r).Over? ==>
                At(f, r).ending.Refused?
                && decision == (Rejected(At(f, r).ending.reason), m.owner.Keys) && f.owner == m.owner)
  {
    InitIsGood(s);
    RunIsGood(s, before);
    var m := Run(s, before);
    var whole := [Begin(r, combined, actor)] + steps;
    assert whole[0] == Begin(r, combined, actor) && whole[1..] == steps;
    var begun := Next(m, whole[0]);
    ReassignedIs(m.owner, {}, {}, r);
    forall key | key in m.owner ensures m.owner[key] != r { assert key in Keys(m.naming, At(m, m.owner[key])); }
    StepsKeepTrack(m.owner, begun, steps, r, combined, actor);
  }

  /** In every interleaving, a request made by a caller of the handler is refused for its actor only
      while another request holds that actor's lock. */
  lemma ActorRefusalsAreJustified(s: State, steps: seq<Step>, step: Step, c: Caller)
    requires Init(s) && s.naming == HandlerNaming() && Legal(s, steps) && Enabled(Run(s, steps), step)
    requires var p := At(Run(s, steps), step.r); (p.Probing? || p.HasSlot?) && p.actor == ActorName(c)
    requires At(Next(Run(s, steps), step), step.r) == Over(Refused(ActorLimit))
    ensures exists other: Request :: other != step.r && Owns(Run(s, steps), ActorKey(ActorName(c)), other)
  {
    InitIsGood(s);
    RunIsGood(s, steps);
    var m, r := Run(s, steps), step.r;
    var key := ActorKey(ActorName(c));
    assert m.naming.actor(ActorName(c)) == key && key in m.owner;
    if m.owner[key] == r {
      assert Owns(m, key, r);
      assert key in Keys(m.naming, At(m, r));
      CallersNeverCollide(c, At(m, r).slot);
      assert false;
    }
    assert Owns(m, key, m.owner[key]);
  }
}
