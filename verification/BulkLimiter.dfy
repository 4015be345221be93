/** The local bulk-download limiter: concurrent operations per actor and in total. */
module BulkLimiter {
  import opened Basics
  import opened Leases
  import opened Text

  /** The counters: an actor without running operations has no entry. */
  datatype Counters = Counters(active: map<string, nat>, total: nat)

  function Running(c: Counters, key: string): nat {
    if key in c.active then c.active[key] else 0
  }

  datatype Verdict = Admitted | ActorBusy | AllBusy

  function Judge(c: Counters, perKey: nat, global: nat, key: string): Verdict {
    if Running(c, key) >= perKey then ActorBusy else if c.total >= global then AllBusy else Admitted
  }

  function Acquired(c: Counters, key: string): Counters {
    Counters(c.active[key := Running(c, key) + 1], c.total + 1)
  }

  function Released(c: Counters, key: string): Counters {
    Counters(if Running(c, key) <= 1 then c.active - {key} else c.active[key := Running(c, key) - 1],
             if c.total > 0 then c.total - 1 else 0)
  }

  class BulkOperationLimiter {
    const perKeyLimit: nat
    const globalLimit: nat
    var totalActive: nat
    var active: map<string, nat>

    ghost function Value(): Counters
      reads this
    {
      Counters(active, totalActive)
    }

    constructor (perKeyLimit: int, globalLimit: int)
      ensures this.perKeyLimit == (if perKeyLimit >= 1 then perKeyLimit else 1)
      ensures this.globalLimit == (if globalLimit >= 1 then globalLimit else 1)
      ensures Value() == Counters(map[], 0)
    {
      this.perKeyLimit := AtLeastOne(perKeyLimit);
      this.globalLimit := AtLeastOne(globalLimit);
      totalActive, active := 0, map[];
    }

    method TryAcquire(name: string) returns (verdict: Verdict)
      modifies this
      ensures verdict == Judge(old(Value()), perKeyLimit, globalLimit, OrAnonymous(name))
      ensures Value() == if verdict.Admitted? then Acquired(old(Value()), OrAnonymous(name)) else old(Value())
    {
      var key := OrAnonymous(name);
      var running := if key in active then active[key] else 0;
      if running >= perKeyLimit { return ActorBusy; }
      if totalActive >= globalLimit { return AllBusy; }
      active := active[key := running + 1];
      totalActive := totalActive + 1;
      return Admitted;
    }

    method Release(name: string)
      modifies this
      ensures Value() == Released(old(Value()), OrAnonymous(name))
    {
      var key := OrAnonymous(name);
      if key !in active || active[key] <= 1 {
        active := active - {key};
      } else {
        active := active[key := active[key] - 1];
      }
      if totalActive > 0 { totalActive := totalActive - 1; }
    }
  }

  // ----- balanced use -----

  /** The handler releases once for each admitted operation. `running` are the keys of operations
      that were admitted and have not been released. */
  datatype State = State(perKey: nat, global: nat, counters: Counters, running: multiset<string>)

  datatype Step = Try(name: string) | Finish(name: string)

  predicate Enabled(s: State, step: Step) {
    step.Finish? ==> OrAnonymous(step.name) in s.running
  }

  function Next(s: State, step: Step): State
    requires Enabled(s, step)
  {
    var key := OrAnonymous(step.name);
    match step
    case Try(_) =>
      if Judge(s.counters, s.perKey, s.global, key).Admitted?
      then s.(counters := Acquired(s.counters, key), running := s.running + multiset{key})
      else s
    case Finish(_) => s.(counters := Released(s.counters, key), running := s.running - multiset{key})
  }

  predicate Init(s: State) {
    s.perKey > 0 && s.global > 0 && s.counters == Counters(map[], 0) && s.running == multiset{}
  }

  ghost predicate Legal(s: State, steps: seq<Step>)
    decreases |steps|
  {
    steps == [] || (Enabled(s, steps[0]) && Legal(Next(s, steps[0]), steps[1..]))
  }

  ghost function Run(s: State, steps: seq<Step>): State
    requires Legal(s, steps)
    decreases |steps|
  {
    if steps == [] then s else Run(Next(s, steps[0]), steps[1..])
  }

  /** The counters are exactly the running operations, within both limits. */
  ghost predicate Accurate(s: State) {
    && (forall k :: k in s.counters.active <==> k in s.running)
    && (forall k :: k in s.counters.active ==> 1 <= s.counters.active[k] == s.running[k] <= s.perKey)
    && s.counters.total == |s.running| <= s.global
  }

  lemma AcquireKeepsAccurate(s: State, key: string)
    requires Accurate(s) && Judge(s.counters, s.perKey, s.global, key).Admitted?
    ensures Accurate(s.(counters := Acquired(s.counters, key), running := s.running + multiset{key}))
  {
    assert Running(s.counters, key) == s.running[key];
  }

  lemma ReleaseKeepsAccurate(s: State, key: string)
    requires Accurate(s) && key in s.running
    ensures Accurate(s.(counters := Released(s.counters, key), running := s.running - multiset{key}))
  {
    assert Running(s.counters, key) == s.running[key];
  }

  lemma StepKeepsAccurate(s: State, step: Step)
    requires Accurate(s) && Enabled(s, step)
    ensures Accurate(Next(s, step)) && Next(s, step).perKey == s.perKey && Next(s, step).global == s.global
  {
    var key := OrAnonymous(step.name);
    if step.Finish? {
      ReleaseKeepsAccurate(s, key);
    } else if Judge(s.counters, s.perKey, s.global, key).Admitted? {
      AcquireKeepsAccurate(s, key);
    }
  }

  lemma {:induction false} RunIsAccurate(s: State, steps: seq<Step>)
    requires Accurate(s) && Legal(s, steps)
    ensures Accurate(Run(s, steps)) && Run(s, steps).perKey == s.perKey && Run(s, steps).global == s.global
    decreases |steps|
  {
    if steps != [] {
      StepKeepsAccurate(s, steps[0]);
      RunIsAccurate(Next(s, steps[0]), steps[1..]);
    }
  }

  ghost function Sum(active: map<string, nat>, keys: set<string>): nat
    requires keys <= active.Keys
  {
    if keys == {} then 0
    else
      var k := AnyKey(keys);
      active[k] + Sum(active, keys - {k})
  }

  /** Some element, the same one for the same set. */
  ghost function AnyKey(keys: set<string>): (k: string)
    requires keys != {}
    ensures k in keys
  {
    var k :| k in keys; k
  }

  lemma {:induction false} SumCountsRunning(active: map<string, nat>, keys: set<string>, running: multiset<string>)
    requires keys <= active.Keys
    requires (forall k :: k in running <==> k in keys) && (forall k :: k in keys ==> active[k] == running[k])
    ensures Sum(active, keys) == |running|
    decreases keys
  {
    if keys == {} {
      assert running == multiset{};
    } else {
      var k := AnyKey(keys);
      var rest := running[k := 0];
      assert running == rest[k := running[k]];
      SumCountsRunning(active, keys - {k}, rest);
      assert |running| == |rest| + running[k] by { CountOfUpdate(rest, k, running[k]); }
    }
  }

  lemma CountOfUpdate(m: multiset<string>, k: string, n: nat)
    requires m[k] == 0
    ensures |m[k := n]| == |m| + n
  {
  }

  /** Every state the handler can reach: the total is the sum over the actors, every entry lies
      between one and the actor limit, the total is within the global limit, and nothing is left
      once everything has finished. */
  lemma ReachableCountersAreRight(s: State, steps: seq<Step>)
    requires Init(s) && Legal(s, steps)
    ensures var f := Run(s, steps);
            && f.counters.total == Sum(f.counters.active, f.counters.active.Keys) <= s.global
            && (forall k :: k in f.counters.active ==> 1 <= f.counters.active[k] <= s.perKey)
            && (f.running == multiset{} ==> f.counters == Counters(map[], 0))
  {
    RunIsAccurate(s, steps);
    var f := Run(s, steps);
    SumCountsRunning(f.counters.active, f.counters.active.Keys, f.running);
  }

  /** In every state the handler can reach a request is admitted exactly when its actor has fewer
      operations running than the actor limit and all actors together fewer than the global one;
      otherwise the reason is the actor's own operations before everybody's. */
  lemma AdmittedIffBelowBothLimits(s: State, steps: seq<Step>, name: string)
    requires Init(s) && Legal(s, steps)
    ensures var f, key := Run(s, steps), if TrimSpace(name) == "" then "anonymous" else TrimSpace(name);
            && (Judge(f.counters, s.perKey, s.global, key)
                == if f.running[key] >= s.perKey then ActorBusy
                   else if |f.running| >= s.global then AllBusy else Admitted)
            && (Next(f, Try(name)).running
                == if f.running[key] < s.perKey && |f.running| < s.global then f.running + multiset{key}
                   else f.running)
  {
    RunIsAccurate(s, steps);
    var f, key := Run(s, steps), OrAnonymous(name);
    assert Running(f.counters, key) == f.running[key];
  }
}
