/** Interface throughput from raw octet counters: one polling round, as the collector computes it.
    Rates are exact reals; instants are nanoseconds. */
module CounterRates {
  import opened Basics

  datatype Counter = Counter(ifName: string, inOctets: nat, outOctets: nat, speedBps: int)

  /** The last raw sample of an interface. `needsWarmup` makes the next sample a fresh baseline. */
  datatype Baseline = Baseline(inOctets: nat, outOctets: nat, sampledAt: int, needsWarmup: bool)

  datatype LinkMetrics = LinkMetrics(ifName: string, txBps: real, rxBps: real, collectedAt: int)

  function Seconds(nanos: int): real {
    nanos as real / 1000000000.0
  }

  function BitsPerSecond(octets: int, nanos: int): real
    requires nanos > 0
  {
    octets as real * 8.0 / Seconds(nanos)
  }

  function Max(a: real, b: real): real {
    if a < b then b else a
  }

  /** The pair of consecutive samples cannot yield a rate: the clock did not advance, a counter went
      down, the speed is unknown, or the rate exceeds the speed by more than a tenth. */
  predicate Anomalous(prev: Baseline, c: Counter, at: int) {
    || at <= prev.sampledAt
    || c.inOctets < prev.inOctets || c.outOctets < prev.outOctets
    || c.speedBps <= 0
    || Max(BitsPerSecond(c.outOctets - prev.outOctets, at - prev.sampledAt),
           BitsPerSecond(c.inOctets - prev.inOctets, at - prev.sampledAt)) > c.speedBps as real * 1.1
  }

  predicate Emits(prev: Option<Baseline>, c: Counter, at: int) {
    prev.Some? && !prev.value.needsWarmup && !Anomalous(prev.value, c, at)
  }

  function Metrics(prev: Baseline, c: Counter, at: int): LinkMetrics
    requires at > prev.sampledAt
  {
    LinkMetrics(c.ifName, BitsPerSecond(c.outOctets - prev.outOctets, at - prev.sampledAt),
                BitsPerSecond(c.inOctets - prev.inOctets, at - prev.sampledAt), at)
  }

  /** The sample always becomes the baseline; only its warm-up flag depends on the past. */
  function NextBaseline(prev: Option<Baseline>, c: Counter, at: int): Baseline {
    Baseline(c.inOctets, c.outOctets, at, prev.Some? && !prev.value.needsWarmup && Anomalous(prev.value, c, at))
  }

  function Emitted(current: seq<Counter>, previous: map<string, Baseline>, at: int): seq<LinkMetrics> {
    if current == [] then []
    else
      var c := current[|current| - 1];
      var prev := Look(previous, c.ifName);
      Emitted(current[..|current| - 1], previous, at) + if Emits(prev, c, at) then [Metrics(prev.value, c, at)] else []
  }

  function Baselines(current: seq<Counter>, previous: map<string, Baseline>, at: int): map<string, Baseline> {
    if current == [] then previous
    else
      var c := current[|current| - 1];
      Baselines(current[..|current| - 1], previous, at)[c.ifName := NextBaseline(Look(previous, c.ifName), c, at)]
  }

  function WarmupBaseline(b: Baseline): Baseline {
    b.(needsWarmup := true)
  }

  /** One round: metrics and the baselines to hand to the next round. */
  method ComputeCounterRates(current: seq<Counter>, previous: map<string, Baseline>, collectedAt: int)
    returns (metrics: seq<LinkMetrics>, next: map<string, Baseline>)
    ensures metrics == Emitted(current, previous, collectedAt)
    ensures next == Baselines(current, previous, collectedAt)
  {
    next := previous;
    metrics := [];
    for i := 0 to |current|
      invariant metrics == Emitted(current[..i], previous, collectedAt)
      invariant next == Baselines(current[..i], previous, collectedAt)
    {
      var counter := current[i];
      assert current[..i + 1][..i] == current[..i];
      var baseline := Baseline(counter.inOctets, counter.outOctets, collectedAt, false);
      if counter.ifName !in previous {
        next := next[counter.ifName := baseline];
        continue;
      }
      var prev := previous[counter.ifName];
      if prev.needsWarmup {
        next := next[counter.ifName := baseline];
        continue;
      }
      if collectedAt <= prev.sampledAt {
        next := next[counter.ifName := WarmupBaseline(baseline)];
        continue;
      }
      if counter.inOctets < prev.inOctets || counter.outOctets < prev.outOctets {
        next := next[counter.ifName := WarmupBaseline(baseline)];
        continue;
      }
      if counter.speedBps <= 0 {
        next := next[counter.ifName := WarmupBaseline(baseline)];
        continue;
      }
      var rx := BitsPerSecond(counter.inOctets - prev.inOctets, collectedAt - prev.sampledAt);
      var tx := BitsPerSecond(counter.outOctets - prev.outOctets, collectedAt - prev.sampledAt);
      if Max(tx, rx) > counter.speedBps as real * 1.1 {
        next := next[counter.ifName := WarmupBaseline(baseline)];
        continue;
      }
      metrics := metrics + [LinkMetrics(counter.ifName, tx, rx, collectedAt)];
      next := next[counter.ifName := baseline];
    }
    assert current[..|current|] == current;
  }

  // ----- one interface within one round -----

  predicate DistinctNames(current: seq<Counter>) {
    forall i, j :: 0 <= i < j < |current| ==> current[i].ifName != current[j].ifName
  }

  predicate Reports(current: seq<Counter>, name: string) {
    exists i :: 0 <= i < |current| && current[i].ifName == name
  }

  /** The counter of an interface in a round that reports it. */
  function CounterOf(current: seq<Counter>, name: string): (c: Counter)
    requires Reports(current, name)
    ensures c in current && c.ifName == name
  {
    if current[|current| - 1].ifName == name then current[|current| - 1]
    else
      var i :| 0 <= i < |current| && current[i].ifName == name;
      assert current[..|current| - 1][i].ifName == name;
      CounterOf(current[..|current| - 1], name)
  }

  lemma {:induction false} BaselineOf(current: seq<Counter>, previous: map<string, Baseline>, at: int, name: string)
    requires DistinctNames(current)
    ensures Look(Baselines(current, previous, at), name)
            == if Reports(current, name) then Some(NextBaseline(Look(previous, name), CounterOf(current, name), at))
              else Look(previous, name)
  {
    if current != [] {
      var n := |current| - 1;
      BaselineOf(current[..n], previous, at, name);
      assert forall i :: 0 <= i < n ==> current[..n][i] == current[i];
      if current[n].ifName != name {
        assert Reports(current, name) <==> Reports(current[..n], name) by {
          if Reports(current, name) {
            var i :| 0 <= i < |current| && current[i].ifName == name;
            assert current[..n][i].ifName == name;
          }
        }
      }
    }
  }

  /** A round emits for an interface exactly when its own sample pair does, and only once. */
  lemma {:induction false} EmissionOf(current: seq<Counter>, previous: map<string, Baseline>, at: int, m: LinkMetrics)
    requires DistinctNames(current)
    ensures m in Emitted(current, previous, at)
            <==> Reports(current, m.ifName) && Emits(Look(previous, m.ifName), CounterOf(current, m.ifName), at)
                 && m == Metrics(previous[m.ifName], CounterOf(current, m.ifName), at)
  {
    if current != [] {
      var n := |current| - 1;
      EmissionOf(current[..n], previous, at, m);
      assert forall i :: 0 <= i < n ==> current[..n][i] == current[i];
      if current[n].ifName != m.ifName {
        assert Reports(current, m.ifName) <==> Reports(current[..n], m.ifName) by {
          if Reports(current, m.ifName) {
            var i :| 0 <= i < |current| && current[i].ifName == m.ifName;
            assert current[..n][i].ifName == m.ifName;
          }
        }
      }
    }
  }
}
