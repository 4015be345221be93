/** Whole streams of polling rounds: which samples emit a rate, and what the emitted rates add up
    to. */
module RateStreams {
  import opened Basics
  import opened CounterRates

  datatype Poll = Poll(at: int, counters: seq<Counter>)

  ghost predicate WellFormed(polls: seq<Poll>) {
    forall i :: 0 <= i < |polls| ==> DistinctNames(polls[i].counters)
  }

  /** The baselines after a stream that starts from nothing. */
  function State(polls: seq<Poll>): map<string, Baseline> {
    if polls == [] then map[]
    else Baselines(polls[|polls| - 1].counters, State(polls[..|polls| - 1]), polls[|polls| - 1].at)
  }

  /** What round `k` of the stream emits. */
  function EmittedAt(polls: seq<Poll>, k: nat): seq<LinkMetrics>
    requires k < |polls|
  {
    Emitted(polls[k].counters, State(polls[..k]), polls[k].at)
  }

  // ----- the samples of one interface -----

  datatype Sample = Sample(at: int, counter: Counter)

  /** The rounds that report the interface; the others leave no trace. */
  function Samples(polls: seq<Poll>, name: string): seq<Sample> {
    if polls == [] then []
    else
      var last := polls[|polls| - 1];
      Samples(polls[..|polls| - 1], name) + if Reports(last.counters, name)
        then [Sample(last.at, CounterOf(last.counters, name))] else []
  }

  function AsBaseline(s: Sample, flagged: bool): Baseline {
    Baseline(s.counter.inOctets, s.counter.outOctets, s.at, flagged)
  }

  /** Sample `k` is anomalous with respect to the sample immediately before it. */
  predicate Bad(samples: seq<Sample>, k: int) {
    1 <= k < |samples| && Anomalous(AsBaseline(samples[k - 1], false), samples[k].counter, samples[k].at)
  }

  /** Sample `k` was recorded with the warm-up flag. */
  predicate Flagged(samples: seq<Sample>, k: int)
    decreases k
  {
    1 <= k && !Flagged(samples, k - 1) && Bad(samples, k)
  }

  predicate EmitsAt(samples: seq<Sample>, k: int) {
    1 <= k < |samples| && !Flagged(samples, k - 1) && !Bad(samples, k)
  }

  /** Length of the run of anomalous samples that ends at `k`. */
  function BadRun(samples: seq<Sample>, k: int): nat
    decreases k
  {
    if Bad(samples, k) then 1 + BadRun(samples, k - 1) else 0
  }

  /** The two directions of the rate between sample `k - 1` and sample `k`. */
  function RateIn(samples: seq<Sample>, k: int): real
    requires 1 <= k < |samples| && samples[k - 1].at < samples[k].at
  {
    BitsPerSecond(samples[k].counter.inOctets - samples[k - 1].counter.inOctets, samples[k].at - samples[k - 1].at)
  }

  function RateOut(samples: seq<Sample>, k: int): real
    requires 1 <= k < |samples| && samples[k - 1].at < samples[k].at
  {
    BitsPerSecond(samples[k].counter.outOctets - samples[k - 1].counter.outOctets, samples[k].at - samples[k - 1].at)
  }

  // ----- the stream is the interleaving of independent interfaces -----

  lemma {:induction false} PrefixFlags(a: seq<Sample>, b: seq<Sample>, k: int)
    requires a <= b && k < |a|
    ensures Bad(a, k) == Bad(b, k) && Flagged(a, k) == Flagged(b, k)
    decreases k
  {
    if 1 <= k { PrefixFlags(a, b, k - 1); }
  }

  /** After any stream an interface's baseline is its last sample, whichever rounds skipped it. */
  lemma {:induction false} StateIsLastSample(polls: seq<Poll>, name: string)
    requires WellFormed(polls)
    ensures var samples := Samples(polls, name);
            Look(State(polls), name)
            == if samples == [] then None else Some(AsBaseline(samples[|samples| - 1], Flagged(samples, |samples| - 1)))
  {
    if polls != [] {
      var n := |polls| - 1;
      var before := polls[..n];
      StateIsLastSample(before, name);
      BaselineOf(polls[n].counters, State(before), polls[n].at, name);
      var samples := Samples(polls, name);
      if !Reports(polls[n].counters, name) { assert samples == Samples(before, name); }
      if Reports(polls[n].counters, name) && Samples(before, name) != [] {
        var k := |samples| - 1;
        PrefixFlags(Samples(before, name), samples, k - 1);
        assert State(before)[name] == AsBaseline(samples[k - 1], Flagged(samples, k - 1));
        assert Bad(samples, k) == Anomalous(State(before)[name], samples[k].counter, samples[k].at);
      }
    }
  }

  /** Round `k` emits for an interface exactly when the interface's own stream of samples emits at
      that sample, and then exactly the rate against the immediately preceding sample. */
  lemma StreamEmission(polls: seq<Poll>, k: nat, m: LinkMetrics)
    requires WellFormed(polls) && k < |polls|
    ensures var samples := Samples(polls[..k + 1], m.ifName);
            m in EmittedAt(polls, k)
            <==> Reports(polls[k].counters, m.ifName) && EmitsAt(samples, |samples| - 1)
                 && m == LinkMetrics(m.ifName, RateOut(samples, |samples| - 1), RateIn(samples, |samples| - 1),
                    polls[k].at)
  {
    var name := m.ifName;
    var before := polls[..k];
    assert polls[..k + 1][..k] == before;
    StateIsLastSample(before, name);
    EmissionOf(polls[k].counters, State(before), polls[k].at, m);
    var samples := Samples(polls[..k + 1], name);
    if Reports(polls[k].counters, name) {
      assert samples == Samples(before, name) + [Sample(polls[k].at, CounterOf(polls[k].counters, name))];
      if Samples(before, name) != [] { PrefixFlags(Samples(before, name), samples, |samples| - 2); }
    }
  }

  /** An interface a round does not report keeps its baseline, and the round says nothing of it. */
  lemma AbsentInterfacesKeepBaseline(polls: seq<Poll>, p: Poll, name: string)
    requires WellFormed(polls) && DistinctNames(p.counters) && !Reports(p.counters, name)
    ensures Look(State(polls + [p]), name) == Look(State(polls), name)
    ensures forall m :: m in EmittedAt(polls + [p], |polls|) ==> m.ifName != name
  {
    assert (polls + [p])[..|polls|] == polls;
    BaselineOf(p.counters, State(polls), p.at, name);
    forall m | m in EmittedAt(polls + [p], |polls|)
      ensures m.ifName != name
    {
      EmissionOf(p.counters, State(polls), p.at, m);
    }
  }

  // ----- what is emitted -----

  /** Every emitted rate is non-negative and at most a tenth above the interface speed. */
  lemma EmittedRatesAreSane(samples: seq<Sample>, k: int)
    requires EmitsAt(samples, k)
    ensures samples[k - 1].at < samples[k].at
    ensures 0.0 <= RateIn(samples, k) <= samples[k].counter.speedBps as real * 1.1
    ensures 0.0 <= RateOut(samples, k) <= samples[k].counter.speedBps as real * 1.1
  {
    RateIsNonNegative(samples[k].counter.inOctets - samples[k - 1].counter.inOctets, samples[k].at - samples[k - 1].at);
    RateIsNonNegative(samples[k].counter.outOctets - samples[k - 1].counter.outOctets,
      samples[k].at - samples[k - 1].at);
  }

  lemma RateIsNonNegative(octets: int, nanos: int)
    requires octets >= 0 && nanos > 0
    ensures BitsPerSecond(octets, nanos) >= 0.0
  {
    assert Seconds(nanos) > 0.0;
    QuotientIsNonNegative(octets as real * 8.0, Seconds(nanos));
  }

  lemma QuotientIsNonNegative(a: real, b: real)
    requires a >= 0.0 && b > 0.0
    ensures a / b >= 0.0
  {
  }

  lemma {:induction false} FlaggedIffOddRun(samples: seq<Sample>, k: int)
    ensures Flagged(samples, k) <==> BadRun(samples, k) % 2 == 1
    decreases k
  {
    if 1 <= k { FlaggedIffOddRun(samples, k - 1); }
  }

  /** A sample emits exactly when it is sound itself and the run of anomalous samples right before
      it has even length: every second anomaly of a run is swallowed as a fresh baseline. */
  lemma EmitsIffEvenRun(samples: seq<Sample>, k: int)
    requires 1 <= k < |samples|
    ensures EmitsAt(samples, k) <==> !Bad(samples, k) && BadRun(samples, k - 1) % 2 == 0
  {
    FlaggedIffOddRun(samples, k - 1);
  }

  /** An isolated anomaly silences itself and the sample after it. */
  lemma IsolatedAnomalySilencesTwo(samples: seq<Sample>, k: int)
    requires 1 <= k < |samples| && Bad(samples, k) && !Bad(samples, k - 1)
    ensures !EmitsAt(samples, k) && !EmitsAt(samples, k + 1)
  {
    assert BadRun(samples, k) == 1;
    if k + 1 < |samples| { EmitsIffEvenRun(samples, k + 1); }
  }

  /** No emission window of the stream starts at an anomalous sample. */
  ghost predicate WindowsStartClean(samples: seq<Sample>) {
    forall k :: EmitsAt(samples, k) ==> !Bad(samples, k - 1)
  }

  /** Windows start clean exactly when no run of anomalous samples of even length is followed by a
      sound sample. */
  lemma WindowsStartCleanIff(samples: seq<Sample>)
    ensures WindowsStartClean(samples)
            <==> forall k :: 1 <= k < |samples| && !Bad(samples, k) && Bad(samples, k - 1)
                   ==> BadRun(samples, k - 1) % 2 == 1
  {
    forall k | 1 <= k < |samples|
      ensures EmitsAt(samples, k) <==> !Bad(samples, k) && BadRun(samples, k - 1) % 2 == 0
    {
      EmitsIffEvenRun(samples, k);
    }
    if !WindowsStartClean(samples) {
      var k :| EmitsAt(samples, k) && Bad(samples, k - 1);
      assert 1 <= k < |samples| && !Bad(samples, k) && BadRun(samples, k - 1) % 2 == 0;
    }
  }

  /** A counter that falls twice in a row: the rate of the fourth sample is measured from the
      third, which is itself anomalous. */
  lemma DoubleResetStartsDirty()
    ensures var c := (octets: nat) => Counter("ether1", octets, 0, 1000);
            var samples := [Sample(0, c(100)), Sample(1000000000, c(50)), Sample(2000000000, c(20)),
              Sample(3000000000, c(30))];
            Bad(samples, 2) && EmitsAt(samples, 3) && !WindowsStartClean(samples)
  {
    var c := (octets: nat) => Counter("ether1", octets, 0, 1000);
    var samples := [Sample(0, c(100)), Sample(1000000000, c(50)), Sample(2000000000, c(20)), Sample(3000000000, c(30))];
    assert Bad(samples, 1) && Bad(samples, 2);
    assert !Flagged(samples, 0);
    assert Flagged(samples, 1);
    assert !Flagged(samples, 2);
    assert Seconds(1000000000) == 1.0;
    assert BitsPerSecond(10, 1000000000) == 80.0;
    assert BitsPerSecond(0, 1000000000) == 0.0;
    assert !Bad(samples, 3);
    assert EmitsAt(samples, 3);
  }

  // ----- the same in the samples' own numbers -----

  /** The clock advanced, no counter fell, the speed is known, and neither direction carried more
      than the speed plus a tenth allows in that time. */
  predicate SoundPair(a: Sample, b: Sample) {
    && a.at < b.at && a.counter.inOctets <= b.counter.inOctets && a.counter.outOctets <= b.counter.outOctets
    && b.counter.speedBps > 0
    && 8000000000.0 * (b.counter.inOctets - a.counter.inOctets) as real
       <= 1.1 * b.counter.speedBps as real * (b.at - a.at) as real
    && 8000000000.0 * (b.counter.outOctets - a.counter.outOctets) as real
       <= 1.1 * b.counter.speedBps as real * (b.at - a.at) as real
  }

  /** Length of the run of unsound pairs that ends at `k`. */
  function UnsoundRun(samples: seq<Sample>, k: int): nat
    decreases k
  {
    if 1 <= k < |samples| && !SoundPair(samples[k - 1], samples[k]) then 1 + UnsoundRun(samples, k - 1) else 0
  }

  lemma RateTimesTime(octets: int, nanos: int)
    requires nanos > 0
    ensures BitsPerSecond(octets, nanos) * nanos as real == 8000000000.0 * octets as real
  {
    var seconds := Seconds(nanos);
    assert seconds > 0.0 && seconds * 1000000000.0 == nanos as real;
    QuotientTimes(octets as real * 8.0, seconds);
    assert BitsPerSecond(octets, nanos) * seconds == octets as real * 8.0;
  }

  lemma QuotientTimes(a: real, b: real)
    requires b > 0.0
    ensures a / b * b == a
  {
  }

  lemma OrderOfProducts(a: real, b: real, c: real)
    requires c > 0.0
    ensures (a > b <==> a * c > b * c) && (a == b <==> a * c == b * c)
  {
    assert a * c - b * c == (a - b) * c;
  }

  lemma RateExceedsIff(octets: int, nanos: int, limit: real)
    requires nanos > 0
    ensures BitsPerSecond(octets, nanos) > limit <==> 8000000000.0 * octets as real > limit * nanos as real
  {
    RateTimesTime(octets, nanos);
    OrderOfProducts(BitsPerSecond(octets, nanos), limit, nanos as real);
  }

  lemma BadIff(samples: seq<Sample>, k: int)
    ensures Bad(samples, k) <==> 1 <= k < |samples| && !SoundPair(samples[k - 1], samples[k])
  {
    if 1 <= k < |samples| && samples[k - 1].at < samples[k].at {
      var a, b := samples[k - 1], samples[k];
      var limit := b.counter.speedBps as real * 1.1;
      RateExceedsIff(b.counter.inOctets - a.counter.inOctets, b.at - a.at, limit);
      RateExceedsIff(b.counter.outOctets - a.counter.outOctets, b.at - a.at, limit);
    }
  }

  lemma {:induction false} RunsAgree(samples: seq<Sample>, k: int)
    ensures BadRun(samples, k) == UnsoundRun(samples, k)
    decreases k
  {
    BadIff(samples, k);
    if 1 <= k { RunsAgree(samples, k - 1); }
  }

  /** Rate times nanoseconds is eight billion times the octets. */
  predicate IsRate(bps: real, octets: int, nanos: int) {
    bps * nanos as real == 8000000000.0 * octets as real
  }

  lemma IsRateIff(bps: real, octets: int, nanos: int)
    requires nanos > 0
    ensures IsRate(bps, octets, nanos) <==> bps == BitsPerSecond(octets, nanos)
  {
    RateTimesTime(octets, nanos);
    OrderOfProducts(bps, BitsPerSecond(octets, nanos), nanos as real);
  }

  /** Round `k` emits a metric exactly when it reports the interface, the interface's last two samples
      are a sound pair, the run of unsound pairs before them has even length, and both rates are the
      octets between the two samples over the time between them. */
  lemma EmissionInNumbers(polls: seq<Poll>, k: nat, m: LinkMetrics)
    requires WellFormed(polls) && k < |polls|
    ensures var samples := Samples(polls[..k + 1], m.ifName);
            var n := |samples| - 1;
            m in EmittedAt(polls, k)
            <==> && Reports(polls[k].counters, m.ifName) && n >= 1 && SoundPair(samples[n - 1], samples[n])
                 && UnsoundRun(samples, n - 1) % 2 == 0 && m.collectedAt == polls[k].at
                 && var a, b := samples[n - 1], samples[n];
                    && IsRate(m.rxBps, b.counter.inOctets - a.counter.inOctets, b.at - a.at)
                    && IsRate(m.txBps, b.counter.outOctets - a.counter.outOctets, b.at - a.at)
  {
    var samples := Samples(polls[..k + 1], m.ifName);
    var n := |samples| - 1;
    StreamEmission(polls, k, m);
    if n >= 1 {
      EmitsIffEvenRun(samples, n);
      RunsAgree(samples, n - 1);
      BadIff(samples, n);
      var a, b := samples[n - 1], samples[n];
      if a.at < b.at {
        IsRateIff(m.rxBps, b.counter.inOctets - a.counter.inOctets, b.at - a.at);
        IsRateIff(m.txBps, b.counter.outOctets - a.counter.outOctets, b.at - a.at);
      }
    }
  }

  // ----- conservation -----

  /** Rate times nanoseconds, added up over the emissions of samples `i + 1` to `j`. */
  function CarriedIn(samples: seq<Sample>, i: int, j: int): real
    requires 0 <= i <= j < |samples| && forall k :: i < k <= j ==> EmitsAt(samples, k)
    decreases j - i
  {
    if i == j then 0.0
    else
      assert EmitsAt(samples, j);
      CarriedIn(samples, i, j - 1) + RateIn(samples, j) * (samples[j].at - samples[j - 1].at) as real
  }

  function CarriedOut(samples: seq<Sample>, i: int, j: int): real
    requires 0 <= i <= j < |samples| && forall k :: i < k <= j ==> EmitsAt(samples, k)
    decreases j - i
  {
    if i == j then 0.0
    else
      assert EmitsAt(samples, j);
      CarriedOut(samples, i, j - 1) + RateOut(samples, j) * (samples[j].at - samples[j - 1].at) as real
  }

  /** Over any stretch in which every sample emits, rate times nanoseconds adds up to eight billion
      times the octets counted between its ends: nothing is lost and nothing counted twice. */
  lemma {:induction false} RatesConserveOctets(samples: seq<Sample>, i: int, j: int)
    requires 0 <= i <= j < |samples| && forall k :: i < k <= j ==> EmitsAt(samples, k)
    ensures CarriedIn(samples, i, j)
            == 8000000000.0 * (samples[j].counter.inOctets - samples[i].counter.inOctets) as real
    ensures CarriedOut(samples, i, j)
            == 8000000000.0 * (samples[j].counter.outOctets - samples[i].counter.outOctets) as real
    decreases j - i
  {
    if i < j {
      RatesConserveOctets(samples, i, j - 1);
      assert EmitsAt(samples, j);
      var a, b := samples[j - 1], samples[j];
      RateTimesTime(b.counter.inOctets - a.counter.inOctets, b.at - a.at);
      RateTimesTime(b.counter.outOctets - a.counter.outOctets, b.at - a.at);
    }
  }
}
