/** The fixed-window rate limiter of the launcher bridge. Instants count from Go's zero time. */
module WindowLimiter {
  import opened Basics

  datatype Bucket = Bucket(count: nat, windowEnds: nat)

  const DEFAULT_LIMIT := 20
  const MINUTE := 60000000000

  /** What eviction keeps: buckets whose window is still running. */
  function Live(attempts: map<string, Bucket>, now: nat): map<string, Bucket> {
    map k | k in attempts && attempts[k].windowEnds != 0 && now < attempts[k].windowEnds :: attempts[k]
  }

  /** The buckets after one call and whether it is allowed. */
  function Admit(attempts: map<string, Bucket>, limit: nat, window: nat, key: string,
                 now: nat): (map<string, Bucket>, bool) {
    var live := Live(attempts, now);
    if key !in live then (live[key := Bucket(1, now + window)], true)
    else if live[key].count >= limit then (live, false)
    else (live[key := live[key].(count := live[key].count + 1)], true)
  }

  class BridgeRateLimiter {
    const limit: nat
    const window: nat
    var attempts: map<string, Bucket>

    constructor (limit: int, window: int)
      ensures this.limit == (if limit <= 0 then 20 else limit)
              && this.window == (if window <= 0 then 60000000000 else window)
      ensures this.limit > 0 && this.window > 0 && attempts == map[]
    {
      this.limit := if limit <= 0 then DEFAULT_LIMIT else limit;
      this.window := if window <= 0 then MINUTE else window;
      attempts := map[];
    }

    method EvictExpired(now: nat)
      modifies this
      ensures attempts == Live(old(attempts), now)
    {
      var left := attempts.Keys;
      ghost var before := attempts;
      while left != {}
        invariant left <= before.Keys
        invariant attempts == map k | k in before && (k in left || k in Live(before, now)) :: before[k]
        decreases left
      {
        var key :| key in left;
        left := left - {key};
        var bucket := attempts[key];
        if bucket.windowEnds == 0 || now >= bucket.windowEnds {
          attempts := attempts - {key};
        }
      }
    }

    method Allow(key: string, now: nat) returns (allowed: bool)
      modifies this
      ensures (attempts, allowed) == Admit(old(attempts), limit, window, key, now)
    {
      EvictExpired(now);
      if key !in attempts {
        attempts := attempts[key := Bucket(1, now + window)];
        return true;
      }
      var bucket := attempts[key];
      if bucket.count >= limit {
        return false;
      }
      attempts := attempts[key := bucket.(count := bucket.count + 1)];
      return true;
    }
  }

  // ----- traces -----

  datatype Call = Call(key: string, now: nat)

  function Buckets(limit: nat, window: nat, calls: seq<Call>): map<string, Bucket> {
    if calls == [] then map[]
    else
      var c := calls[|calls| - 1];
      Admit(Buckets(limit, window, calls[..|calls| - 1]), limit, window, c.key, c.now).0
  }

  /** Whether the last call of the trace is allowed. */
  predicate Allowed(limit: nat, window: nat, calls: seq<Call>)
    requires calls != []
  {
    var c := calls[|calls| - 1];
    Admit(Buckets(limit, window, calls[..|calls| - 1]), limit, window, c.key, c.now).1
  }

  ghost predicate ClockAdvances(calls: seq<Call>) {
    forall i, j :: 0 <= i <= j < |calls| ==> calls[i].now <= calls[j].now
  }

  /** The instants of one key's calls. */
  function Times(calls: seq<Call>, key: string): seq<nat> {
    if calls == [] then []
    else
      var c := calls[|calls| - 1];
      Times(calls[..|calls| - 1], key) + if c.key == key then [c.now] else []
  }

  // ----- an independent limiter for one key -----

  /** The last window opened and how many calls it admitted; no map, no eviction. */
  datatype Ledger = Fresh | Open(start: nat, count: nat)

  predicate Grants(l: Ledger, limit: nat, window: nat, now: nat) {
    l.Fresh? || now >= l.start + window || l.count < limit
  }

  function Book(l: Ledger, limit: nat, window: nat, now: nat): Ledger {
    if l.Fresh? || now >= l.start + window then Open(now, 1)
    else if l.count < limit then Open(l.start, l.count + 1)
    else l
  }

  function LedgerOf(limit: nat, window: nat, times: seq<nat>): Ledger {
    if times == [] then Fresh
    else Book(LedgerOf(limit, window, times[..|times| - 1]), limit, window, times[|times| - 1])
  }

  /** The running window of a key, as the shared map shows it at an instant. */
  function Running(attempts: map<string, Bucket>, key: string, now: nat): Option<Bucket> {
    Look(Live(attempts, now), key)
  }

  function LedgerRunning(l: Ledger, window: nat, now: nat): Option<Bucket> {
    if l.Open? && now < l.start + window then Some(Bucket(l.count, l.start + window)) else None
  }

  lemma OtherKeysCall(attempts: map<string, Bucket>, limit: nat, window: nat, other: string, at: nat, key: string,
                      now: nat)
    requires other != key && at <= now
    ensures Running(Admit(attempts, limit, window, other, at).0, key, now) == Running(attempts, key, now)
  {
  }

  lemma OwnCall(attempts: map<string, Bucket>, limit: nat, window: nat, key: string, at: nat, l: Ledger)
    requires window > 0 && Running(attempts, key, at) == LedgerRunning(l, window, at)
    ensures Admit(attempts, limit, window, key, at).1 <==> Grants(l, limit, window, at)
    ensures forall now: nat :: at <= now ==>
              Running(Admit(attempts, limit, window, key, at).0, key, now)
                == LedgerRunning(Book(l, limit, window, at), window, now)
  {
    var live := Live(attempts, at);
    var after := Admit(attempts, limit, window, key, at).0;
    assert Look(live, key) == LedgerRunning(l, window, at);
    var b := Book(l, limit, window, at);
    assert key in after && b.Open? && after[key] == Bucket(b.count, b.start + window);
  }

  /** At every later instant the shared map shows of a key what its own ledger shows. */
  lemma {:induction false} MapShowsLedger(limit: nat, window: nat, calls: seq<Call>, key: string, now: nat)
    requires window > 0 && ClockAdvances(calls) && (calls != [] ==> calls[|calls| - 1].now <= now)
    ensures Running(Buckets(limit, window, calls), key, now)
            == LedgerRunning(LedgerOf(limit, window, Times(calls, key)), window, now)
  {
    if calls != [] {
      var n := |calls| - 1;
      var c, before := calls[n], calls[..n];
      if c.key == key {
        MapShowsLedger(limit, window, before, key, c.now);
        OwnCall(Buckets(limit, window, before), limit, window, key, c.now, LedgerOf(limit, window, Times(before, key)));
        assert Times(calls, key)[..|Times(calls, key)| - 1] == Times(before, key);
      } else {
        MapShowsLedger(limit, window, before, key, now);
        OtherKeysCall(Buckets(limit, window, before), limit, window, c.key, c.now, key, now);
        assert Times(calls, key) == Times(before, key);
      }
    }
  }

  /** With a clock that never goes back, every decision is the one an independent limiter for that
      key alone would take: evicting on other keys' calls never matters. */
  lemma KeysAreIndependent(limit: nat, window: nat, calls: seq<Call>)
    requires window > 0 && ClockAdvances(calls) && calls != []
    ensures var c := calls[|calls| - 1];
            Allowed(limit, window, calls)
            <==> Grants(LedgerOf(limit, window, Times(calls[..|calls| - 1], c.key)), limit, window, c.now)
  {
    var c := calls[|calls| - 1];
    var before := calls[..|calls| - 1];
    MapShowsLedger(limit, window, before, c.key, c.now);
    OwnCall(Buckets(limit, window, before), limit, window, c.key, c.now, LedgerOf(limit, window, Times(before, c.key)));
  }

  /** If the clock goes back, another key's call can free this key. */
  lemma ClockMustAdvance()
    ensures var calls := [Call("a", 0), Call("b", 20), Call("a", 5)];
            Allowed(1, 10, calls) && !Grants(LedgerOf(1, 10, Times(calls[..2], "a")), 1, 10, 5)
  {
    var one, two, calls := [Call("a", 0)], [Call("a", 0), Call("b", 20)], [Call("a", 0), Call("b", 20), Call("a", 5)];
    assert calls[..2] == two && two[..1] == one && one[..0] == [];
    assert Buckets(1, 10, one) == map["a" := Bucket(1, 10)];
    assert Buckets(1, 10, two) == map["b" := Bucket(1, 30)];
    assert Times(one, "a") == [0];
    assert Times(two, "a") == [0];
    assert [0][..0] == [];
    assert LedgerOf(1, 10, [0]) == Open(0, 1);
  }

  // ----- how much is admitted -----

  /** Calls the ledger granted at `from` or later. */
  function GrantedSince(limit: nat, window: nat, times: seq<nat>, from: int): nat {
    if times == [] then 0
    else
      var rest, now := times[..|times| - 1], times[|times| - 1];
      GrantedSince(limit, window, rest, from)
      + if Grants(LedgerOf(limit, window, rest), limit, window, now) && from <= now then 1 else 0
  }

  ghost predicate Ascends(times: seq<nat>) {
    forall i, j :: 0 <= i <= j < |times| ==> times[i] <= times[j]
  }

  lemma {:induction false} EarlierCountsMore(limit: nat, window: nat, times: seq<nat>, a: int, b: int)
    requires a <= b
    ensures GrantedSince(limit, window, times, a) >= GrantedSince(limit, window, times, b)
  {
    if times != [] { EarlierCountsMore(limit, window, times[..|times| - 1], a, b); }
  }

  /** The ledger's window began at a call and has granted its count, at most the limit; nothing was
      granted after it, and the stretch of one window before it was granted at most the limit. */
  lemma {:induction false} LedgerAccounts(limit: nat, window: nat, times: seq<nat>, a: int)
    requires limit > 0 && window > 0 && Ascends(times) && times != []
    ensures var l := LedgerOf(limit, window, times);
            && l.Open? && l.start <= times[|times| - 1] && 1 <= l.count <= limit
            && GrantedSince(limit, window, times, l.start) == l.count
            && GrantedSince(limit, window, times, l.start + window) == 0
            && (l.start - window < a <= l.start ==> GrantedSince(limit, window, times, a) <= l.count + limit)
    decreases |times|
  {
    var n := |times| - 1;
    var rest, now := times[..n], times[n];
    if rest != [] {
      var l := LedgerOf(limit, window, rest);
      LedgerAccounts(limit, window, rest, a);
      assert l.start <= rest[n - 1] <= now;
      if now >= l.start + window {
        EarlierCountsMore(limit, window, rest, l.start + window, now);
        EarlierCountsMore(limit, window, rest, l.start + window, now + window);
        if now - window < a { EarlierCountsMore(limit, window, rest, l.start, a); }
      }
    }
  }

  lemma {:induction false} TwiceTheLimitPerKey(limit: nat, window: nat, times: seq<nat>, a: int)
    requires limit > 0 && window > 0 && Ascends(times)
    ensures GrantedSince(limit, window, times, a) - GrantedSince(limit, window, times, a + window) <= 2 * limit
    decreases |times|
  {
    if times != [] {
      var n := |times| - 1;
      TwiceTheLimitPerKey(limit, window, times[..n], a);
      if a <= times[n] < a + window {
        LedgerAccounts(limit, window, times, a);
        var l := LedgerOf(limit, window, times);
        if l.start < a { EarlierCountsMore(limit, window, times, l.start, a); }
      }
    }
  }

  /** Calls of a key that the shared limiter allowed at an instant in `[from, to)`. */
  function AllowedIn(limit: nat, window: nat, calls: seq<Call>, key: string, from: int, to: int): nat {
    if calls == [] then 0
    else
      var rest, c := calls[..|calls| - 1], calls[|calls| - 1];
      AllowedIn(limit, window, rest, key, from, to)
      + if c.key == key && Allowed(limit, window, calls) && from <= c.now < to then 1 else 0
  }

  lemma {:induction false} TimesAscend(calls: seq<Call>, key: string)
    requires ClockAdvances(calls)
    ensures Ascends(Times(calls, key))
    ensures forall i :: 0 <= i < |Times(calls, key)| ==> calls != [] && Times(calls, key)[i] <= calls[|calls| - 1].now
  {
    if calls != [] { TimesAscend(calls[..|calls| - 1], key); }
  }

  lemma {:induction false} AllowedIsGranted(limit: nat, window: nat, calls: seq<Call>, key: string, from: int, to: int)
    requires window > 0 && ClockAdvances(calls) && from <= to
    ensures AllowedIn(limit, window, calls, key, from, to)
            == GrantedSince(limit, window, Times(calls, key), from) - GrantedSince(limit, window, Times(calls, key), to)
  {
    if calls != [] {
      var n := |calls| - 1;
      AllowedIsGranted(limit, window, calls[..n], key, from, to);
      if calls[n].key == key {
        KeysAreIndependent(limit, window, calls);
        assert Times(calls, key)[..|Times(calls, key)| - 1] == Times(calls[..n], key);
      } else {
        assert Times(calls, key) == Times(calls[..n], key);
      }
    }
  }

  /** In any half-open stretch of one window's length a key is allowed at most twice the limit,
      whatever the other keys do. */
  lemma AtMostTwiceTheLimit(limit: nat, window: nat, calls: seq<Call>, key: string, from: int)
    requires limit > 0 && window > 0 && ClockAdvances(calls)
    ensures AllowedIn(limit, window, calls, key, from, from + window) <= 2 * limit
  {
    TimesAscend(calls, key);
    AllowedIsGranted(limit, window, calls, key, from, from + window);
    TwiceTheLimitPerKey(limit, window, Times(calls, key), from);
  }

  /** In the window a running bucket covers, its key is allowed exactly as often as the bucket
      counts, which is at most the limit. */
  lemma AtMostTheLimitPerBucket(limit: nat, window: nat, calls: seq<Call>, key: string, b: Bucket)
    requires limit > 0 && window > 0 && ClockAdvances(calls) && calls != []
    requires Running(Buckets(limit, window, calls), key, calls[|calls| - 1].now) == Some(b)
    ensures AllowedIn(limit, window, calls, key, b.windowEnds - window, b.windowEnds) == b.count <= limit
  {
    var times, now := Times(calls, key), calls[|calls| - 1].now;
    assert LedgerRunning(LedgerOf(limit, window, times), window, now) == Some(b) by {
      MapShowsLedger(limit, window, calls, key, now);
    }
    assert Ascends(times) by { TimesAscend(calls, key); }
    RunningBucketAccounts(limit, window, times, now, b);
    AllowedIsGranted(limit, window, calls, key, b.windowEnds - window, b.windowEnds);
  }

  lemma RunningBucketAccounts(limit: nat, window: nat, times: seq<nat>, now: nat, b: Bucket)
    requires limit > 0 && window > 0 && Ascends(times)
             && LedgerRunning(LedgerOf(limit, window, times), window, now) == Some(b)
    ensures GrantedSince(limit, window, times, b.windowEnds - window) == b.count <= limit
    ensures GrantedSince(limit, window, times, b.windowEnds) == 0
  {
    LedgerAccounts(limit, window, times, 0);
  }

  lemma {:induction false} NothingIsGrantedLater(limit: nat, window: nat, times: seq<nat>, from: int)
    requires forall i :: 0 <= i < |times| ==> times[i] < from
    ensures GrantedSince(limit, window, times, from) == 0
  {
    if times != [] { NothingIsGrantedLater(limit, window, times[..|times| - 1], from); }
  }

  /** A call is refused only if its key was allowed at least as often as the limit, less than one
      window ago. */
  lemma RefusalsAreEarned(limit: nat, window: nat, calls: seq<Call>)
    requires limit > 0 && window > 0 && ClockAdvances(calls) && calls != [] && !Allowed(limit, window, calls)
    ensures var n := |calls| - 1;
            AllowedIn(limit, window, calls[..n], calls[n].key, calls[n].now - window + 1, calls[n].now + 1) >= limit
  {
    var n := |calls| - 1;
    var before, c := calls[..n], calls[n];
    var times := Times(before, c.key);
    var l := LedgerOf(limit, window, times);
    KeysAreIndependent(limit, window, calls);
    TimesAscend(before, c.key);
    LedgerAccounts(limit, window, times, 0);
    EarlierCountsMore(limit, window, times, c.now - window + 1, l.start);
    NothingIsGrantedLater(limit, window, times, c.now + 1);
    AllowedIsGranted(limit, window, before, c.key, c.now - window + 1, c.now + 1);
  }
}
