/** Bulk-download leases: the lease keys, the two ways to acquire them, and the composite lease. */
module Leases {
  import opened Basics
  import opened Text

  // ----- keys -----

  function Digit(d: nat): char
    requires d < 10
  {
    "0123456789"[d]
  }

  function Decimal(n: nat): string {
    if n < 10 then [Digit(n)] else Decimal(n / 10) + [Digit(n % 10)]
  }

  lemma {:induction false} DecimalIsInjective(a: nat, b: nat)
    requires Decimal(a) == Decimal(b)
    ensures a == b
    decreases a
  {
    var s, t := Decimal(a), Decimal(b);
    assert (|s| == 1 <==> a < 10) && (|t| == 1 <==> b < 10);
    assert s[|s| - 1] == Digit(a % 10) && t[|t| - 1] == Digit(b % 10);
    if a >= 10 && b >= 10 {
      assert s[..|s| - 1] == Decimal(a / 10) && t[..|t| - 1] == Decimal(b / 10);
      DecimalIsInjective(a / 10, b / 10);
    }
  }

  /** The number a string of decimal digits stands for. */
  function ValueOf(digits: string): int {
    if digits == "" then 0
    else ValueOf(digits[..|digits| - 1]) * 10 + (digits[|digits| - 1] as int - '0' as int)
  }

  lemma {:induction false} DecimalIsTheNumber(n: nat)
    ensures ValueOf(Decimal(n)) == n && forall c :: c in Decimal(n) ==> '0' <= c <= '9'
  {
    var s := Decimal(n);
    DigitIs(n % 10);
    if n < 10 {
      assert s == [Digit(n)] && s[..0] == "" && n % 10 == n;
    } else {
      DecimalIsTheNumber(n / 10);
      assert s[..|s| - 1] == Decimal(n / 10) && s[|s| - 1] == Digit(n % 10);
    }
  }

  lemma DigitIs(d: nat)
    requires d < 10
    ensures '0' <= Digit(d) <= '9' && Digit(d) as int == '0' as int + d
  {
  }

  const PREFIX := "backup.bulk_download:"

  function GlobalKey(slot: int): string {
    PREFIX + ("global:" + Decimal(if slot < 0 then 0 else slot))
  }

  function OrAnonymous(actor: string): string {
    if TrimSpace(actor) == "" then "anonymous" else TrimSpace(actor)
  }

  function ActorKey(actor: string): string {
    PREFIX + OrAnonymous(actor)
  }

  lemma PrefixIsInjective(a: string, b: string)
    ensures PREFIX + a == PREFIX + b <==> a == b
  {
    assert (PREFIX + a)[|PREFIX|..] == a && (PREFIX + b)[|PREFIX|..] == b;
  }

  lemma SlotKeysDiffer(a: nat, b: nat)
    ensures GlobalKey(a) == GlobalKey(b) <==> a == b
  {
    PrefixIsInjective("global:" + Decimal(a), "global:" + Decimal(b));
    if GlobalKey(a) == GlobalKey(b) {
      assert ("global:" + Decimal(a))[7..] == Decimal(a) && ("global:" + Decimal(b))[7..] == Decimal(b);
      DecimalIsInjective(a, b);
    }
  }

  lemma SlotKeyIs(slot: nat)
    ensures GlobalKey(slot) == "backup.bulk_download:" + "global:" + Decimal(slot) && ValueOf(Decimal(slot)) == slot
  {
    DecimalIsTheNumber(slot);
    assert PREFIX + ("global:" + Decimal(slot)) == PREFIX + "global:" + Decimal(slot);
  }

  /** An actor key is a slot key exactly when the trimmed actor spells out the slot. */
  lemma ActorKeyIsSlotKeyIff(actor: string, slot: nat)
    ensures ActorKey(actor) == GlobalKey(slot) <==> TrimSpace(actor) == "global:" + Decimal(slot)
  {
    PrefixIsInjective(OrAnonymous(actor), "global:" + Decimal(slot));
    assert "anonymous"[0] != ("global:" + Decimal(slot))[0];
  }

  /** Who asks: the parts of the request the actor name is taken from. */
  datatype Caller = Caller(userID: Option<string>, normalizedName: string, name: string, address: string)

  function ActorName(c: Caller): string {
    if c.userID.Some? then "user:" + c.userID.value
    else if TrimSpace(c.normalizedName) != "" then "user:" + Lower(TrimSpace(c.normalizedName))
    else if TrimSpace(c.name) != "" then "user:" + Lower(TrimSpace(c.name))
    else if TrimSpace(c.address) != "" then "ip:" + TrimSpace(c.address)
    else "anonymous"
  }

  lemma {:induction false} TrimRightKeepsStart(s: string)
    requires s != "" && !IsSpace(s[0])
    ensures TrimRight(s) != "" && TrimRight(s)[0] == s[0]
  {
    if IsSpace(s[|s| - 1]) { TrimRightKeepsStart(s[..|s| - 1]); }
  }

  /** The actor names the handler makes never collide with a slot. */
  lemma CallersNeverCollide(c: Caller, slot: nat)
    ensures ActorKey(ActorName(c)) != GlobalKey(slot)
  {
    var actor := ActorName(c);
    assert actor[0] == 'u' || actor[0] == 'i' || actor[0] == 'a';
    TrimRightKeepsStart(actor);
    assert TrimSpace(actor)[0] == actor[0];
    ActorKeyIsSlotKeyIff(actor, slot);
    assert ("global:" + Decimal(slot))[0] == 'g';
  }

  /** A trimmed word behind a label is kept whole. */
  lemma LabelledIsTrimmed(kind: string, word: string)
    requires kind != "" && !IsSpace(kind[0]) && word != "" && Trimmed(word)
    ensures OrAnonymous(kind + word) == kind + word
  {
    var whole := kind + word;
    assert whole[0] == kind[0] && whole[|whole| - 1] == word[|word| - 1];
    TrimmedIsFixed(whole);
  }

  lemma LowerStaysTrimmed(s: string)
    requires Trimmed(s)
    ensures Trimmed(Lower(s)) && |Lower(s)| == |s|
  {
  }

  /** The lease key of a request is made of its user id, else of a user name in lower case, else of
      the address it came from. */
  lemma CallerKeys(c: Caller)
    ensures var key, user := ActorKey(ActorName(c)), "backup.bulk_download:" + "user:";
            match c.userID
            case Some(id) => id != "" && Trimmed(id) ==> key == user + id
            case None =>
              if TrimSpace(c.normalizedName) != "" then key == user + Lower(TrimSpace(c.normalizedName))
              else if TrimSpace(c.name) != "" then key == user + Lower(TrimSpace(c.name))
              else if TrimSpace(c.address) != ""
                then key == "backup.bulk_download:" + "ip:" + TrimSpace(c.address)
              else key == "backup.bulk_download:" + "anonymous"
  {
    if c.userID.Some? {
      if c.userID.value != "" && Trimmed(c.userID.value) { LabelledIsTrimmed("user:", c.userID.value); }
      assert PREFIX + ("user:" + c.userID.value) == PREFIX + "user:" + c.userID.value;
    } else {
      NamedCallerKeys(c);
    }
  }

  lemma NamedCallerKeys(c: Caller)
    requires c.userID.None?
    ensures var key := ActorKey(ActorName(c));
            if TrimSpace(c.normalizedName) != "" then key == PREFIX + "user:" + Lower(TrimSpace(c.normalizedName))
            else if TrimSpace(c.name) != "" then key == PREFIX + "user:" + Lower(TrimSpace(c.name))
            else if TrimSpace(c.address) != "" then key == PREFIX + "ip:" + TrimSpace(c.address)
            else key == PREFIX + "anonymous"
  {
    var name := if TrimSpace(c.normalizedName) != "" then TrimSpace(c.normalizedName) else TrimSpace(c.name);
    TrimSpaceTrims(c.normalizedName);
    TrimSpaceTrims(c.name);
    TrimSpaceTrims(c.address);
    LowerStaysTrimmed(name);
    if name != "" {
      LabelledIsTrimmed("user:", Lower(name));
      assert PREFIX + ("user:" + Lower(name)) == PREFIX + "user:" + Lower(name);
    } else if TrimSpace(c.address) != "" {
      LabelledIsTrimmed("ip:", TrimSpace(c.address));
      assert PREFIX + ("ip:" + TrimSpace(c.address)) == PREFIX + "ip:" + TrimSpace(c.address);
    } else {
      TrimmedIsFixed("anonymous");
    }
  }

  /** Requests of two users share a key exactly when they are the same user. */
  lemma UsersShareAKeyIff(a: Caller, b: Caller)
    requires a.userID.Some? && a.userID.value != "" && Trimmed(a.userID.value)
    requires b.userID.Some? && b.userID.value != "" && Trimmed(b.userID.value)
    ensures ActorKey(ActorName(a)) == ActorKey(ActorName(b)) <==> a.userID == b.userID
  {
    var x, y := a.userID.value, b.userID.value;
    CallerKeys(a);
    CallerKeys(b);
    var user := "backup.bulk_download:" + "user:";
    assert (user + x)[|user|..] == x && (user + y)[|user|..] == y;
  }

  /** A user never shares a key with a request that is known only by its address. */
  lemma UsersAndAddressesDiffer(a: Caller, b: Caller)
    requires a.userID.Some? && a.userID.value != "" && Trimmed(a.userID.value)
    requires b.userID.None? && TrimSpace(b.normalizedName) == "" && TrimSpace(b.name) == ""
    ensures ActorKey(ActorName(a)) != ActorKey(ActorName(b))
  {
    CallerKeys(a);
    CallerKeys(b);
    assert ActorKey(ActorName(a))[|PREFIX|] == 'u' && ActorKey(ActorName(b))[|PREFIX|] != 'u';
  }

  // ----- acquisition: one specification -----

  datatype Reason = GlobalLimit | ActorLimit

  datatype Admission = Granted(slot: nat) | Rejected(reason: Reason) | Unavailable

  function LowestFree(held: set<string>, from: nat, limit: nat): (slot: Option<nat>)
    ensures slot.Some? ==> from <= slot.value < limit && GlobalKey(slot.value) !in held
                           && forall k :: from <= k < slot.value ==> GlobalKey(k) in held
    ensures slot.None? ==> forall k :: from <= k < limit ==> GlobalKey(k) in held
    decreases limit - from
  {
    if from >= limit then None else if GlobalKey(from) !in held then Some(from) else LowestFree(held, from + 1, limit)
  }

  /** The lowest free slot together with the actor's own lock, or the reason there is none; a
      rejected request changes nothing. */
  function Admit(held: set<string>, limit: nat, actor: string): (Admission, set<string>) {
    var slot := LowestFree(held, 0, limit);
    if slot.None? then (Rejected(GlobalLimit), held)
    else if ActorKey(actor) in held then (Rejected(ActorLimit), held)
    else (Granted(slot.value), held + {GlobalKey(slot.value), ActorKey(actor)})
  }

  /** The free slot is the very lock the actor name stands for. */
  predicate SelfBlocks(held: set<string>, limit: nat, actor: string) {
    LowestFree(held, 0, limit).Some? && ActorKey(actor) == GlobalKey(LowestFree(held, 0, limit).value)
  }

  /** Taking the slot first makes a colliding actor wait for itself. */
  function AdmitInTwoSteps(held: set<string>, limit: nat, actor: string): (Admission, set<string>) {
    if SelfBlocks(held, limit, actor) then (Rejected(ActorLimit), held) else Admit(held, limit, actor)
  }

  /** A configured limit of at least one is used as it is; nothing lower is. */
  function AtLeastOne(limit: int): (n: nat)
    ensures limit >= 1 ==> n == limit
    ensures limit <= 1 ==> n == 1
  {
    if limit < 1 then 1 else limit
  }

  /** The shared lock table as one process uses it; `failsAt` is the attempt at which the
      repository errors, if any. */
  class LockTable {
    var held: set<string>

    constructor (held: set<string>)
      ensures this.held == held
    {
      this.held := held;
    }

    /** All keys on one connection: locks taken by the same connection do not block each other,
        and a busy key gives everything back. */
    method TryAcquireAll(keys: seq<string>) returns (blocked: int)
      modifies this
      ensures -1 <= blocked < |keys|
      ensures blocked == -1 ==> held == old(held) + (set k | k in keys) && forall k :: k in keys ==> k !in old(held)
      ensures blocked >= 0 ==> held == old(held) && keys[blocked] in old(held)
      ensures blocked >= 0 ==> forall i :: 0 <= i < blocked ==> keys[i] !in old(held)
    {
      var before := held;
      for i := 0 to |keys|
        invariant held == before + (set k | k in keys[..i])
        invariant forall j :: 0 <= j < i ==> keys[j] !in before
      {
        assert keys[..i + 1] == keys[..i] + [keys[i]];
        if keys[i] in before {
          held := before;
          return i;
        }
        held := held + {keys[i]};
      }
      assert keys[..|keys|] == keys;
      return -1;
    }

    method TryAcquire(key: string) returns (acquired: bool)
      modifies this
      ensures acquired == (key !in old(held)) && held == old(held) + {key}
    {
      var blocked := TryAcquireAll([key]);
      acquired := blocked == -1;
    }

    method Release(key: string)
      modifies this
      ensures held == old(held) - {key}
    {
      held := held - {key};
    }

    /** Slot and actor in one attempt per slot. */
    method AcquireCombined(configured: int, actor: string, failsAt: int) returns (a: Admission)
      modifies this
      ensures a.Unavailable? ==> failsAt >= 0 && held == old(held)
      ensures !a.Unavailable? ==> (a, held) == Admit(old(held), AtLeastOne(configured), actor)
    {
      var limit := AtLeastOne(configured);
      for slot := 0 to limit
        invariant held == old(held)
        invariant LowestFree(held, slot, limit) == LowestFree(held, 0, limit)
      {
        if slot == failsAt { return Unavailable; }
        var keys := [GlobalKey(slot), ActorKey(actor)];
        var blocked := TryAcquireAll(keys);
        if blocked == -1 {
          assert held == old(held) + {GlobalKey(slot), ActorKey(actor)};
          return Granted(slot);
        }
        if blocked == 1 {
          assert keys[0] !in old(held) && keys[1] in old(held);
          return Rejected(ActorLimit);
        }
      }
      return Rejected(GlobalLimit);
    }

    method AcquireSlot(configured: int, failsAt: int) returns (slot: Option<nat>, failed: bool)
      modifies this
      ensures failed ==> failsAt >= 0 && held == old(held)
      ensures !failed ==> slot == LowestFree(old(held), 0, AtLeastOne(configured))
      ensures !failed ==> held == old(held) + if slot.Some? then {GlobalKey(slot.value)} else {}
    {
      var limit := AtLeastOne(configured);
      for k := 0 to limit
        invariant held == old(held)
        invariant LowestFree(held, k, limit) == LowestFree(held, 0, limit)
      {
        if k == failsAt { return None, true; }
        var acquired := TryAcquire(GlobalKey(k));
        if acquired { return Some(k), false; }
        assert held == old(held);
      }
      return None, false;
    }

    /** A slot first, then the actor's lock; the slot is given back if the second step does not
        succeed. */
    method AcquireTwoStep(configured: int, actor: string, failsAt: int, actorFails: bool) returns (a: Admission)
      modifies this
      ensures a.Unavailable? ==> (failsAt >= 0 || actorFails) && held == old(held)
      ensures !a.Unavailable? ==> (a, held) == AdmitInTwoSteps(old(held), AtLeastOne(configured), actor)
    {
      var slot, failed := AcquireSlot(configured, failsAt);
      if failed { return Unavailable; }
      if slot.None? {
        assert held == old(held);
        return Rejected(GlobalLimit);
      }
      assert GlobalKey(slot.value) !in old(held);
      if actorFails {
        Release(GlobalKey(slot.value));
        assert held == old(held);
        return Unavailable;
      }
      var acquired := TryAcquire(ActorKey(actor));
      if !acquired {
        Release(GlobalKey(slot.value));
        assert held == old(held);
        return Rejected(ActorLimit);
      }
      assert held == old(held) + {GlobalKey(slot.value), ActorKey(actor)};
      return Granted(slot.value);
    }
  }

  /** Started on equal tables, the two acquisitions reach the same decision and leave equal tables,
      except exactly when the free slot is the lock the actor name stands for. */
  method AcquireBothWays(held: set<string>, configured: int, actor: string)
    returns (combined: Admission, twoStep: Admission, left: set<string>, right: set<string>)
    ensures combined == twoStep && left == right <==> !SelfBlocks(held, AtLeastOne(configured), actor)
    ensures (combined, left) == Admit(held, AtLeastOne(configured), actor)
  {
    var one := new LockTable(held);
    var two := new LockTable(held);
    combined := one.AcquireCombined(configured, actor, -1);
    twoStep := two.AcquireTwoStep(configured, actor, -1, false);
    left, right := one.held, two.held;
  }

  /** For the actor names the handler makes, the two acquisitions refine one specification. */
  lemma AcquisitionsAgreeForCallers(held: set<string>, limit: nat, c: Caller)
    ensures AdmitInTwoSteps(held, limit, ActorName(c)) == Admit(held, limit, ActorName(c))
  {
    if LowestFree(held, 0, limit).Some? { CallersNeverCollide(c, LowestFree(held, 0, limit).value); }
  }

  // ----- the composite lease -----

  /** The releases there have been, in order. */
  class ReleaseLog {
    var released: seq<Lease>

    constructor ()
      ensures released == []
    {
      released := [];
    }
  }

  class Lease {
    const fails: bool
    const log: ReleaseLog
    var releases: nat

    constructor (fails: bool, log: ReleaseLog)
      ensures this.fails == fails && this.log == log && releases == 0
    {
      this.fails, this.log := fails, log;
      releases := 0;
    }

    method Release() returns (ok: bool)
      modifies this, log
      ensures releases == old(releases) + 1 && ok == !fails
      ensures log.released == old(log.released) + [this]
    {
      releases := releases + 1;
      log.released := log.released + [this];
      ok := !fails;
    }
  }

  /** The first `n` leases, as far as there are such, last acquired first. */
  function Backwards(leases: seq<Lease?>, n: nat): seq<Lease>
    requires n <= |leases|
  {
    if n == 0 then []
    else (if leases[n - 1] != null then [leases[n - 1]] else []) + Backwards(leases, n - 1)
  }

  lemma {:induction false} BackwardsIs(leases: seq<Lease?>, n: nat)
    requires n <= |leases| && null !in leases
    ensures |Backwards(leases, n)| == n
    ensures forall k :: 0 <= k < n ==> Backwards(leases, n)[k] == leases[n - 1 - k]
  {
    if n > 0 {
      BackwardsIs(leases, n - 1);
      assert leases[n - 1] in leases;
      assert forall k :: 0 < k < n ==> Backwards(leases, n)[k] == Backwards(leases, n - 1)[k - 1];
    }
  }

  /** One lease further; `done` are the later ones. */
  lemma BackwardsStep(leases: seq<Lease?>, n: nat, done: seq<Lease>, whole: seq<Lease>)
    requires 0 < n <= |leases| && done + Backwards(leases, n) == whole
    ensures (if leases[n - 1] != null then done + [leases[n - 1]] else done) + Backwards(leases, n - 1) == whole
  {
    var rest := Backwards(leases, n - 1);
    if leases[n - 1] == null {
      assert [] + rest == rest;
    } else {
      assert done + ([leases[n - 1]] + rest) == (done + [leases[n - 1]]) + rest;
    }
  }

  class CompositeLease {
    const leases: seq<Lease?>
    const log: ReleaseLog
    var released: bool

    constructor (leases: seq<Lease?>, log: ReleaseLog)
      ensures this.leases == leases && this.log == log && !released
    {
      this.leases, this.log := leases, log;
      released := false;
    }

    /** The first call releases every lease once, last acquired first, and reports the first
        failure; every later call does nothing. */
    method Release() returns (failed: Option<nat>)
      requires forall i, j :: 0 <= i < j < |leases| && leases[i] != null ==> leases[i] != leases[j]
      requires forall i :: 0 <= i < |leases| && leases[i] != null ==> leases[i].log == log
      modifies this`released, log, set l: Lease | l in leases
      ensures released
      ensures forall l: Lease :: l in leases ==> l.releases == old(l.releases) + if old(released) then 0 else 1
      ensures log.released == old(log.released) + if old(released) then [] else Backwards(leases, |leases|)
      ensures failed.Some? ==>
                !old(released) && failed.value < |leases| && leases[failed.value] != null
                && leases[failed.value].fails
      ensures !old(released) ==>
                forall i: nat :: i < |leases| && leases[i] != null && leases[i].fails
                  ==> failed.Some? && i <= failed.value
    {
      failed := None;
      if released { return; }
      released := true;
      var i := |leases|;
      ghost var done: seq<Lease> := [];
      while i > 0
        invariant 0 <= i <= |leases| && released
        invariant log.released == old(log.released) + done
        invariant done + Backwards(leases, i) == Backwards(leases, |leases|)
        invariant forall j :: 0 <= j < |leases| && leases[j] != null
                    ==> leases[j].releases == old(leases[j].releases) + if i <= j then 1 else 0
        invariant failed.Some?
                  ==> i <= failed.value < |leases| && leases[failed.value] != null && leases[failed.value].fails
        invariant forall j: nat :: i <= j < |leases| && leases[j] != null && leases[j].fails
                    ==> failed.Some? && j <= failed.value
      {
        BackwardsStep(leases, i, done, Backwards(leases, |leases|));
        i := i - 1;
        var lease := leases[i];
        if lease == null { continue; }
        done := done + [lease];
        var ok := lease.Release();
        if !ok && failed.None? { failed := Some(i); }
      }
    }
  }
}
