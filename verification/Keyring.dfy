/** The encryption keyring and its persisted file: loading, saving additional keys, reloading. */
module Keyring {
  import opened Basics
  import opened Text

  datatype KeySet = KeySet(activeID: string, keys: map<string, string>)

  /** Ids and secrets are trimmed and not blank. */
  ghost predicate Clean(keys: map<string, string>) {
    forall id :: id in keys ==> id != "" && keys[id] != "" && Trimmed(id) && Trimmed(keys[id])
  }

  ghost predicate Sound(k: KeySet) {
    Clean(k.keys) && k.activeID in k.keys
  }

  predicate Blank(secrets: map<string, string>, id: string)
    requires id in secrets
  {
    TrimSpace(id) == "" || TrimSpace(secrets[id]) == ""
  }

  // ----- merging -----

  /** Extra entries laid over a clean map in the order Go iterates over them; blanks are skipped. */
  function Merged(base: map<string, string>, extra: map<string, string>, order: seq<string>): map<string, string>
    requires forall id :: id in order ==> id in extra
  {
    if order == [] then base
    else
      var rest, id := Merged(base, extra, order[..|order| - 1]), order[|order| - 1];
      if Blank(extra, id) then rest else rest[TrimSpace(id) := TrimSpace(extra[id])]
  }

  method Merge(base: map<string, string>, extra: map<string, string>)
    returns (out: map<string, string>, ghost order: seq<string>)
    ensures Visits(order, extra.Keys) && out == Merged(base, extra, order)
    ensures Unambiguous(extra) ==> out == base + Usable(extra)
  {
    out, order := base, [];
    var left := extra.Keys;
    while left != {}
      invariant left <= extra.Keys && NoDuplicates(order)
      invariant forall id :: id in order <==> id in extra && id !in left
      invariant out == Merged(base, extra, order)
      decreases left
    {
      var raw :| raw in left;
      left := left - {raw};
      assert (order + [raw])[..|order|] == order;
      order := order + [raw];
      var id, secret := TrimSpace(raw), TrimSpace(extra[raw]);
      if id == "" || secret == "" { continue; }
      out := out[id := secret];
    }
    if Unambiguous(extra) { MergeIsUnion(base, extra, order); }
  }

  /** No two usable entries spell the same id with different secrets. */
  ghost predicate Unambiguous(extra: map<string, string>) {
    forall a, b :: a in extra && b in extra && !Blank(extra, a) && !Blank(extra, b) && TrimSpace(a) == TrimSpace(b)
                   ==> TrimSpace(extra[a]) == TrimSpace(extra[b])
  }

  /** Some usable entry of the list spells the id. */
  ghost predicate Spelled(extra: map<string, string>, some: seq<string>, id: string)
    requires forall raw :: raw in some ==> raw in extra
  {
    exists raw :: raw in some && !Blank(extra, raw) && TrimSpace(raw) == id
  }

  /** What an unambiguous list of entries says about an id. */
  lemma {:induction false} MergedEntry(base: map<string, string>, extra: map<string, string>, order: seq<string>,
                                       id: string)
    requires Unambiguous(extra) && forall raw :: raw in order ==> raw in extra
    ensures !Spelled(extra, order, id) ==> Look(Merged(base, extra, order), id) == Look(base, id)
    ensures forall raw :: raw in order && !Blank(extra, raw) && TrimSpace(raw) == id ==>
              Look(Merged(base, extra, order), id) == Some(TrimSpace(extra[raw]))
  {
    if order != [] {
      var n := |order| - 1;
      MergedEntry(base, extra, order[..n], id);
      assert order == order[..n] + [order[n]];
      if Spelled(extra, order[..n], id) {
        var raw :| raw in order[..n] && !Blank(extra, raw) && TrimSpace(raw) == id;
        assert raw in order;
      }
      if !Blank(extra, order[n]) && TrimSpace(order[n]) == id { assert Spelled(extra, order, id); }
    }
  }

  ghost function UsableIds(extra: map<string, string>): set<string> {
    set raw | raw in extra && !Blank(extra, raw) :: TrimSpace(raw)
  }

  ghost function SecretFor(extra: map<string, string>, id: string): string
    requires id in UsableIds(extra)
  {
    var raw :| raw in extra && !Blank(extra, raw) && TrimSpace(raw) == id;
    TrimSpace(extra[raw])
  }

  /** The usable entries, trimmed. */
  ghost function Usable(extra: map<string, string>): map<string, string> {
    map id | id in UsableIds(extra) :: SecretFor(extra, id)
  }

  lemma MergedLooksLikeUnion(base: map<string, string>, extra: map<string, string>, order: seq<string>, id: string)
    requires Unambiguous(extra) && Visits(order, extra.Keys)
    ensures Look(Merged(base, extra, order), id) == Look(base + Usable(extra), id)
  {
    MergedEntry(base, extra, order, id);
    if id in UsableIds(extra) {
      var raw :| raw in extra && !Blank(extra, raw) && TrimSpace(raw) == id
        && SecretFor(extra, id) == TrimSpace(extra[raw]);
      assert raw in order;
    } else {
      assert !Spelled(extra, order, id);
    }
  }

  /** An unambiguous merge does not depend on the order. */
  lemma MergeIsUnion(base: map<string, string>, extra: map<string, string>, order: seq<string>)
    requires Unambiguous(extra) && Visits(order, extra.Keys)
    ensures Merged(base, extra, order) == base + Usable(extra)
  {
    var left, right := Merged(base, extra, order), base + Usable(extra);
    forall id
      ensures Look(left, id) == Look(right, id)
    {
      MergedLooksLikeUnion(base, extra, order, id);
    }
    SameLookups(left, right);
  }

  /** An ambiguous merge does: two orders disagree about the id spelled twice. */
  lemma AmbiguousMergeDependsOnOrder(base: map<string, string>, other: map<string, string>, extra: map<string, string>)
    returns (p: seq<string>, q: seq<string>, id: string)
    requires !Unambiguous(extra)
    ensures Visits(p, extra.Keys) && Visits(q, extra.Keys)
    ensures id in Merged(base, extra, p) && id in Merged(other, extra, q)
            && Merged(base, extra, p)[id] != Merged(other, extra, q)[id]
    ensures id != "" && Trimmed(id) && Merged(other, extra, q)[id] != "" && Trimmed(Merged(other, extra, q)[id])
  {
    var a, b :| a in extra && b in extra && !Blank(extra, a) && !Blank(extra, b) && TrimSpace(a) == TrimSpace(b)
                && TrimSpace(extra[a]) != TrimSpace(extra[b]);
    p := AnOrderEndingIn(extra.Keys, a);
    q := AnOrderEndingIn(extra.Keys, b);
    id := TrimSpace(a);
    TrimSpaceTrims(b);
    TrimSpaceTrims(extra[b]);
  }

  lemma MergeKeepsClean(base: map<string, string>, extra: map<string, string>, order: seq<string>)
    requires Clean(base) && forall id :: id in order ==> id in extra
    ensures Clean(Merged(base, extra, order)) && base.Keys <= Merged(base, extra, order).Keys
  {
    if order != [] {
      var raw := order[|order| - 1];
      MergeKeepsClean(base, extra, order[..|order| - 1]);
      TrimSpaceTrims(raw);
      TrimSpaceTrims(extra[raw]);
    }
  }

  lemma CleanIsNotBlank(secrets: map<string, string>)
    ensures Clean(secrets) ==> forall id :: id in secrets
                                 ==> !Blank(secrets, id) && TrimSpace(id) == id && TrimSpace(secrets[id]) == secrets[id]
  {
    if Clean(secrets) {
      forall id | id in secrets
        ensures !Blank(secrets, id) && TrimSpace(id) == id && TrimSpace(secrets[id]) == secrets[id]
      {
        TrimmedIsFixed(id);
        TrimmedIsFixed(secrets[id]);
      }
    }
  }

  lemma CleanUsable(keys: map<string, string>)
    requires Clean(keys)
    ensures (forall id :: id in keys ==> TrimSpace(id) == id) && Unambiguous(keys) && Usable(keys) == keys
  {
    CleanIsNotBlank(keys);
    assert UsableIds(keys) == keys.Keys by {
      forall id | id in keys ensures id in UsableIds(keys) { assert TrimSpace(id) == id; }
    }
  }

  lemma CleanUnion(a: map<string, string>, b: map<string, string>)
    requires Clean(a) && Clean(b)
    ensures Clean(a + b)
  {
  }

  /** Which ids a merge leaves. */
  lemma {:induction false} MergedIds(base: map<string, string>, extra: map<string, string>, order: seq<string>,
                                     id: string)
    requires forall raw :: raw in order ==> raw in extra
    ensures id in Merged(base, extra, order) <==> id in base || Spelled(extra, order, id)
  {
    if order != [] {
      var n := |order| - 1;
      MergedIds(base, extra, order[..n], id);
      assert order == order[..n] + [order[n]];
      if Spelled(extra, order[..n], id) {
        var raw :| raw in order[..n] && !Blank(extra, raw) && TrimSpace(raw) == id;
        assert raw in order;
      }
      if !Blank(extra, order[n]) && TrimSpace(order[n]) == id { assert order[n] in order; }
    }
  }

  lemma MergedKeys(base: map<string, string>, extra: map<string, string>, order: seq<string>)
    requires Visits(order, extra.Keys)
    ensures Merged(base, extra, order).Keys == base.Keys + UsableIds(extra)
  {
    forall id
      ensures id in Merged(base, extra, order) <==> id in base.Keys + UsableIds(extra)
    {
      MergedIds(base, extra, order, id);
      if Spelled(extra, order, id) {
        var raw :| raw in order && !Blank(extra, raw) && TrimSpace(raw) == id;
        assert raw in extra;
      }
      if id in UsableIds(extra) {
        var raw :| raw in extra && !Blank(extra, raw) && TrimSpace(raw) == id;
        assert raw in order;
      }
    }
  }

  lemma UsableIsClean(extra: map<string, string>)
    ensures Clean(Usable(extra))
  {
    forall id | id in Usable(extra)
      ensures id != "" && Usable(extra)[id] != "" && Trimmed(id) && Trimmed(Usable(extra)[id])
    {
      var raw :| raw in extra && !Blank(extra, raw) && TrimSpace(raw) == id
        && SecretFor(extra, id) == TrimSpace(extra[raw]);
      TrimSpaceTrims(raw);
      TrimSpaceTrims(extra[raw]);
    }
  }

  // ----- construction -----

  ghost predicate NoBlanks(secrets: map<string, string>) {
    forall id :: id in secrets ==> !Blank(secrets, id)
  }

  /** What `NewKeyring` accepts. */
  ghost predicate Acceptable(activeID: string, secrets: map<string, string>) {
    NoBlanks(secrets) && TrimSpace(activeID) in UsableIds(secrets)
  }

  /** The keyring of the trimmed entries. When two ids differ only in surrounding space, the one
      visited last wins. */
  ghost function Built(activeID: string, secrets: map<string, string>, order: seq<string>): Result<KeySet>
    requires forall id :: id in order ==> id in secrets
  {
    if TrimSpace(activeID) == "" || !NoBlanks(secrets) then Err
    else
      var keys := Merged(map[], secrets, order);
      if TrimSpace(activeID) in keys then Ok(KeySet(TrimSpace(activeID), keys)) else Err
  }

  lemma BuiltIff(activeID: string, secrets: map<string, string>, order: seq<string>)
    requires Visits(order, secrets.Keys)
    ensures Built(activeID, secrets, order).Ok? <==> Acceptable(activeID, secrets)
    ensures Acceptable(activeID, secrets) ==>
              Sound(Built(activeID, secrets, order).value)
                && Built(activeID, secrets, order).value.keys.Keys == UsableIds(secrets)
  {
    MergedKeys(map[], secrets, order);
    MergeKeepsClean(map[], secrets, order);
  }

  /** Trims every entry, in whatever order Go iterates; refuses a blank one. */
  method TrimEntries(secrets: map<string, string>) returns (r: Result<map<string, string>>, ghost order: seq<string>)
    ensures Visits(order, secrets.Keys)
    ensures r == if NoBlanks(secrets) then Ok(Merged(map[], secrets, order)) else Err
  {
    var keys: map<string, string> := map[];
    order := [];
    var left := secrets.Keys;
    while left != {}
      invariant left <= secrets.Keys && NoDuplicates(order)
      invariant forall id :: id in order <==> id in secrets && id !in left
      invariant forall id :: id in order ==> !Blank(secrets, id)
      invariant keys == Merged(map[], secrets, order)
      decreases left
    {
      var raw :| raw in left;
      if Blank(secrets, raw) {
        order := AnOrderExists(secrets.Keys);
        return Err, order;
      }
      left := left - {raw};
      assert (order + [raw])[..|order|] == order;
      order := order + [raw];
      keys := keys[TrimSpace(raw) := TrimSpace(secrets[raw])];
    }
    return Ok(keys), order;
  }

  /** Refuses blank entries, and an active id that is not among the trimmed ones. */
  method NewKeyring(activeID: string, secrets: map<string, string>)
    returns (r: Result<KeySet>, ghost order: seq<string>)
    ensures Visits(order, secrets.Keys) && r == Built(activeID, secrets, order)
    ensures r.Ok? <==> Acceptable(activeID, secrets)
    ensures r.Ok? ==>
              Sound(r.value) && r.value.activeID == TrimSpace(activeID)
              && r.value.keys.Keys == UsableIds(secrets)
    ensures r.Ok? && Unambiguous(secrets) ==> r.value.keys == Usable(secrets)
  {
    var active := TrimSpace(activeID);
    if active == "" || |secrets| == 0 {
      order := AnOrderExists(secrets.Keys);
      BuiltIff(activeID, secrets, order);
      return Err, order;
    }
    var keys;
    keys, order := TrimEntries(secrets);
    BuiltIff(activeID, secrets, order);
    if keys.Err? { return Err, order; }
    if Unambiguous(secrets) { MergeIsUnion(map[], secrets, order); }
    if active !in keys.value { return Err, order; }
    return Ok(KeySet(active, keys.value)), order;
  }

  /** The keyring with extra entries merged in. */
  function Extended(k: KeySet, extra: map<string, string>, order: seq<string>): KeySet
    requires forall id :: id in order ==> id in extra
  {
    KeySet(k.activeID, Merged(k.keys, extra, order))
  }

  /** `WithAdditionalKeys`: merging and constructing anew never fails on a sound keyring. */
  method WithAdditionalKeys(current: KeySet, extra: map<string, string>)
    returns (updated: KeySet, ghost order: seq<string>)
    requires Sound(current)
    ensures Visits(order, extra.Keys) && updated == Extended(current, extra, order)
    ensures Sound(updated) && updated.activeID == current.activeID
            && updated.keys.Keys == current.keys.Keys + UsableIds(extra)
    ensures Unambiguous(extra) ==> updated.keys == current.keys + Usable(extra)
  {
    var merged;
    merged, order := Merge(current.keys, extra);
    MergeKeepsClean(current.keys, extra, order);
    MergedKeys(current.keys, extra, order);
    TrimmedIsFixed(current.activeID);
    CleanUsable(merged);
    CleanIsNotBlank(merged);
    var rebuilt, _ := NewKeyring(current.activeID, merged);
    updated := rebuilt.value;
  }
}
