/** The persisted keyring: loading it, saving additional keys, and when the two fit together. */
module KeyStore {
  import opened Basics
  import opened Text
  import opened Keyring

  datatype Persisted = Persisted(activeKeyID: string, keys: map<string, string>, acknowledged: bool)

  /** The key variables: not set, making a keyring, or set without making one. */
  datatype Environment = NoEnv | EnvKeys(keys: KeySet) | EnvBroken(readable: bool)

  /** The keyring file: absent, not readable as one, or holding some state. */
  datatype FileState = NoFile | Unreadable | Stored(state: Persisted)

  /** What the process sees: the environment, whether there is a data directory, and the keyring
      file in it. */
  datatype World = World(env: Environment, hasDir: bool, file: FileState)

  /** `readPersistedKeyringState`: a state that makes no keyring is an error. */
  ghost function Read(file: FileState): Result<Option<Persisted>> {
    match file
    case NoFile => Ok(None)
    case Unreadable => Err
    case Stored(p) => if Acceptable(p.activeKeyID, p.keys) then Ok(Some(p)) else Err
  }

  ghost predicate HasState(w: World) {
    w.hasDir && Read(w.file).Ok? && Read(w.file).value.Some?
  }

  /** The entries of a readable keyring file, as they are written there. */
  ghost function FileEntries(w: World): map<string, string> {
    if HasState(w) then w.file.state.keys else map[]
  }

  /** Keyrings are only made by `NewKeyring`. */
  ghost predicate EnvSound(w: World) {
    w.env.EnvKeys? ==> Sound(w.env.keys)
  }

  /** `LoadOrGenerateKeyring`; `generated` is the key made when there is none. */
  ghost function Load(w: World, generated: KeySet, order: seq<string>): Result<(KeySet, World)>
    requires forall id :: id in order ==> id in FileEntries(w)
  {
    match w.env
    case EnvBroken(_) => Err
    case EnvKeys(k) => Ok((if HasState(w) then Extended(k, FileEntries(w), order) else k, w))
    case NoEnv =>
      if !w.hasDir || Read(w.file).Err? then Err
      else if w.file.NoFile? then
        Ok((generated, w.(file := Stored(Persisted(generated.activeID, generated.keys, false)))))
      else
        match Built(w.file.state.activeKeyID, FileEntries(w), order)
        case Ok(k) => Ok((k, w))
        case Err => Err
  }

  /** What Go's iteration over the extra entries decides: which comes first, and the orders in
      which they reach the keyring and the file. */
  datatype Choices = Choices(first: string, inMemory: seq<string>, inFile: seq<string>)

  ghost predicate Possible(extra: map<string, string>, c: Choices) {
    Visits(c.inMemory, extra.Keys) && Visits(c.inFile, extra.Keys) && (extra != map[] ==> c.first in extra)
  }

  /** The keyring a save returns. Without a current one it is made of the extra entries alone,
      under whichever id comes first. */
  ghost function Updated(current: Option<KeySet>, extra: map<string, string>, c: Choices): Result<KeySet>
    requires Possible(extra, c)
  {
    match current
    case Some(k) => Ok(Extended(k, extra, c.inMemory))
    case None => Built(c.first, extra, c.inMemory)
  }

  /** The file a save writes. An existing one keeps its active id. */
  ghost function Written(w: World, updated: KeySet, extra: map<string, string>, c: Choices): World
    requires Possible(extra, c) && w.hasDir && Read(w.file).Ok?
  {
    w.(file := if w.file.NoFile? then Stored(Persisted(updated.activeID, updated.keys, true))
               else Stored(w.file.state.(keys := Merged(w.file.state.keys, extra, c.inFile))))
  }

  /** `SaveAdditionalEncryptionKeys` when there is something to save. */
  ghost function Save(w: World, current: Option<KeySet>, extra: map<string, string>,
                      c: Choices): Result<(KeySet, World)>
    requires Possible(extra, c)
  {
    match Updated(current, extra, c)
    case Err => Err
    case Ok(updated) =>
      if !w.hasDir then Ok((updated, w))
      else if Read(w.file).Err? then Err
      else Ok((updated, Written(w, updated, extra, c)))
  }

  // ----- loading -----

  /** There is something to load without generating a key. */
  ghost predicate Loadable(w: World) {
    w.env.EnvKeys? || (w.env.NoEnv? && HasState(w))
  }

  /** The keys of the environment, if any. */
  function EnvEntries(w: World): map<string, string> {
    if w.env.EnvKeys? then w.env.keys.keys else map[]
  }

  ghost function ActiveOf(w: World): string
    requires Loadable(w)
  {
    if w.env.EnvKeys? then w.env.keys.activeID else TrimSpace(w.file.state.activeKeyID)
  }

  /** The keyring of a world: the environment's keys, overridden by the file's, under the
      environment's active id; or the file's alone. */
  ghost function Effective(w: World): KeySet
    requires Loadable(w)
  {
    KeySet(ActiveOf(w), EnvEntries(w) + Usable(FileEntries(w)))
  }

  /** Loading changes nothing and yields the world's keyring, whatever the iteration order, as long
      as the file does not spell one id with two secrets. */
  lemma LoadIsEffective(w: World, generated: KeySet, order: seq<string>)
    requires EnvSound(w) && Loadable(w) && Visits(order, FileEntries(w).Keys) && Unambiguous(FileEntries(w))
    ensures Load(w, generated, order) == Ok((Effective(w), w)) && Sound(Effective(w))
  {
    MergeIsUnion(EnvEntries(w), FileEntries(w), order);
    UsableIsClean(FileEntries(w));
    CleanUnion(EnvEntries(w), Usable(FileEntries(w)));
    if w.env.NoEnv? { BuiltIff(w.file.state.activeKeyID, w.file.state.keys, order); }
  }

  /** Every load of the world yields this keyring and leaves the world alone. */
  ghost predicate Yields(w: World, k: KeySet) {
    forall generated, order :: Visits(order, FileEntries(w).Keys) ==> Load(w, generated, order) == Ok((k, w))
  }

  /** Loading is determined exactly when there is something to load and the file spells no id with
      two secrets. */
  lemma YieldsIff(w: World, k: KeySet)
    requires EnvSound(w)
    ensures Yields(w, k) <==> Loadable(w) && Unambiguous(FileEntries(w)) && k == Effective(w)
  {
    if Loadable(w) && Unambiguous(FileEntries(w)) {
      var some := AnOrderExists(FileEntries(w).Keys);
      LoadIsEffective(w, k, some);
      if k == Effective(w) {
        forall generated, order | Visits(order, FileEntries(w).Keys)
          ensures Load(w, generated, order) == Ok((k, w))
        {
          LoadIsEffective(w, generated, order);
        }
      }
    } else if Loadable(w) {
      var p, q, id := AmbiguousMergeDependsOnOrder(EnvEntries(w), EnvEntries(w), FileEntries(w));
      if w.env.NoEnv? {
        BuiltIff(w.file.state.activeKeyID, w.file.state.keys, p);
        BuiltIff(w.file.state.activeKeyID, w.file.state.keys, q);
      }
      assert Load(w, k, p).value.0.keys[id] != Load(w, k, q).value.0.keys[id];
    } else {
      var some := AnOrderExists(FileEntries(w).Keys);
      assert Load(w, k, some) != Ok((k, w));
    }
  }

  /** When a file is not accepted: it cannot be read, an entry in it is blank, or no entry is spelled
      like its active id. */
  lemma ReadFailsIff(file: FileState)
    ensures Read(file).Err?
            <==> || file.Unreadable?
                 || (file.Stored? && exists id :: id in file.state.keys && Blank(file.state.keys, id))
                 || (file.Stored?
                     && TrimSpace(file.state.activeKeyID) !in set id | id in file.state.keys :: TrimSpace(id))
  {
  }

  /** When loading fails: the key variables are set and make no keyring, or there are none and the
      file is missing its directory or not accepted. A file that is not accepted is never replaced,
      and next to an environment it is passed over. */
  lemma LoadFailsIff(w: World, generated: KeySet, order: seq<string>)
    requires EnvSound(w) && Visits(order, FileEntries(w).Keys)
    ensures Load(w, generated, order).Err?
            <==> w.env.EnvBroken? || (w.env.NoEnv? && (!w.hasDir || Read(w.file).Err?))
    ensures Load(w, generated, order).Ok? ==>
              var (k, after) := Load(w, generated, order).value;
              && (after != w ==> w.env.NoEnv? && w.hasDir && w.file.NoFile? && k == generated)
              && (w.env.EnvKeys? ==> k.activeID == w.env.keys.activeID && w.env.keys.keys.Keys <= k.keys.Keys)
              && (w.env.EnvKeys? && !HasState(w) ==> k == w.env.keys)
  {
    if w.env.NoEnv? && HasState(w) { BuiltIff(w.file.state.activeKeyID, w.file.state.keys, order); }
    if w.env.EnvKeys? { MergedKeys(w.env.keys.keys, FileEntries(w), order); }
  }

  /** The first start without keys writes the generated keyring; every later load yields it. */
  lemma FirstStartPersistsTheKey(w: World, generated: KeySet)
    requires w.env.NoEnv? && w.hasDir && w.file.NoFile? && Sound(generated)
    ensures Load(w, generated, []).Ok? && Load(w, generated, []).value.0 == generated
    ensures var after := Load(w, generated, []).value.1;
            Yields(after, generated) && after.file.Stored? && !after.file.state.acknowledged
  {
    var after := Load(w, generated, []).value.1;
    CleanIsNotBlank(generated.keys);
    CleanUsable(generated.keys);
    YieldsIff(after, generated);
  }

  // ----- saving -----

  ghost predicate Held(current: Option<KeySet>) {
    current.Some? ==> Sound(current.value)
  }

  /** What the process knew before: the current keyring's entries, or none. */
  function Known(current: Option<KeySet>): map<string, string> {
    match current
    case Some(k) => k.keys
    case None => map[]
  }

  lemma UpdatedIs(current: Option<KeySet>, extra: map<string, string>, c: Choices)
    requires Held(current) && extra != map[] && Possible(extra, c)
    ensures Updated(current, extra, c).Ok? <==> current.Some? || NoBlanks(extra)
    ensures Updated(current, extra, c).Ok? ==>
              var u := Updated(current, extra, c).value;
              && Sound(u) && u.keys == Merged(Known(current), extra, c.inMemory)
              && u.keys.Keys == Known(current).Keys + UsableIds(extra)
              && u.activeID == (if current.Some? then current.value.activeID else TrimSpace(c.first))
  {
    MergedKeys(Known(current), extra, c.inMemory);
    MergeKeepsClean(Known(current), extra, c.inMemory);
    if current.None? { BuiltIff(c.first, extra, c.inMemory); }
  }

  lemma WrittenIs(w: World, updated: KeySet, extra: map<string, string>, c: Choices)
    requires Possible(extra, c) && w.hasDir && Read(w.file).Ok? && Sound(updated)
    ensures var after := Written(w, updated, extra, c);
            && HasState(after) && after.env == w.env && after.file.Stored?
            && FileEntries(after) == (if w.file.NoFile? then updated.keys else Merged(FileEntries(w), extra, c.inFile))
            && FileEntries(w).Keys <= FileEntries(after).Keys && (Clean(FileEntries(w)) ==> Clean(FileEntries(after)))
            && (w.file.Stored? ==> after.file.state.activeKeyID == w.file.state.activeKeyID)
            && (after.file.state.acknowledged <==> w.file.NoFile? || w.file.state.acknowledged)
  {
    if w.file.NoFile? {
      CleanIsNotBlank(updated.keys);
      CleanUsable(updated.keys);
    } else {
      MergedIsAcceptable(w.file.state.activeKeyID, w.file.state.keys, extra, c.inFile);
      if Clean(FileEntries(w)) { MergeKeepsClean(FileEntries(w), extra, c.inFile); }
    }
  }

  lemma {:induction false} MergedIsAcceptable(activeID: string, base: map<string, string>, extra: map<string, string>,
                                              order: seq<string>)
    requires Acceptable(activeID, base) && forall id :: id in order ==> id in extra
    ensures Acceptable(activeID, Merged(base, extra, order)) && base.Keys <= Merged(base, extra, order).Keys
  {
    if order != [] {
      var raw := order[|order| - 1];
      MergedIsAcceptable(activeID, base, extra, order[..|order| - 1]);
      if !Blank(extra, raw) {
        OneMoreIsAcceptable(activeID, Merged(base, extra, order[..|order| - 1]), raw, extra[raw]);
      }
    }
  }

  lemma OneMoreIsAcceptable(activeID: string, base: map<string, string>, raw: string, secret: string)
    requires Acceptable(activeID, base) && TrimSpace(raw) != "" && TrimSpace(secret) != ""
    ensures Acceptable(activeID, base[TrimSpace(raw) := TrimSpace(secret)])
  {
    TrimSpaceTrims(raw);
    TrimSpaceTrims(secret);
    TrimmedIsFixed(TrimSpace(raw));
    TrimmedIsFixed(TrimSpace(secret));
    var more := base[TrimSpace(raw) := TrimSpace(secret)];
    assert forall id :: id in base && id != TrimSpace(raw) ==> more[id] == base[id];
    var was :| was in base && !Blank(base, was) && TrimSpace(was) == TrimSpace(activeID);
    assert was in more && !Blank(more, was) && TrimSpace(was) == TrimSpace(activeID);
  }

  /** When a save succeeds, and what it keeps. A current keyring keeps its active id and all its
      ids; without one only the extra ids are in the result. The file keeps its active id and all
      its ids either way. */
  lemma SaveKeepsEverything(w: World, current: Option<KeySet>, extra: map<string, string>, c: Choices)
    requires Held(current) && extra != map[] && Possible(extra, c)
    ensures Save(w, current, extra, c).Ok? <==> (current.Some? || NoBlanks(extra)) && (w.hasDir ==> Read(w.file).Ok?)
    ensures Save(w, current, extra, c).Ok? ==>
              var (u, after) := Save(w, current, extra, c).value;
              && Sound(u) && u.keys.Keys == Known(current).Keys + UsableIds(extra)
              && (current.Some? ==> u.activeID == current.value.activeID)
              && after.env == w.env && (w.hasDir ==> HasState(after)) && (!w.hasDir ==> after == w)
              && FileEntries(w).Keys <= FileEntries(after).Keys && (Clean(FileEntries(w)) ==> Clean(FileEntries(after)))
              && (w.hasDir && w.file.Stored? ==> after.file.state.activeKeyID == w.file.state.activeKeyID)
              && (w.hasDir ==> (after.file.state.acknowledged <==> w.file.NoFile? || w.file.state.acknowledged))
  {
    UpdatedIs(current, extra, c);
    if Updated(current, extra, c).Ok? && w.hasDir && Read(w.file).Ok? {
      WrittenIs(w, Updated(current, extra, c).value, extra, c);
    }
  }

  // ----- saving and loading again -----

  /** Every load after the save yields exactly the keyring the save returned. */
  ghost predicate Faithful(w: World, current: Option<KeySet>, extra: map<string, string>, c: Choices)
    requires Possible(extra, c)
  {
    Save(w, current, extra, c).Ok? && Yields(Save(w, current, extra, c).value.1, Save(w, current, extra, c).value.0)
  }

  /** Equal except for the named ids. */
  ghost predicate SameOutside(a: map<string, string>, b: map<string, string>, ids: set<string>) {
    forall id :: id !in ids ==> Look(a, id) == Look(b, id)
  }

  lemma UnionsAgreeIff(a: map<string, string>, b: map<string, string>, u: map<string, string>)
    ensures a + u == b + u <==> SameOutside(a, b, u.Keys)
  {
    if SameOutside(a, b, u.Keys) {
      forall id
        ensures Look(a + u, id) == Look(b + u, id)
      {
        if id !in u { assert Look(a, id) == Look(b, id); }
      }
      SameLookups(a + u, b + u);
    } else {
      var id :| id !in u.Keys && Look(a, id) != Look(b, id);
      assert Look(a + u, id) == Look(a, id) && Look(b + u, id) == Look(b, id);
    }
  }

  /** Clean entries written over others, if no id is then spelled with two secrets. */
  lemma UsableOfOverlay(stored: map<string, string>, u: map<string, string>)
    requires Clean(u) && Unambiguous(stored + u)
    ensures Usable(stored + u) == Usable(stored) + u
  {
    CleanIsNotBlank(u);
    forall id
      ensures Look(Usable(stored + u), id) == Look(Usable(stored) + u, id)
    {
      UsableEntryOfOverlay(stored, u, id);
    }
    SameLookups(Usable(stored + u), Usable(stored) + u);
  }

  lemma UsableEntryOfOverlay(stored: map<string, string>, u: map<string, string>, id: string)
    requires Clean(u) && Unambiguous(stored + u)
    requires forall k :: k in u ==> !Blank(u, k) && TrimSpace(k) == k && TrimSpace(u[k]) == u[k]
    ensures Look(Usable(stored + u), id) == Look(Usable(stored) + u, id)
  {
    if id in u {
      var all := stored + u;
      assert id in all && !Blank(all, id) && TrimSpace(id) == id;
    } else {
      OldEntryOfOverlay(stored, u, id);
    }
  }

  lemma OldEntryOfOverlay(stored: map<string, string>, u: map<string, string>, id: string)
    requires Unambiguous(stored + u) && id !in u && forall k :: k in u ==> TrimSpace(k) == k
    ensures Look(Usable(stored + u), id) == Look(Usable(stored), id)
  {
    var all := stored + u;
    assert forall raw :: raw in stored && raw !in u ==> all[raw] == stored[raw];
    if id in UsableIds(stored) {
      var raw :| raw in stored && !Blank(stored, raw) && TrimSpace(raw) == id
        && SecretFor(stored, id) == TrimSpace(stored[raw]);
      assert raw !in u && raw in all && !Blank(all, raw);
    }
    if id in UsableIds(all) {
      var raw :| raw in all && !Blank(all, raw) && TrimSpace(raw) == id && SecretFor(all, id) == TrimSpace(all[raw]);
      assert raw !in u && raw in stored && !Blank(stored, raw);
    }
  }

  lemma FaithfulHere(w: World, current: Option<KeySet>, extra: map<string, string>, c: Choices)
    requires EnvSound(w) && Held(current) && extra != map[] && Possible(extra, c)
    ensures Faithful(w, current, extra, c)
            <==> && Save(w, current, extra, c).Ok?
                 && var (u, after) := Save(w, current, extra, c).value;
                    Loadable(after) && Unambiguous(FileEntries(after)) && u == Effective(after)
  {
    SaveKeepsEverything(w, current, extra, c);
    if Save(w, current, extra, c).Ok? {
      YieldsIff(Save(w, current, extra, c).value.1, Save(w, current, extra, c).value.0);
    }
  }

  /** What a clean file yields. */
  lemma CleanYieldsIff(w: World, k: KeySet)
    requires EnvSound(w) && HasState(w) && Clean(FileEntries(w))
    ensures Yields(w, k) <==> !w.env.EnvBroken? && k.activeID == ActiveOf(w) && k.keys == EnvEntries(w) + FileEntries(w)
  {
    var entries := FileEntries(w);
    assert Unambiguous(entries) by { CleanUsable(entries); }
    YieldsIff(w, k);
    assert k.keys == EnvEntries(w) + Usable(entries) <==> k.keys == EnvEntries(w) + entries by { CleanUsable(entries); }
  }

  lemma CoveredIff(a: map<string, string>, b: map<string, string>)
    ensures b == a + b <==> a.Keys <= b.Keys
  {
    if b == a + b { assert (a + b).Keys == a.Keys + b.Keys; }
  }

  lemma FaithfulWithoutFile(w: World, current: Option<KeySet>, extra: map<string, string>, c: Choices)
    requires EnvSound(w) && Held(current) && extra != map[] && Possible(extra, c) && Updated(current, extra, c).Ok?
    requires w.hasDir && w.file.NoFile?
    ensures var u := Updated(current, extra, c).value;
            Faithful(w, current, extra, c)
            <==> !w.env.EnvBroken?
                 && (w.env.EnvKeys? ==> u.activeID == w.env.keys.activeID && w.env.keys.keys.Keys <= u.keys.Keys)
  {
    var u := Updated(current, extra, c).value;
    var after := Written(w, u, extra, c);
    assert Sound(u) by { UpdatedIs(current, extra, c); }
    assert HasState(after) && FileEntries(after) == u.keys by { WrittenIs(w, u, extra, c); }
    assert TrimSpace(u.activeID) == u.activeID by { TrimmedIsFixed(u.activeID); }
    CleanYieldsIff(after, u);
    CoveredIff(EnvEntries(w), u.keys);
  }

  /** What a file yields after clean entries were written over it. */
  lemma OverlayYieldsIff(w: World, after: World, more: map<string, string>, k: KeySet)
    requires EnvSound(w) && HasState(w) && HasState(after) && after.env == w.env && Clean(more)
    requires FileEntries(after) == FileEntries(w) + more && after.file.state.activeKeyID == w.file.state.activeKeyID
    ensures Yields(after, k)
            <==> && !w.env.EnvBroken? && Unambiguous(FileEntries(w) + more) && k.activeID == ActiveOf(w)
                 && k.keys == Effective(w).keys + more
  {
    YieldsIff(after, k);
    if Unambiguous(FileEntries(w) + more) { OverlayKeysIff(EnvEntries(w), FileEntries(w), more, k.keys); }
  }

  lemma OverlayKeysIff(env: map<string, string>, stored: map<string, string>, more: map<string, string>,
                       keys: map<string, string>)
    requires Clean(more) && Unambiguous(stored + more)
    ensures keys == env + Usable(stored + more) <==> keys == (env + Usable(stored)) + more
  {
    var all, usable := Usable(stored + more), Usable(stored);
    assert all == usable + more by { UsableOfOverlay(stored, more); }
    UnionIsAssociative(env, usable, more);
  }

  lemma UnionIsAssociative(a: map<string, string>, b: map<string, string>, c: map<string, string>)
    ensures a + (b + c) == (a + b) + c
  {
  }

  lemma WrittenYieldsIff(w: World, u: KeySet, extra: map<string, string>, c: Choices)
    requires EnvSound(w) && HasState(w) && Possible(extra, c) && Unambiguous(extra) && Sound(u)
    ensures Yields(Written(w, u, extra, c), u)
            <==> && !w.env.EnvBroken? && Unambiguous(FileEntries(w) + Usable(extra)) && u.activeID == ActiveOf(w)
                 && u.keys == Effective(w).keys + Usable(extra)
  {
    var after := Written(w, u, extra, c);
    WrittenIs(w, u, extra, c);
    MergeIsUnion(FileEntries(w), extra, c.inFile);
    UsableIsClean(extra);
    OverlayYieldsIff(w, after, Usable(extra), u);
  }

  lemma SavedYieldsIff(w: World, current: Option<KeySet>, extra: map<string, string>, c: Choices)
    requires EnvSound(w) && Held(current) && extra != map[] && Possible(extra, c) && Updated(current, extra, c).Ok?
    requires HasState(w) && Unambiguous(extra)
    ensures var u := Updated(current, extra, c).value;
            Faithful(w, current, extra, c)
            <==> && !w.env.EnvBroken? && Unambiguous(FileEntries(w) + Usable(extra)) && u.activeID == ActiveOf(w)
                 && u.keys == Effective(w).keys + Usable(extra)
  {
    UpdatedIs(current, extra, c);
    WrittenYieldsIff(w, Updated(current, extra, c).value, extra, c);
  }

  lemma FaithfulWithFile(w: World, current: Option<KeySet>, extra: map<string, string>, c: Choices)
    requires EnvSound(w) && Held(current) && extra != map[] && Possible(extra, c) && Updated(current, extra, c).Ok?
    requires HasState(w) && Unambiguous(extra)
    ensures Faithful(w, current, extra, c)
            <==> && !w.env.EnvBroken? && Updated(current, extra, c).value.activeID == ActiveOf(w)
                 && Unambiguous(FileEntries(w) + Usable(extra))
                 && SameOutside(Known(current), Effective(w).keys, UsableIds(extra))
  {
    SavedYieldsIff(w, current, extra, c);
    if !w.env.EnvBroken? { UpdatedKeysIff(current, extra, c, Effective(w).keys); }
  }

  lemma UpdatedKeysIff(current: Option<KeySet>, extra: map<string, string>, c: Choices, stored: map<string, string>)
    requires Held(current) && extra != map[] && Possible(extra, c) && Unambiguous(extra)
             && Updated(current, extra, c).Ok?
    ensures Updated(current, extra, c).value.keys == stored + Usable(extra)
            <==> SameOutside(Known(current), stored, UsableIds(extra))
  {
    UpdatedIs(current, extra, c);
    MergeIsUnion(Known(current), extra, c.inMemory);
    UnionsAgreeIff(Known(current), stored, Usable(extra));
  }

  lemma FaithfulWithoutDir(w: World, current: Option<KeySet>, extra: map<string, string>, c: Choices)
    requires EnvSound(w) && Held(current) && extra != map[] && Possible(extra, c) && Updated(current, extra, c).Ok?
             && !w.hasDir
    ensures Faithful(w, current, extra, c) <==> w.env.EnvKeys? && Updated(current, extra, c).value == w.env.keys
  {
    FaithfulHere(w, current, extra, c);
    assert FileEntries(w) == map[] && Usable(map[]) == map[] && w.env.EnvKeys? ==> Effective(w) == w.env.keys;
  }

  lemma StoredEntryCounts(entries: map<string, string>, id: string)
    requires Unambiguous(entries) && id in entries && id != "" && Trimmed(id) && entries[id] != ""
             && Trimmed(entries[id])
    ensures Look(Usable(entries), id) == Some(entries[id])
  {
    TrimmedIsFixed(id);
    TrimmedIsFixed(entries[id]);
    assert !Blank(entries, id) && TrimSpace(id) == id;
  }

  /** With a keyring file, extra entries that spell one id with two secrets can leave one of them in
      the file and the other in the keyring the save returned. */
  lemma AmbiguousSaveCanDiffer(w: World, current: Option<KeySet>, extra: map<string, string>)
    returns (c: Choices, id: string)
    requires EnvSound(w) && Held(current) && HasState(w) && !Unambiguous(extra) && (current.Some? || NoBlanks(extra))
    ensures Possible(extra, c) && Save(w, current, extra, c).Ok? && !Faithful(w, current, extra, c)
    ensures var (u, after) := Save(w, current, extra, c).value;
            id in u.keys && id in FileEntries(after) && u.keys[id] != FileEntries(after)[id]
  {
    var p, q;
    p, q, id := AmbiguousMergeDependsOnOrder(Known(current), FileEntries(w), extra);
    var first :| first in extra;
    c := Choices(first, p, q);
    SaveKeepsEverything(w, current, extra, c);
    UpdatedIs(current, extra, c);
    WrittenIs(w, Updated(current, extra, c).value, extra, c);
    FaithfulHere(w, current, extra, c);
    var u, after := Updated(current, extra, c).value, Written(w, Updated(current, extra, c).value, extra, c);
    if Faithful(w, current, extra, c) { StoredEntryCounts(FileEntries(after), id); }
  }

  /** The keyring a save returns has this active id, whichever entry comes first. */
  ghost predicate Leads(current: Option<KeySet>, extra: map<string, string>, active: string) {
    match current
    case Some(k) => k.activeID == active
    case None => forall id :: id in extra ==> TrimSpace(id) == active
  }

  /** What has to hold before a save for every load after it to yield what it returned. Nothing may
      be refused. Without a file, only an environment can disagree. With one, the active ids agree,
      no id ends up spelled with two secrets, and the current keyring holds what a load would yield,
      except for ids that are being replaced. Without a directory nothing is kept, so the extra
      entries must already be the environment's. */
  ghost predicate Adopts(w: World, current: Option<KeySet>, extra: map<string, string>) {
    && (current.Some? || NoBlanks(extra)) && !w.env.EnvBroken?
    && if !w.hasDir then
         && w.env.EnvKeys? && Leads(current, extra, w.env.keys.activeID)
         && Unambiguous(extra) && Known(current) + Usable(extra) == w.env.keys.keys
       else if w.file.NoFile? then
         w.env.EnvKeys? ==>
             Leads(current, extra, w.env.keys.activeID)
             && w.env.keys.keys.Keys <= Known(current).Keys + UsableIds(extra)
       else
         && HasState(w) && Leads(current, extra, ActiveOf(w))
         && Unambiguous(extra) && Unambiguous(FileEntries(w) + Usable(extra))
         && SameOutside(Known(current), Effective(w).keys, UsableIds(extra))
  }

  lemma AdoptingSaveIsFaithful(w: World, current: Option<KeySet>, extra: map<string, string>, c: Choices)
    requires EnvSound(w) && Held(current) && extra != map[] && Possible(extra, c) && Adopts(w, current, extra)
    ensures Faithful(w, current, extra, c)
  {
    UpdatedIs(current, extra, c);
    if !w.hasDir {
      MergeIsUnion(Known(current), extra, c.inMemory);
      FaithfulWithoutDir(w, current, extra, c);
    } else if w.file.NoFile? {
      FaithfulWithoutFile(w, current, extra, c);
    } else {
      FaithfulWithFile(w, current, extra, c);
    }
  }

  /** A save that keeps faith in every order does not depend on the order. */
  lemma FaithfulSavesAreUnambiguous(w: World, current: Option<KeySet>, extra: map<string, string>)
    requires EnvSound(w) && Held(current) && extra != map[] && (w.hasDir ==> HasState(w))
    requires forall c :: Possible(extra, c) ==> Faithful(w, current, extra, c)
    ensures Unambiguous(extra)
  {
    if !Unambiguous(extra) {
      var first :| first in extra;
      if w.hasDir {
        var some := AnOrderExists(extra.Keys);
        FaithfulSaveLeads(w, current, extra, Choices(first, some, some));
        var c, id := AmbiguousSaveCanDiffer(w, current, extra);
        assert false;
      } else {
        var p, q, id := AmbiguousMergeDependsOnOrder(Known(current), Known(current), extra);
        SameWithoutDir(w, current, extra, Choices(first, p, p));
        SameWithoutDir(w, current, extra, Choices(first, q, q));
      }
    }
  }

  lemma SameWithoutDir(w: World, current: Option<KeySet>, extra: map<string, string>, c: Choices)
    requires EnvSound(w) && Held(current) && extra != map[] && !w.hasDir && Possible(extra, c)
             && Faithful(w, current, extra, c)
    ensures w.env.EnvKeys? && Merged(Known(current), extra, c.inMemory) == w.env.keys.keys
  {
    UpdatedIs(current, extra, c);
    FaithfulWithoutDir(w, current, extra, c);
  }

  lemma FaithfulSaveLeads(w: World, current: Option<KeySet>, extra: map<string, string>, c: Choices)
    requires EnvSound(w) && Held(current) && extra != map[] && Possible(extra, c) && Faithful(w, current, extra, c)
    ensures current.Some? || NoBlanks(extra)
    ensures !w.env.EnvBroken? && (w.hasDir ==> w.file.NoFile? || HasState(w))
    ensures Loadable(w) ==> ActiveOf(w) == if current.Some? then current.value.activeID else TrimSpace(c.first)
  {
    UpdatedIs(current, extra, c);
    SaveKeepsEverything(w, current, extra, c);
    FaithfulHere(w, current, extra, c);
  }

  /** A save keeps faith in every iteration order exactly when `Adopts` holds: with a current keyring
      and without, with and without a file, an environment and a directory. */
  lemma SaveIsFaithfulIff(w: World, current: Option<KeySet>, extra: map<string, string>)
    requires EnvSound(w) && Held(current) && extra != map[]
    ensures Adopts(w, current, extra) <==> forall c :: Possible(extra, c) ==> Faithful(w, current, extra, c)
  {
    if Adopts(w, current, extra) {
      forall c | Possible(extra, c)
        ensures Faithful(w, current, extra, c)
      {
        AdoptingSaveIsFaithful(w, current, extra, c);
      }
    } else if forall c :: Possible(extra, c) ==> Faithful(w, current, extra, c) {
      FaithfulSavesAdopt(w, current, extra);
    }
  }

  lemma FaithfulSavesAdopt(w: World, current: Option<KeySet>, extra: map<string, string>)
    requires EnvSound(w) && Held(current) && extra != map[]
    requires forall c :: Possible(extra, c) ==> Faithful(w, current, extra, c)
    ensures Adopts(w, current, extra)
  {
    var first :| first in extra;
    var some := AnOrderExists(extra.Keys);
    var c := Choices(first, some, some);
    assert Faithful(w, current, extra, c);
    UpdatedIs(current, extra, c);
    FaithfulSaveLeads(w, current, extra, c);
    if Loadable(w) {
      forall id | id in extra
        ensures current.None? ==> TrimSpace(id) == ActiveOf(w)
      {
        assert Faithful(w, current, extra, Choices(id, some, some));
        FaithfulSaveLeads(w, current, extra, Choices(id, some, some));
      }
    }
    if w.hasDir && w.file.NoFile? {
      FaithfulWithoutFile(w, current, extra, c);
    } else {
      FaithfulSavesAreUnambiguous(w, current, extra);
      if w.hasDir {
        FaithfulWithFile(w, current, extra, c);
      } else {
        SameWithoutDir(w, current, extra, c);
        MergeIsUnion(Known(current), extra, some);
      }
    }
  }

  lemma RunningAdoptsIff(w: World, extra: map<string, string>)
    requires Loadable(w) && w.hasDir && Read(w.file).Ok?
    ensures Adopts(w, Some(Effective(w)), extra)
            <==> w.file.NoFile? || (Unambiguous(extra) && Unambiguous(FileEntries(w) + Usable(extra)))
  {
  }

  /** For the keyring a load of the world yields, with a directory: exactly when there was no file,
      or the extra entries are unambiguous and stay so next to the file's. */
  lemma RunningSaveIsFaithfulIff(w: World, extra: map<string, string>)
    requires EnvSound(w) && Loadable(w) && w.hasDir && Unambiguous(FileEntries(w)) && extra != map[]
    requires Read(w.file).Ok?
    ensures (w.file.NoFile? || (Unambiguous(extra) && Unambiguous(FileEntries(w) + Usable(extra))))
            <==> forall c :: Possible(extra, c) ==> Faithful(w, Some(Effective(w)), extra, c)
  {
    assert Sound(Effective(w)) by {
      var order := AnOrderExists(FileEntries(w).Keys);
      LoadIsEffective(w, Effective(w), order);
    }
    SaveIsFaithfulIff(w, Some(Effective(w)), extra);
    RunningAdoptsIff(w, extra);
  }

  lemma FaithfulNeedsEarlierIds(w: World, extra: map<string, string>, earlier: string, c: Choices)
    requires EnvSound(w) && HasState(w) && extra != map[] && Possible(extra, c) && Unambiguous(extra) && NoBlanks(extra)
    requires earlier in UsableIds(FileEntries(w)) && earlier !in UsableIds(extra)
    ensures Save(w, None, extra, c).Ok? && earlier !in Save(w, None, extra, c).value.0.keys
            && !Faithful(w, None, extra, c)
  {
    assert Save(w, None, extra, c).Ok? && earlier !in Save(w, None, extra, c).value.0.keys
           by { UpdatedIs(None, extra, c); }
    FaithfulWithFile(w, None, extra, c);
    if !w.env.EnvBroken? {
      assert Look(Effective(w).keys, earlier).Some? && Look(Known(None), earlier).None?;
    }
  }

  lemma OneEntry(id: string, secret: string)
    requires id != "" && Trimmed(id) && secret != "" && Trimmed(secret)
    ensures NoBlanks(map[id := secret]) && Unambiguous(map[id := secret]) && UsableIds(map[id := secret]) == {id}
  {
    TrimmedIsFixed(id);
    TrimmedIsFixed(secret);
    assert id in map[id := secret] && !Blank(map[id := secret], id);
  }

  /** Without a current keyring the result forgets every earlier id: one new entry suffices. */
  lemma SaveWithoutKeyringForgets(w: World, id: string, secret: string, earlier: string, c: Choices)
    requires EnvSound(w) && HasState(w) && id != "" && Trimmed(id) && secret != "" && Trimmed(secret)
    requires earlier in UsableIds(FileEntries(w)) && earlier != id && Possible(map[id := secret], c)
    ensures Unambiguous(map[id := secret]) && Save(w, None, map[id := secret], c).Ok?
    ensures earlier !in Save(w, None, map[id := secret], c).value.0.keys
    ensures !Faithful(w, None, map[id := secret], c)
  {
    var extra := map[id := secret];
    assert id in extra;
    OneEntry(id, secret);
    FaithfulNeedsEarlierIds(w, extra, earlier, c);
  }

  /** A file that spells the id with surrounding space keeps that spelling beside the new one: with
      another secret, loads no longer agree. */
  lemma RespelledIdCanDiffer(w: World, current: Option<KeySet>, raw: string, secret: string, c: Choices)
    requires EnvSound(w) && Held(current) && HasState(w) && raw in FileEntries(w) && TrimSpace(raw) != raw
    requires secret != "" && Trimmed(secret) && secret != TrimSpace(FileEntries(w)[raw])
    requires Possible(map[TrimSpace(raw) := secret], c)
    ensures Unambiguous(map[TrimSpace(raw) := secret]) && !Faithful(w, current, map[TrimSpace(raw) := secret], c)
  {
    var id := TrimSpace(raw);
    var extra, stored := map[id := secret], FileEntries(w);
    assert id in extra && !Blank(stored, raw);
    TrimSpaceTrims(raw);
    OneEntry(id, secret);
    assert Usable(extra) == extra by {
      assert Clean(extra);
      CleanUsable(extra);
    }
    SpelledTwice(stored, raw, secret);
    UpdatedIs(current, extra, c);
    FaithfulWithFile(w, current, extra, c);
  }

  lemma SpelledTwice(stored: map<string, string>, raw: string, secret: string)
    requires raw in stored && !Blank(stored, raw) && TrimSpace(raw) != raw
    requires secret != "" && Trimmed(secret) && secret != TrimSpace(stored[raw])
    ensures !Unambiguous(stored + map[TrimSpace(raw) := secret])
  {
    var id := TrimSpace(raw);
    var all := stored + map[id := secret];
    TrimSpaceTrims(raw);
    TrimmedIsFixed(id);
    TrimmedIsFixed(secret);
    assert raw in all && id in all && !Blank(all, raw) && !Blank(all, id);
  }

  // ----- the store as the process uses it -----

  class KeyringStore {
    const hasDir: bool
    const env: Environment
    var file: FileState

    ghost function Value(): World
      reads this
    {
      World(env, hasDir, file)
    }

    constructor (env: Environment, hasDir: bool, file: FileState)
      ensures Value() == World(env, hasDir, file)
    {
      this.env, this.hasDir, this.file := env, hasDir, file;
    }

    method ReadState() returns (r: Result<Option<Persisted>>)
      ensures r == Read(file)
    {
      match file
      case NoFile => return Ok(None);
      case Unreadable => return Err;
      case Stored(p) =>
        var made, _ := NewKeyring(p.activeKeyID, p.keys);
        return if made.Ok? then Ok(Some(p)) else Err;
    }

    /** Loads from the environment, from the file, or from both; `generated` is written and returned
        when there is neither. */
    method LoadOrGenerate(generated: KeySet) returns (r: Result<KeySet>, ghost order: seq<string>)
      requires EnvSound(Value())
      modifies this
      ensures Visits(order, FileEntries(old(Value())).Keys)
      ensures r.Ok? ==> Load(old(Value()), generated, order) == Ok((r.value, Value()))
      ensures r.Err? ==> Load(old(Value()), generated, order).Err? && Value() == old(Value())
    {
      order := AnOrderExists(FileEntries(Value()).Keys);
      if env.EnvBroken? { return Err, order; }
      var state := ReadState();
      if env.EnvKeys? {
        if hasDir && state.Ok? && state.value.Some? {
          var k;
          k, order := WithAdditionalKeys(env.keys, state.value.value.keys);
          return Ok(k), order;
        }
        return Ok(env.keys), order;
      }
      if !hasDir || state.Err? { return Err, order; }
      if state.value.Some? {
        r, order := NewKeyring(state.value.value.activeKeyID, state.value.value.keys);
        return;
      }
      file := Stored(Persisted(generated.activeID, generated.keys, false));
      return Ok(generated), order;
    }

    /** The keyring in memory, with the extra entries or made of them. */
    method Extend(current: Option<KeySet>, extra: map<string, string>, first: string)
      returns (r: Result<KeySet>, ghost order: seq<string>)
      requires Held(current)
      ensures Visits(order, extra.Keys)
      ensures r == match current
                   case Some(k) => Ok(Extended(k, extra, order))
                   case None => Built(first, extra, order)
    {
      if current.Some? {
        var updated;
        updated, order := WithAdditionalKeys(current.value, extra);
        return Ok(updated), order;
      }
      r, order := NewKeyring(first, extra);
    }

    /** The file: a new one, or the extra entries merged into the one there is. */
    method Persist(updated: KeySet, extra: map<string, string>) returns (ok: bool, ghost order: seq<string>)
      modifies this
      ensures Visits(order, extra.Keys) && ok == Read(old(file)).Ok?
      ensures file == if !ok then old(file)
                      else if old(file).NoFile? then Stored(Persisted(updated.activeID, updated.keys, true))
                      else Stored(old(file).state.(keys := Merged(old(file).state.keys, extra, order)))
    {
      order := AnOrderExists(extra.Keys);
      var state := ReadState();
      if state.Err? { return false, order; }
      if state.value.None? {
        file := Stored(Persisted(updated.activeID, updated.keys, true));
      } else {
        var merged;
        merged, order := Merge(state.value.value.keys, extra);
        file := Stored(state.value.value.(keys := merged));
      }
      return true, order;
    }

    /** Merges the extra entries into the keyring and, separately, into the file. */
    method SaveAdditional(current: Option<KeySet>, extra: map<string, string>, generated: KeySet)
      returns (r: Result<KeySet>, ghost c: Choices, ghost order: seq<string>)
      requires EnvSound(Value()) && Held(current)
      modifies this
      ensures Possible(extra, c) && Visits(order, FileEntries(old(Value())).Keys)
      ensures extra != map[] && r.Ok? ==> Save(old(Value()), current, extra, c) == Ok((r.value, Value()))
      ensures extra != map[] && r.Err? ==> Save(old(Value()), current, extra, c).Err? && Value() == old(Value())
      ensures extra == map[] && current.Some? ==> r == Ok(current.value) && Value() == old(Value())
      ensures extra == map[] && current.None? && r.Ok? ==>
                Load(old(Value()), generated, order) == Ok((r.value, Value()))
      ensures extra == map[] && current.None? && r.Err? ==>
                Load(old(Value()), generated, order).Err? && Value() == old(Value())
    {
      order := AnOrderExists(FileEntries(Value()).Keys);
      ghost var some := AnOrderExists(extra.Keys);
      c := Choices("", some, some);
      if |extra| == 0 {
        if current.Some? { return Ok(current.value), c, order; }
        r, order := LoadOrGenerate(generated);
        return;
      }
      var first :| first in extra;
      var updated;
      ghost var inMemory;
      updated, inMemory := Extend(current, extra, first);
      c := Choices(first, inMemory, some);
      if updated.Err? { return Err, c, order; }
      if !hasDir { return updated, c, order; }
      var written;
      ghost var inFile;
      written, inFile := Persist(updated.value, extra);
      c := Choices(first, inMemory, inFile);
      return if written then updated else Err, c, order;
    }

    method Acknowledge() returns (ok: bool)
      modifies this
      ensures ok <==> !hasDir || Read(old(file)).Ok?
      ensures file == if HasState(old(Value())) then Stored(old(file).state.(acknowledged := true)) else old(file)
    {
      if !hasDir { return true; }
      var state := ReadState();
      if state.Err? { return false; }
      if state.value.None? || state.value.value.acknowledged { return true; }
      file := Stored(state.value.value.(acknowledged := true));
      return true;
    }
  }
}
