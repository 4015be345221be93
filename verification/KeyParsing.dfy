/** Key material as text: what the status screen shows, what the environment is given, and what the
    restore form accepts. */
module KeyParsing {
  import opened Basics
  import opened Text
  import opened Keyring
  import opened KeyStore

  // ----- the restore form -----

  /** With one kind of line break. */
  function Unified(s: string): string {
    seq(|s|, i requires 0 <= i < |s| => if s[i] == '\r' then '\n' else s[i])
  }

  /** Line breaks of either kind separate lines; empty lines are skipped later. */
  function Lines(s: string): seq<string> {
    Split(Unified(s), '\n')
  }

  const ID_PREFIX := "THEIA_ENCRYPTION_KEY_ID="
  const KEYS_PREFIX := "THEIA_ENCRYPTION_KEYS="

  /** One comma-separated entry: `id=secret`, or a bare secret for the default id. */
  function ParsePart(part: string, secrets: map<string, string>, defaultID: string): Result<map<string, string>> {
    var p := TrimSpace(part);
    if p == "" then Ok(secrets)
    else match Cut(p, '=')
      case Some((id, secret)) =>
        if TrimSpace(id) == "" || TrimSpace(secret) == "" then Err else Ok(secrets[TrimSpace(id) := TrimSpace(secret)])
      case None => if defaultID != "" then Ok(secrets[defaultID := p]) else Err
  }

  function ParseParts(parts: seq<string>, secrets: map<string, string>,
                      defaultID: string): Result<map<string, string>> {
    if parts == [] then Ok(secrets)
    else match ParsePart(parts[0], secrets, defaultID)
      case Ok(more) => ParseParts(parts[1..], more, defaultID)
      case Err => Err
  }

  function ParseLines(lines: seq<string>, secrets: map<string, string>,
                      defaultID: string): Result<map<string, string>> {
    if lines == [] then Ok(secrets)
    else
      var line := TrimSpace(lines[0]);
      if line == "" || line[0] == '#' then ParseLines(lines[1..], secrets, defaultID)
      else if HasPrefix(line, ID_PREFIX) then
        var id := TrimSpace(line[|ID_PREFIX|..]);
        ParseLines(lines[1..], secrets, if id != "" && defaultID == "" then id else defaultID)
      else
        var entries := if HasPrefix(line, KEYS_PREFIX) then TrimSpace(line[|KEYS_PREFIX|..]) else line;
        match ParseParts(Split(entries, ','), secrets, defaultID)
        case Ok(more) => ParseLines(lines[1..], more, defaultID)
        case Err => Err
  }

  function ParseFlexible(input: string, defaultID: string): Result<map<string, string>> {
    if TrimSpace(input) == "" then Err
    else match ParseLines(Lines(TrimSpace(input)), map[], TrimSpace(defaultID))
      case Ok(secrets) => if secrets == map[] then Err else Ok(secrets)
      case Err => Err
  }

  method ParsePartsLoop(parts: seq<string>, initial: map<string, string>, defaultID: string)
    returns (r: Result<map<string, string>>)
    ensures r == ParseParts(parts, initial, defaultID)
  {
    var secrets := initial;
    for i := 0 to |parts|
      invariant ParseParts(parts[i..], secrets, defaultID) == ParseParts(parts, initial, defaultID)
    {
      assert parts[i..][1..] == parts[i + 1..];
      var part := TrimSpace(parts[i]);
      if part == "" { continue; }
      match Cut(part, '=')
      case Some((rawID, rawSecret)) =>
        var id, secret := TrimSpace(rawID), TrimSpace(rawSecret);
        if id == "" || secret == "" { return Err; }
        secrets := secrets[id := secret];
      case None =>
        if defaultID == "" { return Err; }
        secrets := secrets[defaultID := part];
    }
    return Ok(secrets);
  }

  /** The parser as the source runs it: line by line, entry by entry, over one growing map. */
  method ParseFlexibleEncryptionKeys(input: string, defaultKeyID: string) returns (r: Result<map<string, string>>)
    ensures r == ParseFlexible(input, defaultKeyID)
  {
    if TrimSpace(input) == "" { return Err; }
    var defaultID := TrimSpace(defaultKeyID);
    var secrets: map<string, string> := map[];
    var lines := Lines(TrimSpace(input));
    for i := 0 to |lines|
      invariant ParseLines(lines[i..], secrets, defaultID) == ParseLines(lines, map[], TrimSpace(defaultKeyID))
    {
      assert lines[i..][1..] == lines[i + 1..];
      var line := TrimSpace(lines[i]);
      if line == "" || line[0] == '#' { continue; }
      if HasPrefix(line, ID_PREFIX) {
        var id := TrimSpace(line[|ID_PREFIX|..]);
        if id != "" && defaultID == "" { defaultID := id; }
        continue;
      }
      if HasPrefix(line, KEYS_PREFIX) { line := TrimSpace(line[|KEYS_PREFIX|..]); }
      var parsed := ParsePartsLoop(Split(line, ','), secrets, defaultID);
      if parsed.Err? { return Err; }
      secrets := parsed.value;
    }
    if |secrets| == 0 { return Err; }
    return Ok(secrets);
  }

  // ----- what the restore form can yield -----

  lemma PartKeepsClean(part: string, secrets: map<string, string>, defaultID: string)
    requires Clean(secrets) && Trimmed(defaultID)
    ensures var r := ParsePart(part, secrets, defaultID); r.Ok? ==> Clean(r.value)
  {
    var p := TrimSpace(part);
    TrimSpaceTrims(part);
    if Cut(p, '=').Some? {
      TrimSpaceTrims(Cut(p, '=').value.0);
      TrimSpaceTrims(Cut(p, '=').value.1);
    }
  }

  lemma {:induction false} PartsKeepClean(parts: seq<string>, secrets: map<string, string>, defaultID: string)
    requires Clean(secrets) && Trimmed(defaultID)
    ensures var r := ParseParts(parts, secrets, defaultID); r.Ok? ==> Clean(r.value)
  {
    if parts != [] {
      PartKeepsClean(parts[0], secrets, defaultID);
      var first := ParsePart(parts[0], secrets, defaultID);
      if first.Ok? { PartsKeepClean(parts[1..], first.value, defaultID); }
    }
  }

  lemma {:induction false} LinesKeepClean(lines: seq<string>, secrets: map<string, string>, defaultID: string)
    requires Clean(secrets) && Trimmed(defaultID)
    ensures var r := ParseLines(lines, secrets, defaultID); r.Ok? ==> Clean(r.value)
  {
    if lines != [] {
      var line := TrimSpace(lines[0]);
      if line == "" || line[0] == '#' {
        LinesKeepClean(lines[1..], secrets, defaultID);
      } else if HasPrefix(line, ID_PREFIX) {
        var id := TrimSpace(line[|ID_PREFIX|..]);
        TrimSpaceTrims(line[|ID_PREFIX|..]);
        LinesKeepClean(lines[1..], secrets, if id != "" && defaultID == "" then id else defaultID);
      } else {
        var entries := if HasPrefix(line, KEYS_PREFIX) then TrimSpace(line[|KEYS_PREFIX|..]) else line;
        PartsKeepClean(Split(entries, ','), secrets, defaultID);
        var more := ParseParts(Split(entries, ','), secrets, defaultID);
        if more.Ok? { LinesKeepClean(lines[1..], more.value, defaultID); }
      }
    }
  }

  /** Whatever the form accepts is trimmed, so it never spells one id with two secrets. */
  lemma ParsedKeysAreClean(input: string, defaultID: string)
    requires ParseFlexible(input, defaultID).Ok?
    ensures Clean(ParseFlexible(input, defaultID).value) && Unambiguous(ParseFlexible(input, defaultID).value)
    ensures ParseFlexible(input, defaultID).value != map[]
  {
    TrimSpaceTrims(defaultID);
    LinesKeepClean(Lines(TrimSpace(input)), map[], TrimSpace(defaultID));
    CleanUsable(ParseFlexible(input, defaultID).value);
  }

  /** Restoring, end to end: whatever the form accepts, saved by a process that runs on the keyring
      of its world, is what every later load yields together with all that was there before. The
      file only has to be one the program wrote, or any other without surrounding space. */
  lemma RestoredKeysSurvive(w: World, input: string, defaultID: string, c: Choices)
    requires EnvSound(w) && Loadable(w) && w.hasDir && Read(w.file).Ok? && Clean(FileEntries(w))
    requires ParseFlexible(input, defaultID).Ok? && Possible(ParseFlexible(input, defaultID).value, c)
    ensures var extra := ParseFlexible(input, defaultID).value;
            Faithful(w, Some(Effective(w)), extra, c)
              && Save(w, Some(Effective(w)), extra, c).value.0.keys == Effective(w).keys + extra
  {
    var extra := ParseFlexible(input, defaultID).value;
    ParsedKeysAreClean(input, defaultID);
    assert Unambiguous(FileEntries(w)) by { CleanUsable(FileEntries(w)); }
    assert Unambiguous(FileEntries(w) + Usable(extra)) by {
      CleanUsable(extra);
      CleanUnion(FileEntries(w), extra);
      CleanUsable(FileEntries(w) + extra);
    }
    RunningSaveIsFaithfulIff(w, extra);
    assert Merged(Effective(w).keys, extra, c.inMemory) == Effective(w).keys + extra by {
      MergeIsUnion(Effective(w).keys, extra, c.inMemory);
      CleanUsable(extra);
    }
  }

  // ----- the environment -----

  function CollectPairs(pairs: seq<string>, secrets: map<string, string>): Result<map<string, string>> {
    if pairs == [] then Ok(secrets)
    else match Cut(TrimSpace(pairs[0]), '=')
      case None => Err
      case Some((rawID, rawSecret)) =>
        var id, secret := TrimSpace(rawID), TrimSpace(rawSecret);
        if id == "" || secret == "" || id in secrets then Err else CollectPairs(pairs[1..], secrets[id := secret])
  }

  /** `ParseKeyring`: the active id and a comma-separated list without repeated ids. */
  function ParseKeyring(activeID: string, keyList: string): Result<KeySet> {
    if TrimSpace(activeID) == "" || TrimSpace(keyList) == "" then Err
    else match CollectPairs(Split(TrimSpace(keyList), ','), map[])
      case Err => Err
      case Ok(secrets) => if TrimSpace(activeID) in secrets then Ok(KeySet(TrimSpace(activeID), secrets)) else Err
  }

  /** An entry that was cut out between commas. */
  ghost predicate Parsed(id: string, secret: string) {
    && id != "" && Trimmed(id) && '=' !in id && ',' !in id
    && secret != "" && Trimmed(secret) && ',' !in secret
  }

  lemma CutParsed(pair: string)
    requires ',' !in pair && Cut(TrimSpace(pair), '=').Some?
    ensures var (id, secret) := Cut(TrimSpace(pair), '=').value;
            TrimSpace(id) != "" && TrimSpace(secret) != "" ==> Parsed(TrimSpace(id), TrimSpace(secret))
  {
    var p := TrimSpace(pair);
    var n := Find(p, '=');
    TrimSpaceTrims(pair);
    TrimSpaceTrims(p[..n]);
    TrimSpaceTrims(p[n + 1..]);
  }

  lemma {:induction false} CollectedAreParsed(pairs: seq<string>, secrets: map<string, string>)
    requires (forall p :: p in pairs ==> ',' !in p) && (forall id :: id in secrets ==> Parsed(id, secrets[id]))
    ensures var r := CollectPairs(pairs, secrets); r.Ok? ==> forall id :: id in r.value ==> Parsed(id, r.value[id])
  {
    if pairs != [] && Cut(TrimSpace(pairs[0]), '=').Some? {
      var (rawID, rawSecret) := Cut(TrimSpace(pairs[0]), '=').value;
      var id, secret := TrimSpace(rawID), TrimSpace(rawSecret);
      CutParsed(pairs[0]);
      if id != "" && secret != "" && id !in secrets {
        CollectedAreParsed(pairs[1..], secrets[id := secret]);
        assert CollectPairs(pairs, secrets) == CollectPairs(pairs[1..], secrets[id := secret]);
      }
    }
  }

  /** The environment parser as the source runs it. */
  method ParseKeyringLoop(activeID: string, keyList: string) returns (r: Result<KeySet>)
    ensures r == ParseKeyring(activeID, keyList)
  {
    if TrimSpace(activeID) == "" || TrimSpace(keyList) == "" { return Err; }
    var pairs := Split(TrimSpace(keyList), ',');
    var secrets: map<string, string> := map[];
    for i := 0 to |pairs|
      invariant CollectPairs(pairs[i..], secrets) == CollectPairs(pairs, map[])
    {
      assert pairs[i..][1..] == pairs[i + 1..];
      match Cut(TrimSpace(pairs[i]), '=')
      case None => return Err;
      case Some((rawID, rawSecret)) =>
        var id, secret := TrimSpace(rawID), TrimSpace(rawSecret);
        if id == "" || secret == "" || id in secrets { return Err; }
        secrets := secrets[id := secret];
    }
    SplitParts(TrimSpace(keyList), ',');
    CollectedAreParsed(pairs, map[]);
    r := NewKeyringOfClean(activeID, secrets);
  }

  /** `NewKeyring` on entries that are trimmed already. */
  method NewKeyringOfClean(activeID: string, secrets: map<string, string>) returns (r: Result<KeySet>)
    requires Clean(secrets)
    ensures r == if TrimSpace(activeID) in secrets then Ok(KeySet(TrimSpace(activeID), secrets)) else Err
  {
    CleanIsNotBlank(secrets);
    CleanUsable(secrets);
    assert UsableIds(secrets) == Usable(secrets).Keys == secrets.Keys;
    var made, _ := NewKeyring(activeID, secrets);
    r := made;
  }

  // ----- the status screen -----

  function PendingSecret(id: string, secret: string): string {
    id + ['='] + secret
  }

  function EnvSnippet(id: string, secret: string): string {
    (ID_PREFIX + id) + ['\n'] + (KEYS_PREFIX + PendingSecret(id, secret))
  }

  datatype Status = Status(activeKeyID: string, acknowledged: bool, managedByEnv: bool, pendingSecret: string,
    envSnippet: string)

  /** `ReadEncryptionKeyStatus`; `running` is the keyring in use. The texts are made from the file as
      it is written there. */
  ghost function ReadStatus(w: World, running: Option<KeySet>): Result<Status> {
    if w.env.EnvBroken? && !w.env.readable then Err
    else if w.env.NoEnv? && w.hasDir && Read(w.file).Err? then Err
    else if w.env.NoEnv? && HasState(w) then
      var p := w.file.state;
      var secret := if p.activeKeyID in p.keys then p.keys[p.activeKeyID] else "";
      Ok(Status(TrimSpace(p.activeKeyID), p.acknowledged, false,
                if p.acknowledged then "" else PendingSecret(p.activeKeyID, secret),
                if p.acknowledged then "" else EnvSnippet(p.activeKeyID, secret)))
    else if running.Some? then Ok(Status(running.value.activeID, true, true, "", ""))
    else Ok(Status("", true, !w.env.NoEnv?, "", ""))
  }

  /** Key material is on the screen exactly while the keys come from a file that nobody has
      acknowledged. An environment, or a process without a file, shows the id in use and nothing else. */
  lemma StatusShowsSecretsIff(w: World, running: Option<KeySet>)
    ensures ReadStatus(w, running).Err?
            <==> w.env == EnvBroken(false) || (w.env.NoEnv? && w.hasDir && Read(w.file).Err?)
    ensures ReadStatus(w, running).Ok? ==>
              var shown, fromFile := ReadStatus(w, running).value, w.env.NoEnv? && HasState(w);
              && (shown.pendingSecret != "" <==> fromFile && !w.file.state.acknowledged)
              && (shown.envSnippet != "" <==> fromFile && !w.file.state.acknowledged)
              && (shown.acknowledged <==> fromFile ==> w.file.state.acknowledged)
              && (!fromFile && running.Some? ==> shown.activeKeyID == running.value.activeID && shown.managedByEnv)
              && (fromFile ==> !shown.managedByEnv)
  {
  }

  lemma PartParses(id: string, secret: string, secrets: map<string, string>, defaultID: string)
    requires Parsed(id, secret)
    ensures ParseParts(Split(PendingSecret(id, secret), ','), secrets, defaultID) == Ok(secrets[id := secret])
  {
    var pair := PendingSecret(id, secret);
    assert pair[0] == id[0] && pair[|pair| - 1] == secret[|secret| - 1];
    SplitNone(pair, ',');
    TrimmedIsFixed(pair);
    CutOf(id, '=', secret);
    TrimmedIsFixed(id);
    TrimmedIsFixed(secret);
    assert ParsePart(pair, secrets, defaultID) == Ok(secrets[id := secret]);
    assert [pair][1..] == [];
  }

  /** Secrets have no commas, and a last part with an equals sign leaves an entry whose id has
      neither a comma nor an equals sign. */
  lemma {:induction false} PartsYield(parts: seq<string>, secrets: map<string, string>, defaultID: string)
    requires forall p :: p in parts ==> ',' !in p
    ensures var r := ParseParts(parts, secrets, defaultID);
            r.Ok? ==>
              && secrets.Keys <= r.value.Keys
              && (forall id :: id in r.value && !(id in secrets && secrets[id] == r.value[id]) ==> ',' !in r.value[id])
              && (parts != [] && '=' in TrimSpace(parts[|parts| - 1])
                 ==> exists id :: id in r.value && '=' !in id && ',' !in id)
  {
    if parts != [] {
      var first := ParsePart(parts[0], secrets, defaultID);
      TrimSpaceTrims(parts[0]);
      if Cut(TrimSpace(parts[0]), '=').Some? { CutParsed(parts[0]); }
      if first.Ok? {
        PartsYield(parts[1..], first.value, defaultID);
        var r := ParseParts(parts[1..], first.value, defaultID);
        assert ParseParts(parts, secrets, defaultID) == r;
        if |parts| == 1 && '=' in TrimSpace(parts[0]) {
          var id := TrimSpace(Cut(TrimSpace(parts[0]), '=').value.0);
          assert r == first && id in r.value && '=' !in id && ',' !in id;
        }
        assert |parts| > 1 ==> parts[1..][|parts| - 2] == parts[|parts| - 1];
      }
    }
  }

  /** One `id=secret` entry is read back exactly when neither holds a comma and the id no equals
      sign. */
  lemma EntryParsesIff(id: string, secret: string, defaultID: string)
    requires id != "" && Trimmed(id) && secret != "" && Trimmed(secret)
    ensures ParseParts(Split(PendingSecret(id, secret), ','), map[], defaultID) == Ok(map[id := secret])
            <==> Parsed(id, secret)
  {
    var pair := PendingSecret(id, secret);
    if Parsed(id, secret) {
      PartParses(id, secret, map[], defaultID);
    } else if ParseParts(Split(pair, ','), map[], defaultID) == Ok(map[id := secret]) {
      SplitParts(pair, ',');
      PartsYield(Split(pair, ','), map[], defaultID);
      assert id in map[id := secret] && ',' !in secret;
      LastHasEquals(id, secret);
      assert false;
    }
  }

  lemma LastHasEquals(id: string, secret: string)
    requires secret != "" && Trimmed(secret) && ',' !in secret
    ensures var parts := Split(PendingSecret(id, secret), ','); '=' in TrimSpace(parts[|parts| - 1])
  {
    var q := Split(id, ',');
    var tail := ['='] + secret;
    assert PendingSecret(id, secret) == id + tail;
    SplitBack(id, tail, ',');
    TrimKeepsTail(q[|q| - 1], '=', secret);
  }

  lemma {:induction false} TrimKeepsTail(s: string, c: char, t: string)
    requires !IsSpace(c) && t != "" && Trimmed(t)
    ensures c in TrimSpace(s + ([c] + t))
    decreases |s|
  {
    var whole := s + ([c] + t);
    if s != "" && IsSpace(s[0]) {
      assert whole[1..] == s[1..] + ([c] + t);
      TrimKeepsTail(s[1..], c, t);
    } else {
      assert whole[0] == if s == "" then c else s[0];
      assert whole[|whole| - 1] == t[|t| - 1] && whole[|s|] == c;
      TrimmedIsFixed(whole);
    }
  }

  lemma LinesOfOne(s: string)
    requires '\n' !in s && '\r' !in s
    ensures Lines(s) == [s]
  {
    assert Unified(s) == s;
    SplitNone(s, '\n');
  }

  lemma LinesOfTwo(a: string, b: string)
    requires '\n' !in a && '\r' !in a && '\n' !in b && '\r' !in b
    ensures Lines(a + ['\n'] + b) == [a, b]
  {
    var s := a + ['\n'] + b;
    assert Unified(s) == s;
    SplitCons(a, '\n', b);
    SplitNone(b, '\n');
  }

  const ID_NAME := "THEIA_ENCRYPTION_KEY_ID"
  const KEYS_NAME := "THEIA_ENCRYPTION_KEYS"

  lemma NamesAndPrefixes()
    ensures ID_PREFIX == ID_NAME + ['='] && KEYS_PREFIX == KEYS_NAME + ['='] && '=' !in ID_NAME && '=' !in KEYS_NAME
    ensures '\n' !in ID_PREFIX && '\r' !in ID_PREFIX && '\n' !in KEYS_PREFIX && '\r' !in KEYS_PREFIX
  {
  }

  /** Id and secret as a keyring holds them, each on one line. */
  ghost predicate Kept(id: string, secret: string) {
    && id != "" && Trimmed(id) && '\n' !in id && '\r' !in id
    && secret != "" && Trimmed(secret) && '\n' !in secret && '\r' !in secret
  }

  /** The text starts with a variable's name exactly when the id is that name, or has an equals
      sign of its own. */
  lemma PrefixMeansName(id: string, secret: string, name: string)
    requires '=' !in name && HasPrefix(PendingSecret(id, secret), name + ['='])
    ensures id == name || '=' in id
  {
    var pair := PendingSecret(id, secret);
    if '=' !in id {
      FindIs(pair, '=', |id|) by { assert pair[..|id|] == id; }
      FindIs(pair, '=', |name|)
        by { assert pair[..|name|] == (name + ['='])[..|name|] == name && pair[|name|] == (name + ['='])[|name|]; }
      assert pair[..|id|] == id && pair[..|name|] == (name + ['='])[..|name|] == name;
    }
  }

  lemma FlexibleIff(input: string, defaultID: string, lines: seq<string>, secrets: map<string, string>, id: string)
    requires input != "" && TrimSpace(input) == input && Lines(input) == lines && id in secrets
    ensures ParseFlexible(input, defaultID) == Ok(secrets)
            <==> ParseLines(lines, map[], TrimSpace(defaultID)) == Ok(secrets)
  {
  }

  /** An id that is read as one, and not as a comment or a variable. */
  ghost predicate ReadAsEntry(id: string, secret: string, defaultID: string) {
    && !HasPrefix(id, "#") && id != ID_NAME
    && (id == KEYS_NAME ==> '=' !in secret && TrimSpace(defaultID) == id)
  }

  /** The pending secret as the only line. */
  lemma PendingLineIff(id: string, secret: string, defaultID: string)
    requires Kept(id, secret) && TrimSpace(defaultID) == defaultID
    ensures ParseLines([PendingSecret(id, secret)], map[], defaultID) == Ok(map[id := secret])
            <==> Parsed(id, secret) && ReadAsEntry(id, secret, defaultID)
  {
    var pair := PendingSecret(id, secret);
    PairIsTrimmed(id, secret);
    NamesAndPrefixes();
    assert pair[0] == id[0];
    var only: seq<string> := [pair];
    assert id in map[id := secret];
    assert only[1..] == [];
    if pair[0] == '#' {
      assert HasPrefix(id, "#");
    } else if HasPrefix(pair, ID_PREFIX) {
      PrefixMeansName(id, secret, ID_NAME);
    } else if HasPrefix(pair, KEYS_PREFIX) {
      PrefixMeansName(id, secret, KEYS_NAME);
      KeysLineIff(id, secret, defaultID);
    } else {
      assert id == ID_NAME ==> HasPrefix(pair, ID_PREFIX);
      assert id == KEYS_NAME ==> HasPrefix(pair, KEYS_PREFIX);
      EntryParsesIff(id, secret, defaultID);
    }
  }

  lemma PairIsTrimmed(id: string, secret: string)
    requires id != "" && Trimmed(id) && secret != "" && Trimmed(secret)
    ensures TrimSpace(PendingSecret(id, secret)) == PendingSecret(id, secret) && TrimSpace(id) == id
            && TrimSpace(secret) == secret
  {
    var pair := PendingSecret(id, secret);
    assert pair[0] == id[0] && pair[|pair| - 1] == secret[|secret| - 1];
    TrimmedIsFixed(pair);
    TrimmedIsFixed(id);
    TrimmedIsFixed(secret);
  }

  /** An id that starts like the variable holding the list: what follows the name is read as the
      list. */
  lemma KeysLineIff(id: string, secret: string, defaultID: string)
    requires Kept(id, secret) && HasPrefix(PendingSecret(id, secret), KEYS_PREFIX)
    ensures var rest := TrimSpace(PendingSecret(id, secret)[|KEYS_PREFIX|..]);
            ParseParts(Split(rest, ','), map[], defaultID) == Ok(map[id := secret])
            <==> Parsed(id, secret) && id == KEYS_NAME && '=' !in secret && defaultID == id
  {
    var pair := PendingSecret(id, secret);
    var rest := pair[|KEYS_PREFIX|..];
    NamesAndPrefixes();
    PrefixMeansName(id, secret, KEYS_NAME);
    TrimmedIsFixed(secret);
    if id == KEYS_NAME {
      assert rest == secret;
      if ',' in secret { ListHasNoCommas(secret, id, secret, defaultID); } else {
        BareSecretIff(secret, id, defaultID);
      }
    } else if ParseParts(Split(TrimSpace(rest), ','), map[], defaultID) == Ok(map[id := secret]) {
      ListHasNoCommas(TrimSpace(rest), id, secret, defaultID);
      RestEndsWithEntry(id, secret);
      SplitParts(TrimSpace(rest), ',');
      PartsYield(Split(TrimSpace(rest), ','), map[], defaultID);
      assert false;
    }
  }

  lemma ListHasNoCommas(list: string, id: string, secret: string, defaultID: string)
    ensures ParseParts(Split(list, ','), map[], defaultID) == Ok(map[id := secret]) ==> ',' !in secret
  {
    SplitParts(list, ',');
    PartsYield(Split(list, ','), map[], defaultID);
    assert id in map[id := secret];
  }

  lemma BareSecretIff(secret: string, id: string, defaultID: string)
    requires secret != "" && Trimmed(secret) && ',' !in secret
    ensures ParseParts(Split(secret, ','), map[], defaultID) == Ok(map[id := secret])
            <==> '=' !in secret && defaultID == id != ""
  {
    SplitNone(secret, ',');
    TrimmedIsFixed(secret);
    assert [secret][1..] == [];
    var r := ParsePart(secret, map[], defaultID);
    var n := Find(secret, '=');
    if '=' in secret {
      var value := TrimSpace(secret[n + 1..]);
      TrimIsWithin(secret[n + 1..]);
      if r.Ok? {
        assert r.value == map[TrimSpace(secret[..n]) := value];
        assert TrimSpace(secret[..n]) in r.value && |value| < |secret|;
      }
    } else {
      assert n == |secret|;
      if r.Ok? { assert r.value == map[defaultID := secret] && defaultID in r.value; }
    }
  }

  lemma RestEndsWithEntry(id: string, secret: string)
    requires Kept(id, secret) && HasPrefix(PendingSecret(id, secret), KEYS_PREFIX) && id != KEYS_NAME && ',' !in secret
    ensures var parts := Split(TrimSpace(PendingSecret(id, secret)[|KEYS_PREFIX|..]), ',');
            '=' in TrimSpace(parts[|parts| - 1])
  {
    var pair := PendingSecret(id, secret);
    NamesAndPrefixes();
    PrefixMeansName(id, secret, KEYS_NAME);
    IdGoesBeyond(id, secret);
    var more := id[|KEYS_PREFIX|..];
    assert pair[|KEYS_PREFIX|..] == PendingSecret(more, secret);
    TrimmedTail(more, secret);
  }

  lemma IdGoesBeyond(id: string, secret: string)
    requires HasPrefix(PendingSecret(id, secret), KEYS_PREFIX) && id != KEYS_NAME
    ensures |id| >= |KEYS_PREFIX|
  {
    NamesAndPrefixes();
    PrefixMeansName(id, secret, KEYS_NAME);
    var pair := PendingSecret(id, secret);
    assert forall j :: 0 <= j < |KEYS_NAME| ==> KEYS_NAME[j] in KEYS_NAME && pair[j] == KEYS_PREFIX[j] == KEYS_NAME[j];
    var i :| 0 <= i < |id| && id[i] == '=';
    assert pair[i] == '=';
  }

  /** Trimming in front leaves an entry's last part with its equals sign. */
  lemma {:induction false} TrimmedTail(more: string, secret: string)
    requires secret != "" && Trimmed(secret) && ',' !in secret
    ensures var parts := Split(TrimSpace(PendingSecret(more, secret)), ','); '=' in TrimSpace(parts[|parts| - 1])
    decreases |more|
  {
    var pair := PendingSecret(more, secret);
    if more != "" && IsSpace(more[0]) {
      assert pair[1..] == PendingSecret(more[1..], secret);
      TrimmedTail(more[1..], secret);
      assert TrimSpace(pair) == TrimSpace(pair[1..]);
    } else {
      assert pair[0] == (if more == "" then '=' else more[0]) && pair[|pair| - 1] == secret[|secret| - 1];
      TrimmedIsFixed(pair);
      LastHasEquals(more, secret);
    }
  }

  /** The pending secret, pasted into the restore form, is the key it stands for exactly when
      neither id nor secret holds a separator and the id is read as one. */
  lemma PendingSecretParsesIff(id: string, secret: string, defaultID: string)
    requires Kept(id, secret)
    ensures ParseFlexible(PendingSecret(id, secret), defaultID) == Ok(map[id := secret])
            <==> Parsed(id, secret) && ReadAsEntry(id, secret, defaultID)
  {
    var pair, d := PendingSecret(id, secret), TrimSpace(defaultID);
    assert TrimSpace(pair) == pair && Lines(pair) == [pair] by {
      PairIsTrimmed(id, secret);
      LinesOfOne(pair);
    }
    assert TrimSpace(d) == d by {
      TrimSpaceTrims(defaultID);
      TrimmedIsFixed(d);
    }
    PendingLineIff(id, secret, d);
    assert id in map[id := secret];
    FlexibleIff(pair, defaultID, [pair], map[id := secret], id);
  }

  lemma IdLineIsSkipped(id: string, rest: seq<string>, defaultID: string)
    requires id != "" && Trimmed(id)
    ensures ParseLines([ID_PREFIX + id] + rest, map[], defaultID)
            == ParseLines(rest, map[], if defaultID == "" then id else defaultID)
  {
    var line := ID_PREFIX + id;
    assert line[0] == 'T' && line[|line| - 1] == id[|id| - 1];
    TrimmedIsFixed(line);
    assert line[|ID_PREFIX|..] == id;
    TrimmedIsFixed(id);
    assert ([line] + rest)[1..] == rest;
  }

  lemma ListLineIff(id: string, secret: string, defaultID: string)
    requires Kept(id, secret)
    ensures ParseLines([KEYS_PREFIX + PendingSecret(id, secret)], map[], defaultID) == Ok(map[id := secret])
            <==> Parsed(id, secret)
  {
    var pair := PendingSecret(id, secret);
    var line := KEYS_PREFIX + pair;
    PairIsTrimmed(id, secret);
    assert line[0] == 'T' && line[|line| - 1] == pair[|pair| - 1] == secret[|secret| - 1];
    TrimmedIsFixed(line);
    assert line[|KEYS_PREFIX|..] == pair;
    assert line[20] == 'S' && ID_PREFIX[20] == '_';
    EntryParsesIff(id, secret, defaultID);
    assert [line][1..] == [];
  }

  lemma SnippetLines(id: string, secret: string)
    requires Kept(id, secret)
    ensures TrimSpace(EnvSnippet(id, secret)) == EnvSnippet(id, secret)
    ensures Lines(EnvSnippet(id, secret)) == [ID_PREFIX + id] + [KEYS_PREFIX + PendingSecret(id, secret)]
  {
    var whole := EnvSnippet(id, secret);
    NamesAndPrefixes();
    assert whole[0] == 'T' && whole[|whole| - 1] == secret[|secret| - 1];
    TrimmedIsFixed(whole);
    LinesOfTwo(ID_PREFIX + id, KEYS_PREFIX + PendingSecret(id, secret));
  }

  /** The environment snippet, pasted into the form, is the key exactly when neither id nor secret
      holds a separator. */
  lemma EnvSnippetParsesIff(id: string, secret: string, defaultID: string)
    requires Kept(id, secret)
    ensures ParseFlexible(EnvSnippet(id, secret), defaultID) == Ok(map[id := secret]) <==> Parsed(id, secret)
  {
    var first, second, d := ID_PREFIX + id, KEYS_PREFIX + PendingSecret(id, secret), TrimSpace(defaultID);
    assert ParseLines([first] + [second], map[], d) == Ok(map[id := secret]) <==> Parsed(id, secret) by {
      IdLineIsSkipped(id, [second], d);
      ListLineIff(id, secret, if d == "" then id else d);
    }
    SnippetLines(id, secret);
    assert id in map[id := secret];
    FlexibleIff(EnvSnippet(id, secret), defaultID, [first] + [second], map[id := secret], id);
  }

  /** Set as environment variables, the two values of the snippet load the key exactly when both are
      trimmed and not blank and hold no separator: for every id and secret. */
  lemma EnvironmentAcceptsTheSnippetIff(id: string, secret: string)
    ensures ParseKeyring(id, PendingSecret(id, secret)) == Ok(KeySet(id, map[id := secret])) <==> Parsed(id, secret)
  {
    var pair := PendingSecret(id, secret);
    assert id in map[id := secret];
    if Parsed(id, secret) {
      PairIsTrimmed(id, secret);
      SplitNone(pair, ',');
      CutOf(id, '=', secret);
      assert [pair][1..] == [];
      assert CollectPairs([pair], map[]) == Ok(map[id := secret]);
    } else if ParseKeyring(id, pair) == Ok(KeySet(id, map[id := secret])) {
      SplitParts(TrimSpace(pair), ',');
      CollectedAreParsed(Split(TrimSpace(pair), ','), map[]);
      assert false;
    }
  }

  // ----- generated keys -----

  predicate Between(c: char, lo: char, hi: char) {
    lo <= c <= hi
  }

  /** `kid-` followed by year, month and hexadecimal digits. */
  ghost predicate GeneratedId(id: string) {
    "kid-" <= id && forall c :: c in id ==> Between(c, 'a', 'z') || Between(c, '0', '9') || c == '-'
  }

  /** Unpadded URL-safe base64 of thirty-two bytes. */
  ghost predicate GeneratedSecret(secret: string) {
    |secret| == 43 && forall c :: c in secret
                        ==> Between(c, 'A', 'Z') || Between(c, 'a', 'z') || Between(c, '0', '9') || c == '-' || c == '_'
  }

  lemma GeneratedAreKept(id: string, secret: string)
    requires GeneratedId(id) && GeneratedSecret(secret)
    ensures Kept(id, secret) && Parsed(id, secret) && id[0] == 'k'
  {
    assert id[0] == "kid-"[0] && id[0] in id && id[|id| - 1] in id;
    assert secret[0] in secret && secret[|secret| - 1] in secret;
  }

  /** Everything the administrator is told to save about a generated key brings it back. */
  lemma GeneratedKeysAreRecoverable(id: string, secret: string, defaultID: string)
    requires GeneratedId(id) && GeneratedSecret(secret)
    ensures ParseFlexible(PendingSecret(id, secret), defaultID) == Ok(map[id := secret])
    ensures ParseFlexible(EnvSnippet(id, secret), defaultID) == Ok(map[id := secret])
    ensures ParseKeyring(id, PendingSecret(id, secret)) == Ok(KeySet(id, map[id := secret]))
  {
    GeneratedAreKept(id, secret);
    assert ID_NAME[0] == 'T' && KEYS_NAME[0] == 'T';
    PendingSecretParsesIff(id, secret, defaultID);
    EnvSnippetParsesIff(id, secret, defaultID);
    EnvironmentAcceptsTheSnippetIff(id, secret);
  }

  /** After a first start the status screen shows the generated key until it is acknowledged, and
      both texts it shows restore exactly that key. */
  lemma StatusShowsWhatRestoreAccepts(w: World, id: string, secret: string, defaultID: string, running: Option<KeySet>)
    requires w.env.NoEnv? && w.hasDir && w.file.NoFile? && GeneratedId(id) && GeneratedSecret(secret)
    ensures var started := Load(w, KeySet(id, map[id := secret]), []).value.1;
            var seen := started.(file := Stored(started.file.state.(acknowledged := true)));
            && ReadStatus(started, running).Ok? && ReadStatus(seen, running).Ok?
            && var shown, later := ReadStatus(started, running).value, ReadStatus(seen, running).value;
               && shown.activeKeyID == id && !shown.acknowledged
               && ParseFlexible(shown.pendingSecret, defaultID) == Ok(map[id := secret])
               && ParseFlexible(shown.envSnippet, defaultID) == Ok(map[id := secret])
               && later.activeKeyID == id && later.acknowledged && later.pendingSecret == "" && later.envSnippet == ""
  {
    GeneratedAreKept(id, secret);
    OneEntryStatus(w, id, secret, false, running);
    OneEntryStatus(w, id, secret, true, running);
    GeneratedKeysAreRecoverable(id, secret, defaultID);
  }

  lemma OneEntryStatus(w: World, id: string, secret: string, acknowledged: bool, running: Option<KeySet>)
    requires w.env.NoEnv? && w.hasDir && id != "" && Trimmed(id) && secret != "" && Trimmed(secret)
    ensures ReadStatus(w.(file := Stored(Persisted(id, map[id := secret], acknowledged))), running)
            == Ok(Status(id, acknowledged, false, if acknowledged then "" else PendingSecret(id, secret),
                         if acknowledged then "" else EnvSnippet(id, secret)))
  {
    assert TrimSpace(id) == id by { TrimmedIsFixed(id); }
    assert Acceptable(id, map[id := secret]) by { OneEntry(id, secret); }
  }

  /** The single-key line of a legacy environment is taken for an entry whose id is the variable's
      name, not for the legacy key. */
  lemma LegacyLineNamesTheVariable(secret: string, defaultID: string)
    requires Kept(LEGACY_NAME, secret) && ',' !in secret
    ensures ParseFlexible(PendingSecret(LEGACY_NAME, secret), defaultID) == Ok(map[LEGACY_NAME := secret])
  {
    LegacyNameIsAnId();
    PendingSecretParsesIff(LEGACY_NAME, secret, defaultID);
  }

  const LEGACY_NAME := "THEIA_ENCRYPTION_KEY"

  lemma LegacyNameIsAnId()
    ensures '=' !in LEGACY_NAME && ',' !in LEGACY_NAME && !HasPrefix(LEGACY_NAME, "#") && LEGACY_NAME != ID_NAME
            && LEGACY_NAME != KEYS_NAME
  {
    assert LEGACY_NAME[0] == 'T' && |LEGACY_NAME| == 20 && |ID_NAME| == 23 && |KEYS_NAME| == 21;
  }
}
