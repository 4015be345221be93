/** What the restore form and the environment make of whole texts: any number of entries, grouped into
    lines in any way, among comments, blank lines and variables. */
module KeyDocuments {
  import opened Basics
  import opened Text
  import opened Keyring
  import opened KeyParsing

  // ----- documents -----

  /** One piece between commas: `id = secret` with space anywhere around either, an equals sign with
      a side missing, a bare secret, or nothing but space. */
  datatype Entry =
    | Pair(before: string, id: string, left: string, right: string, secret: string, after: string)
    | Broken(before: string, name: string, value: string)
    | Bare(before: string, secret: string, after: string)
    | Gap(space: string)

  function EntryText(e: Entry): string {
    match e
    case Pair(before, id, left, right, secret, after) => before + PendingSecret(id + left, right + secret + after)
    case Broken(before, name, value) => before + PendingSecret(name, value)
    case Bare(before, secret, after) => before + (secret + after)
    case Gap(space) => space
  }

  ghost predicate EntryOk(e: Entry) {
    match e
    case Pair(before, id, left, right, secret, after) =>
      AllSpace(before) && AllSpace(left) && AllSpace(right) && AllSpace(after) && Parsed(id, secret)
    case Broken(before, name, value) =>
      && AllSpace(before) && '=' !in name && ',' !in name && ',' !in value
      && (name == "" || (!IsSpace(name[0]) && AllSpace(value)))
    case Bare(before, secret, after) =>
      AllSpace(before) && AllSpace(after) && secret != "" && Trimmed(secret) && '=' !in secret && ',' !in secret
    case Gap(space) => AllSpace(space)
  }

  function Texts(entries: seq<Entry>): seq<string> {
    seq(|entries|, i requires 0 <= i < |entries| => EntryText(entries[i]))
  }

  function ListText(entries: seq<Entry>): string
    requires entries != []
  {
    Join(Texts(entries), ',')
  }

  /** An entry that a line may start with: not read as a comment or a variable. */
  ghost predicate MayLead(e: Entry) {
    match e
    case Pair(_, id, left, _, _, _) => !HasPrefix(id, "#") && id + left != ID_NAME && id + left != KEYS_NAME
    case Broken(_, name, _) => !HasPrefix(name, "#") && name != ID_NAME && name != KEYS_NAME
    case Bare(_, secret, _) => !HasPrefix(secret, "#")
    case Gap(_) => true
  }

  ghost predicate AllOk(entries: seq<Entry>) {
    entries != [] && forall i :: 0 <= i < |entries| ==> EntryOk(entries[i])
  }

  /** One line: entries, the variable with the list, the variable with the id, a comment, or space. */
  datatype Row =
    | Entries(entries: seq<Entry>)
    | Listed(before: string, entries: seq<Entry>)
    | Named(before: string, left: string, id: string, after: string)
    | Comment(before: string, text: string)
    | Empty(space: string)

  function RowText(r: Row): string
    requires (r.Entries? || r.Listed?) ==> r.entries != []
  {
    match r
    case Entries(entries) => ListText(entries)
    case Listed(before, entries) => before + ("THEIA_ENCRYPTION_KEYS=" + ListText(entries))
    case Named(before, left, id, after) => before + ("THEIA_ENCRYPTION_KEY_ID=" + (left + id + after))
    case Comment(before, text) => before + (['#'] + text)
    case Empty(space) => space
  }

  ghost predicate RowShape(r: Row) {
    && ((r.Entries? || r.Listed?) ==> AllOk(r.entries))
    && (r.Entries? ==> MayLead(r.entries[0]))
    && ((r.Listed? || r.Named? || r.Comment?) ==> AllSpace(r.before))
    && (r.Named? ==> AllSpace(r.left) && AllSpace(r.after) && Trimmed(r.id))
    && (r.Empty? ==> AllSpace(r.space))
  }

  ghost predicate RowOk(r: Row) {
    RowShape(r) && '\n' !in RowText(r) && '\r' !in RowText(r)
  }

  ghost predicate RowsOk(rows: seq<Row>) {
    forall i :: 0 <= i < |rows| ==> RowOk(rows[i])
  }

  ghost function RowTexts(rows: seq<Row>): seq<string>
    requires RowsOk(rows)
  {
    seq(|rows|, i requires 0 <= i < |rows| => RowText(rows[i]))
  }

  ghost predicate Breaks(ends: seq<char>) {
    forall c :: c in ends ==> c == '\n' || c == '\r'
  }

  /** Lines with a break of either kind after each but the last. */
  function Document(lines: seq<string>, ends: seq<char>): string
    requires |lines| == |ends| + 1
  {
    if ends == [] then lines[0] else lines[0] + [ends[0]] + Document(lines[1..], ends[1..])
  }

  // ----- meaning -----

  function EntryMeaning(e: Entry, secrets: map<string, string>, defaultID: string): Result<map<string, string>> {
    match e
    case Pair(_, id, _, _, secret, _) => Ok(secrets[id := secret])
    case Broken(_, _, _) => Err
    case Bare(_, secret, _) => if defaultID == "" then Err else Ok(secrets[defaultID := secret])
    case Gap(_) => Ok(secrets)
  }

  function ListMeaning(entries: seq<Entry>, secrets: map<string, string>, defaultID: string)
    : Result<map<string, string>> {
    if entries == [] then Ok(secrets)
    else match EntryMeaning(entries[0], secrets, defaultID)
      case Ok(more) => ListMeaning(entries[1..], more, defaultID)
      case Err => Err
  }

  /** What one line makes of the entries so far and of the id for bare secrets. */
  function RowMeaning(r: Row, secrets: map<string, string>, defaultID: string): Result<(map<string, string>, string)> {
    match r
    case Named(_, _, id, _) => Ok((secrets, if defaultID == "" then id else defaultID))
    case Comment(_, _) => Ok((secrets, defaultID))
    case Empty(_) => Ok((secrets, defaultID))
    case _ =>
      match ListMeaning(r.entries, secrets, defaultID)
      case Ok(more) => Ok((more, defaultID))
      case Err => Err
  }

  /** Entries count in order, later ones winning; the first named id serves bare secrets if the form
      has no default; comments and blank lines say nothing. */
  function RowsMeaning(rows: seq<Row>, secrets: map<string, string>, defaultID: string): Result<map<string, string>> {
    if rows == [] then Ok(secrets)
    else match RowMeaning(rows[0], secrets, defaultID)
      case Ok((more, id)) => RowsMeaning(rows[1..], more, id)
      case Err => Err
  }

  // ----- pieces only count up to the space around them -----

  ghost predicate SameTrimmed(a: seq<string>, b: seq<string>) {
    |a| == |b| && forall i :: 0 <= i < |a| ==> TrimSpace(a[i]) == TrimSpace(b[i])
  }

  lemma SameTrimmedTails(a: seq<string>, b: seq<string>)
    requires SameTrimmed(a, b) && a != []
    ensures TrimSpace(a[0]) == TrimSpace(b[0]) && SameTrimmed(a[1..], b[1..])
  {
    assert forall i :: 0 <= i < |a[1..]| ==> a[1..][i] == a[i + 1] && b[1..][i] == b[i + 1];
  }

  lemma {:induction false} PartsOnlyTrimmed(a: seq<string>, b: seq<string>, secrets: map<string, string>,
                                            defaultID: string)
    requires SameTrimmed(a, b)
    ensures ParseParts(a, secrets, defaultID) == ParseParts(b, secrets, defaultID)
  {
    if a != [] {
      SameTrimmedTails(a, b);
      var first := ParsePart(a[0], secrets, defaultID);
      assert first == ParsePart(b[0], secrets, defaultID);
      if first.Ok? { PartsOnlyTrimmed(a[1..], b[1..], first.value, defaultID); }
    }
  }

  lemma {:induction false} PairsOnlyTrimmed(a: seq<string>, b: seq<string>, secrets: map<string, string>)
    requires SameTrimmed(a, b)
    ensures CollectPairs(a, secrets) == CollectPairs(b, secrets)
  {
    if a != [] {
      SameTrimmedTails(a, b);
      match Cut(TrimSpace(a[0]), '=')
      case None =>
      case Some((rawID, rawSecret)) =>
        PairsOnlyTrimmed(a[1..], b[1..], secrets[TrimSpace(rawID) := TrimSpace(rawSecret)]);
    }
  }

  lemma {:induction false} LinesOnlyTrimmed(a: seq<string>, b: seq<string>, secrets: map<string, string>,
                                            defaultID: string)
    requires SameTrimmed(a, b)
    ensures ParseLines(a, secrets, defaultID) == ParseLines(b, secrets, defaultID)
  {
    if a != [] {
      SameTrimmedTails(a, b);
      var line := TrimSpace(a[0]);
      if line == "" || line[0] == '#' {
        LinesOnlyTrimmed(a[1..], b[1..], secrets, defaultID);
      } else if HasPrefix(line, ID_PREFIX) {
        var id := TrimSpace(line[|ID_PREFIX|..]);
        LinesOnlyTrimmed(a[1..], b[1..], secrets, if id != "" && defaultID == "" then id else defaultID);
      } else {
        var entries := if HasPrefix(line, KEYS_PREFIX) then TrimSpace(line[|KEYS_PREFIX|..]) else line;
        var more := ParseParts(Split(entries, ','), secrets, defaultID);
        if more.Ok? { LinesOnlyTrimmed(a[1..], b[1..], more.value, defaultID); }
      }
    }
  }

  lemma SplitPadded(before: string, core: string, after: string, c: char)
    requires c !in before && c !in after
    ensures var r, q := Split(before + core + after, c), Split(core, c);
            && |r| == |q|
            && forall i :: 0 <= i < |q|
                 ==> r[i] == (if i == 0 then before else "") + q[i] + (if i == |q| - 1 then after else "")
  {
    SplitFront(before, core, c);
    SplitBack(before + core, after, c);
    FirstAndLast(before, Split(core, c), after, Split(before + core, c), Split(before + core + after, c));
  }

  lemma FirstAndLast(before: string, q: seq<string>, after: string, p: seq<string>, r: seq<string>)
    requires |q| > 0 && p == [before + q[0]] + q[1..] && r == p[..|p| - 1] + [p[|p| - 1] + after]
    ensures |r| == |q|
    ensures forall i :: 0 <= i < |q|
              ==> r[i] == (if i == 0 then before else "") + q[i] + (if i == |q| - 1 then after else "")
  {
    forall i | 0 <= i < |q|
      ensures r[i] == (if i == 0 then before else "") + q[i] + (if i == |q| - 1 then after else "")
    {
      assert p[i] == (if i == 0 then before else "") + q[i];
      assert r[i] == p[i] + (if i == |q| - 1 then after else "");
    }
  }

  lemma PaddedParts(before: string, core: string, after: string, c: char)
    requires AllSpace(before) && AllSpace(after) && c !in before && c !in after
    ensures SameTrimmed(Split(before + core + after, c), Split(core, c))
  {
    var r, q := Split(before + core + after, c), Split(core, c);
    SplitPadded(before, core, after, c);
    forall i | 0 <= i < |r|
      ensures TrimSpace(r[i]) == TrimSpace(q[i])
    {
      TrimIgnoresPad(if i == 0 then before else "", q[i], if i == |q| - 1 then after else "");
    }
  }

  lemma ListOnlyTrimmed(text: string)
    ensures SameTrimmed(Split(TrimSpace(text), ','), Split(text, ','))
  {
    var before, after := TrimDecomposes(text);
    PaddedParts(before, TrimSpace(text), after, ',');
  }

  // ----- one entry -----

  lemma PairParses(e: Entry)
    requires e.Pair? && EntryOk(e)
    ensures Cut(TrimSpace(EntryText(e)), '=') == Some((e.id + e.left, e.right + e.secret))
    ensures TrimSpace(e.id + e.left) == e.id && TrimSpace(e.right + e.secret) == e.secret
  {
    var core := PendingSecret(e.id + e.left, e.right + e.secret);
    assert core[0] == e.id[0] && core[|core| - 1] == e.secret[|e.secret| - 1];
    assert EntryText(e) == e.before + core + e.after;
    TrimOfPadded(e.before, core, e.after);
    CutOf(e.id + e.left, '=', e.right + e.secret);
    TrimOfPadded("", e.id, e.left);
    assert "" + e.id + e.left == e.id + e.left;
    TrimOfPadded(e.right, e.secret, "");
    assert e.right + e.secret + "" == e.right + e.secret;
  }

  /** With a side missing there is still an equals sign to cut at, and the side is still missing. */
  lemma BrokenParses(e: Entry)
    requires e.Broken? && EntryOk(e)
    ensures var cut := Cut(TrimSpace(EntryText(e)), '=');
            cut.Some? && (TrimSpace(cut.value.0) == "" || TrimSpace(cut.value.1) == "")
  {
    var kept, gone := TrimTail(e.before, e.name, '=', e.value);
    assert TrimSpace(EntryText(e)) == PendingSecret(e.name, kept);
    CutOf(e.name, '=', kept);
    if e.name != "" { BlankIff(kept) by { assert forall c :: c in kept ==> c in e.value; } }
  }

  lemma BareParses(e: Entry)
    requires e.Bare? && EntryOk(e)
    ensures TrimSpace(EntryText(e)) == e.secret && Cut(e.secret, '=') == None
  {
    assert EntryText(e) == e.before + e.secret + e.after;
    TrimOfPadded(e.before, e.secret, e.after);
  }

  lemma EntryParses(e: Entry, secrets: map<string, string>, defaultID: string)
    requires EntryOk(e)
    ensures ParsePart(EntryText(e), secrets, defaultID) == EntryMeaning(e, secrets, defaultID)
  {
    match e
    case Pair(_, _, _, _, _, _) => PairParses(e);
    case Broken(_, _, _) => BrokenParses(e);
    case Bare(_, _, _) => BareParses(e);
    case Gap(space) => BlankIff(space);
  }

  lemma {:induction false} EntriesParse(entries: seq<Entry>, secrets: map<string, string>, defaultID: string)
    requires forall i :: 0 <= i < |entries| ==> EntryOk(entries[i])
    ensures ParseParts(Texts(entries), secrets, defaultID) == ListMeaning(entries, secrets, defaultID)
  {
    if entries != [] {
      EntryParses(entries[0], secrets, defaultID);
      assert Texts(entries)[1..] == Texts(entries[1..]);
      var first := EntryMeaning(entries[0], secrets, defaultID);
      if first.Ok? { EntriesParse(entries[1..], first.value, defaultID); }
    }
  }

  lemma EntryHasNoComma(e: Entry)
    requires EntryOk(e)
    ensures ',' !in EntryText(e)
  {
  }

  lemma ListSplits(entries: seq<Entry>)
    requires AllOk(entries)
    ensures Split(ListText(entries), ',') == Texts(entries)
  {
    var texts := Texts(entries);
    forall i | 0 <= i < |texts| ensures ',' !in texts[i] { EntryHasNoComma(entries[i]); }
    SplitJoin(texts, ',');
  }

  /** A list of entries means what its entries mean, with or without space around it. */
  lemma ListParses(entries: seq<Entry>, secrets: map<string, string>, defaultID: string)
    requires AllOk(entries)
    ensures ParseParts(Split(TrimSpace(ListText(entries)), ','), secrets, defaultID)
            == ListMeaning(entries, secrets, defaultID)
  {
    ListSplits(entries);
    ListOnlyTrimmed(ListText(entries));
    PartsOnlyTrimmed(Split(TrimSpace(ListText(entries)), ','), Texts(entries), secrets, defaultID);
    EntriesParse(entries, secrets, defaultID);
  }

  // ----- how a line starts -----

  /** What an entry starts with after its space. */
  function Body(e: Entry): string
    requires !e.Gap?
  {
    match e
    case Pair(_, id, left, right, secret, after) => PendingSecret(id + left, right + secret + after)
    case Broken(_, name, value) => PendingSecret(name, value)
    case Bare(_, secret, after) => secret + after
  }

  /** Up to its equals sign, if it has one. */
  function Head(e: Entry): string
    requires !e.Gap?
  {
    match e
    case Pair(_, id, left, _, _, _) => id + left
    case Broken(_, name, _) => name
    case Bare(_, secret, after) => secret + after
  }

  lemma BodyStarts(e: Entry)
    requires EntryOk(e) && !e.Gap?
    ensures Body(e) != "" && !IsSpace(Body(e)[0]) && EntryText(e) == e.before + Body(e)
    ensures Body(e)[0] == '#' <==> HasPrefix(if e.Pair? then e.id else if e.Broken? then e.name else e.secret, "#")
  {
    assert e.Pair? ==> Body(e)[0] == e.id[0];
    assert e.Broken? ==> Body(e)[0] == if e.name == "" then '=' else e.name[0];
    assert e.Bare? ==> Body(e)[0] == e.secret[0];
  }

  lemma BodyIsAssignmentIff(e: Entry, name: string)
    requires EntryOk(e) && !e.Gap? && '=' !in name
    ensures HasPrefix(Body(e), name + ['=']) <==> !e.Bare? && Head(e) == name
  {
    var body := Body(e);
    if e.Bare? {
      assert (name + ['='])[|name|] == '=';
      assert forall i :: 0 <= i < |body| ==> body[i] in body && body[i] != '=';
    } else {
      var tail := if e.Pair? then e.right + e.secret + e.after else e.value;
      assert body == PendingSecret(Head(e), tail) && '=' !in Head(e);
      if HasPrefix(body, name + ['=']) { PrefixMeansName(Head(e), tail, name); }
    }
  }

  /** What has no comma and starts a list starts its first entry. */
  lemma PrefixIsInBody(body: string, rest: string, q: string)
    requires ',' !in q && (rest == "" || rest[0] == ',')
    ensures HasPrefix(body + rest, q) <==> HasPrefix(body, q)
  {
    assert forall i :: 0 <= i < |q| ==> q[i] in q && q[i] != ',';
    assert rest != "" ==> (body + rest)[|body|] == ',';
    assert HasPrefix(body + rest, q) ==> forall i :: 0 <= i < |q| ==> q[i] == (body + rest)[i];
    if HasPrefix(body, q) { assert body + rest == q + (body[|q|..] + rest); }
  }

  /** Trimming does not take away a prefix that ends in something else. */
  lemma TrimKeepsPrefix(s: string, q: string, c: char)
    requires !IsSpace(c)
    ensures HasPrefix(TrimRight(s), q + [c]) <==> HasPrefix(s, q + [c])
  {
    TrimRightShape(s);
    if HasPrefix(s, q + [c]) {
      assert s == q + [c] + s[|q| + 1..];
      TrimRightKeeps(q, c, s[|q| + 1..]);
    }
  }

  /** A line that starts with an entry is neither a comment nor a variable. */
  ghost predicate PlainLine(line: string) {
    line == "" || (line[0] != '#' && !HasPrefix(line, ID_PREFIX) && !HasPrefix(line, KEYS_PREFIX))
  }

  lemma PlainIff(e: Entry, rest: string)
    requires EntryOk(e) && !e.Gap? && (rest == "" || rest[0] == ',')
    ensures PlainLine(TrimRight(Body(e) + rest)) <==> MayLead(e)
  {
    var body := Body(e);
    var line := TrimRight(body + rest);
    NamesAndPrefixes();
    BodyStarts(e);
    TrimKeepsPrefix(body + rest, body[..0], body[0]) by { assert body[..0] + [body[0]] <= body + rest; }
    assert line != "" && line[0] == body[0];
    assert ',' !in ID_PREFIX && ',' !in KEYS_PREFIX;
    TrimKeepsPrefix(body + rest, ID_NAME, '=');
    PrefixIsInBody(body, rest, ID_PREFIX);
    BodyIsAssignmentIff(e, ID_NAME);
    TrimKeepsPrefix(body + rest, KEYS_NAME, '=');
    PrefixIsInBody(body, rest, KEYS_PREFIX);
    BodyIsAssignmentIff(e, KEYS_NAME);
  }

  lemma JoinStarts(parts: seq<string>) returns (rest: string)
    requires |parts| > 0
    ensures Join(parts, ',') == parts[0] + rest && (rest == "" || rest[0] == ',')
  {
    rest := if |parts| == 1 then "" else [','] + Join(parts[1..], ',');
    assert parts[0] + "" == parts[0];
  }

  lemma ListIsPlainIff(entries: seq<Entry>)
    requires AllOk(entries)
    ensures PlainLine(TrimSpace(ListText(entries))) <==> MayLead(entries[0])
  {
    var e := entries[0];
    var rest := JoinStarts(Texts(entries));
    if e.Gap? {
      TrimLeftPad(e.space, rest);
      assert TrimLeft(rest) == rest;
      TrimRightShape(rest);
      assert ID_PREFIX[0] == 'T' == KEYS_PREFIX[0];
    } else {
      BodyStarts(e);
      assert ListText(entries) == e.before + (Body(e) + rest);
      TrimLeftPad(e.before, Body(e) + rest);
      assert (Body(e) + rest)[0] == Body(e)[0];
      PlainIff(e, rest);
    }
  }

  // ----- one line -----

  /** What one line does, whatever lines follow. */
  ghost predicate Reads(line: string, secrets: map<string, string>, defaultID: string,
                        r: Result<(map<string, string>, string)>) {
    forall rest :: ParseLines([line] + rest, secrets, defaultID)
                   == if r.Ok? then ParseLines(rest, r.value.0, r.value.1) else Err
  }

  lemma FirstLine(line: string, rest: seq<string>)
    ensures ([line] + rest)[0] == line && ([line] + rest)[1..] == rest
  {
  }

  lemma SkippedLine(line: string, secrets: map<string, string>, defaultID: string)
    requires var t := TrimSpace(line); t == "" || t[0] == '#'
    ensures Reads(line, secrets, defaultID, Ok((secrets, defaultID)))
  {
    forall rest
      ensures ParseLines([line] + rest, secrets, defaultID) == ParseLines(rest, secrets, defaultID)
    {
      FirstLine(line, rest);
    }
  }

  lemma IdLine(line: string, id: string, secrets: map<string, string>, defaultID: string)
    requires HasPrefix(TrimSpace(line), ID_PREFIX) && TrimSpace(TrimSpace(line)[|ID_PREFIX|..]) == id
    ensures Reads(line, secrets, defaultID, Ok((secrets, if defaultID == "" then id else defaultID)))
  {
    assert TrimSpace(line)[0] == ID_PREFIX[0] == 'T';
    forall rest
      ensures ParseLines([line] + rest, secrets, defaultID)
              == ParseLines(rest, secrets, if defaultID == "" then id else defaultID)
    {
      FirstLine(line, rest);
    }
  }

  /** The meaning of a list of entries, as what a line does. */
  function Continues(list: Result<map<string, string>>, defaultID: string): Result<(map<string, string>, string)> {
    match list
    case Ok(more) => Ok((more, defaultID))
    case Err => Err
  }

  lemma EntryLine(line: string, secrets: map<string, string>, defaultID: string)
    requires PlainLine(TrimSpace(line))
    ensures Reads(line, secrets, defaultID,
                  Continues(ParseParts(Split(TrimSpace(line), ','), secrets, defaultID), defaultID))
  {
    var t := TrimSpace(line);
    if t == "" {
      assert Split(t, ',') == [t] && [t][1..] == [];
      SkippedLine(line, secrets, defaultID);
    } else {
      var more := ParseParts(Split(t, ','), secrets, defaultID);
      forall rest
        ensures ParseLines([line] + rest, secrets, defaultID)
                == if more.Ok? then ParseLines(rest, more.value, defaultID) else Err
      {
        FirstLine(line, rest);
      }
    }
  }

  lemma ListLine(line: string, list: string, secrets: map<string, string>, defaultID: string)
    requires HasPrefix(TrimSpace(line), KEYS_PREFIX) && TrimSpace(TrimSpace(line)[|KEYS_PREFIX|..]) == list
    ensures Reads(line, secrets, defaultID, Continues(ParseParts(Split(list, ','), secrets, defaultID), defaultID))
  {
    var t := TrimSpace(line);
    assert t[0] == KEYS_PREFIX[0] == 'T' && t[20] == KEYS_PREFIX[20] == 'S' && ID_PREFIX[20] == '_';
    var more := ParseParts(Split(list, ','), secrets, defaultID);
    forall rest
      ensures ParseLines([line] + rest, secrets, defaultID)
              == if more.Ok? then ParseLines(rest, more.value, defaultID) else Err
    {
      FirstLine(line, rest);
    }
  }

  lemma VariableTrims(before: string, name: string, value: string)
    requires AllSpace(before) && name != "" && !IsSpace(name[0])
    ensures var t := TrimSpace(before + (name + ['='] + value));
            HasPrefix(t, name + ['=']) && TrimSpace(t[|name| + 1..]) == TrimSpace(value)
  {
    var kept, gone := TrimTail(before, name, '=', value);
    assert (name + ['='] + kept)[|name| + 1..] == kept;
    assert value == "" + kept + gone;
    TrimIgnoresPad("", kept, gone);
  }

  lemma CommentTrims(before: string, text: string)
    requires AllSpace(before)
    ensures var t := TrimSpace(before + (['#'] + text)); t != "" && t[0] == '#'
  {
    var kept, _ := TrimTail(before, "", '#', text);
    assert ['#'] + text == "" + ['#'] + text;
    assert ("" + ['#'] + kept)[0] == '#';
  }

  lemma RowParses(r: Row, secrets: map<string, string>, defaultID: string)
    requires RowShape(r)
    ensures Reads(RowText(r), secrets, defaultID, RowMeaning(r, secrets, defaultID))
  {
    var line := RowText(r);
    NamesAndPrefixes();
    match r
    case Entries(entries) =>
      ListIsPlainIff(entries);
      EntryLine(line, secrets, defaultID);
      ListParses(entries, secrets, defaultID);
    case Listed(before, entries) =>
      VariableTrims(before, KEYS_NAME, ListText(entries));
      ListLine(line, TrimSpace(ListText(entries)), secrets, defaultID);
      ListParses(entries, secrets, defaultID);
    case Named(before, left, id, after) =>
      VariableTrims(before, ID_NAME, left + id + after);
      TrimOfPadded(left, id, after);
      IdLine(line, id, secrets, defaultID);
    case Comment(before, text) =>
      CommentTrims(before, text);
      SkippedLine(line, secrets, defaultID);
    case Empty(space) =>
      BlankIff(space);
      SkippedLine(line, secrets, defaultID);
  }

  lemma {:induction false} RowsParse(rows: seq<Row>, secrets: map<string, string>, defaultID: string)
    requires RowsOk(rows)
    ensures ParseLines(RowTexts(rows), secrets, defaultID) == RowsMeaning(rows, secrets, defaultID)
  {
    if rows != [] {
      var line, rest := RowText(rows[0]), RowTexts(rows[1..]);
      RowTextsOfCons(rows);
      RowParses(rows[0], secrets, defaultID);
      var first := RowMeaning(rows[0], secrets, defaultID);
      ReadsFirst(line, rest, secrets, defaultID, first);
      if first.Ok? { RowsParse(rows[1..], first.value.0, first.value.1); }
    }
  }

  lemma RowTextsOfCons(rows: seq<Row>)
    requires RowsOk(rows) && rows != []
    ensures RowOk(rows[0]) && RowsOk(rows[1..]) && RowTexts(rows) == [RowText(rows[0])] + RowTexts(rows[1..])
  {
  }

  lemma ReadsFirst(line: string, rest: seq<string>, secrets: map<string, string>, defaultID: string,
                   r: Result<(map<string, string>, string)>)
    requires Reads(line, secrets, defaultID, r)
    ensures ParseLines([line] + rest, secrets, defaultID)
            == if r.Ok? then ParseLines(rest, r.value.0, r.value.1) else Err
  {
  }

  // ----- whole texts -----

  lemma UnifiedConcat(a: string, b: string)
    ensures Unified(a + b) == Unified(a) + Unified(b)
  {
  }

  lemma {:induction false} DocumentLines(lines: seq<string>, ends: seq<char>)
    requires |lines| == |ends| + 1 && Breaks(ends)
    requires forall i :: 0 <= i < |lines| ==> '\n' !in lines[i] && '\r' !in lines[i]
    ensures Lines(Document(lines, ends)) == lines
  {
    if ends == [] {
      LinesOfOne(lines[0]);
    } else {
      var rest := Document(lines[1..], ends[1..]);
      assert forall c :: c in ends[1..] ==> c in ends;
      DocumentLines(lines[1..], ends[1..]);
      assert ends[0] in ends;
      LinesOfCons(lines[0], ends[0], rest);
    }
  }

  lemma LinesOfCons(line: string, c: char, rest: string)
    requires '\n' !in line && '\r' !in line && (c == '\n' || c == '\r')
    ensures Lines(line + [c] + rest) == [line] + Lines(rest)
  {
    assert Unified(line + [c] + rest) == line + ['\n'] + Unified(rest);
    SplitCons(line, '\n', Unified(rest));
  }

  lemma {:induction false} EmptyLineAtEnd(lines: seq<string>, secrets: map<string, string>, defaultID: string)
    ensures ParseLines(lines + [""], secrets, defaultID) == ParseLines(lines, secrets, defaultID)
  {
    if lines == [] {
      assert lines + [""] == [""] && [""][1..] == [];
    } else {
      assert (lines + [""])[0] == lines[0] && (lines + [""])[1..] == lines[1..] + [""];
      var line := TrimSpace(lines[0]);
      if line == "" || line[0] == '#' {
        EmptyLineAtEnd(lines[1..], secrets, defaultID);
      } else if HasPrefix(line, ID_PREFIX) {
        var id := TrimSpace(line[|ID_PREFIX|..]);
        EmptyLineAtEnd(lines[1..], secrets, if id != "" && defaultID == "" then id else defaultID);
      } else {
        var entries := if HasPrefix(line, KEYS_PREFIX) then TrimSpace(line[|KEYS_PREFIX|..]) else line;
        var more := ParseParts(Split(entries, ','), secrets, defaultID);
        if more.Ok? { EmptyLineAtEnd(lines[1..], more.value, defaultID); }
      }
    }
  }

  lemma {:induction false} SpaceInFront(pad: string, s: string, secrets: map<string, string>, defaultID: string)
    requires AllSpace(pad)
    ensures ParseLines(Lines(pad + s), secrets, defaultID) == ParseLines(Lines(s), secrets, defaultID)
  {
    if pad == "" {
      assert pad + s == s;
    } else {
      var c, t := pad[0], pad[1..] + s;
      assert pad + s == [c] + t && c in pad;
      SpaceInFront(pad[1..], s, secrets, defaultID);
      UnifiedConcat([c], t);
      if c == '\n' || c == '\r' {
        assert Unified([c]) == ['\n'] && "" + ['\n'] + Unified(t) == ['\n'] + Unified(t);
        SplitCons("", '\n', Unified(t));
        SkippedLine("", secrets, defaultID);
      } else {
        assert Unified([c]) == [c] && [c] + Unified(t) + "" == [c] + Unified(t);
        PaddedParts([c], Unified(t), "", '\n');
        LinesOnlyTrimmed(Lines(pad + s), Lines(t), secrets, defaultID);
      }
    }
  }

  lemma {:induction false} SpaceAtEnd(s: string, pad: string, secrets: map<string, string>, defaultID: string)
    requires AllSpace(pad)
    ensures ParseLines(Lines(s + pad), secrets, defaultID) == ParseLines(Lines(s), secrets, defaultID)
  {
    if pad == "" {
      assert s + pad == s;
    } else {
      var n := |pad| - 1;
      var c, t := pad[n], s + pad[..n];
      assert s + pad == t + [c] && c in pad;
      SpaceAtEnd(s, pad[..n], secrets, defaultID);
      UnifiedConcat(t, [c]);
      if c == '\n' || c == '\r' {
        assert Unified([c]) == ['\n'];
        SplitThen(Unified(t), '\n');
        EmptyLineAtEnd(Lines(t), secrets, defaultID);
      } else {
        assert Unified([c]) == [c] && "" + Unified(t) + [c] == Unified(t) + [c];
        PaddedParts("", Unified(t), [c], '\n');
        LinesOnlyTrimmed(Lines(s + pad), Lines(t), secrets, defaultID);
      }
    }
  }

  lemma {:induction false} SplitThen(s: string, c: char)
    ensures Split(s + [c], c) == Split(s, c) + [""]
    decreases |s|
  {
    var n := Find(s, c);
    if n < |s| {
      assert s + [c] == s[..n] + [c] + (s[n + 1..] + [c]);
      SplitCons(s[..n], c, s[n + 1..] + [c]);
      SplitThen(s[n + 1..], c);
    } else {
      assert s + [c] == s + [c] + "";
      SplitCons(s, c, "");
    }
  }

  /** The form says the same about a text with and without space and line breaks around it. */
  lemma FormIgnoresSpace(text: string, defaultID: string)
    ensures ParseFlexible(text, defaultID)
            == match ParseLines(Lines(text), map[], TrimSpace(defaultID))
               case Ok(secrets) => if secrets == map[] then Err else Ok(secrets)
               case Err => Err
  {
    var d := TrimSpace(defaultID);
    var before, after := TrimDecomposes(text);
    SpaceAtEnd(before + TrimSpace(text), after, map[], d);
    SpaceInFront(before, TrimSpace(text), map[], d);
    if TrimSpace(text) == "" {
      LinesOfOne("");
      assert [""][1..] == [];
    }
  }

  /** Every text that is made of well-formed lines, with line breaks of either kind, is accepted with
      exactly what the lines mean, and refused when one of them is broken or they hold no entry. */
  lemma DocumentsParse(rows: seq<Row>, ends: seq<char>, defaultID: string)
    requires |rows| == |ends| + 1 && RowsOk(rows) && Breaks(ends)
    ensures ParseFlexible(Document(RowTexts(rows), ends), defaultID)
            == match RowsMeaning(rows, map[], TrimSpace(defaultID))
               case Ok(secrets) => if secrets == map[] then Err else Ok(secrets)
               case Err => Err
  {
    DocumentLines(RowTexts(rows), ends);
    FormIgnoresSpace(Document(RowTexts(rows), ends), defaultID);
    RowsParse(rows, map[], TrimSpace(defaultID));
  }
}
