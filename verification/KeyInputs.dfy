/** Every text the restore form can be given, every list the environment can hold, and what becomes of
    the pairs in them. */
module KeyInputs {
  import opened Basics
  import opened Text
  import opened Keyring
  import opened KeyParsing
  import opened KeyDocuments

  // ----- every text is such a document -----

  lemma PairOfSides(a: string, b: string) returns (e: Entry)
    requires '=' !in a && ',' !in a && ',' !in b && TrimSpace(a) != "" && TrimSpace(b) != ""
    ensures EntryOk(e) && EntryText(e) == PendingSecret(a, b)
  {
    var before, left := TrimDecomposes(a);
    var right, after := TrimDecomposes(b);
    TrimSpaceTrims(a);
    TrimSpaceTrims(b);
    e := Pair(before, TrimSpace(a), left, right, TrimSpace(b), after);
    assert EntryText(e) == (before + TrimSpace(a) + left) + ['='] + (right + TrimSpace(b) + after);
  }

  lemma BrokenOfSides(a: string, b: string) returns (e: Entry)
    requires '=' !in a && ',' !in a && ',' !in b && (TrimSpace(a) == "" || TrimSpace(b) == "")
    ensures EntryOk(e) && EntryText(e) == PendingSecret(a, b)
  {
    if TrimSpace(a) == "" {
      BlankIff(a);
      e := Broken(a, "", b);
      assert EntryText(e) == PendingSecret(a, b);
    } else {
      var before, after := TrimDecomposes(a);
      BlankIff(b);
      e := Broken(before, TrimSpace(a) + after, b);
      assert a == before + (TrimSpace(a) + after);
      assert EntryText(e) == PendingSecret(a, b);
    }
  }

  lemma EveryPieceIsAnEntry(piece: string) returns (e: Entry)
    requires ',' !in piece
    ensures EntryOk(e) && EntryText(e) == piece
  {
    var n := Find(piece, '=');
    if n < |piece| {
      var a, b := piece[..n], piece[n + 1..];
      assert piece == PendingSecret(a, b);
      if TrimSpace(a) == "" || TrimSpace(b) == "" { e := BrokenOfSides(a, b); } else { e := PairOfSides(a, b); }
    } else {
      var before, after := TrimDecomposes(piece);
      TrimSpaceTrims(piece);
      if TrimSpace(piece) == "" { e := Gap(before + after); } else { e := Bare(before, TrimSpace(piece), after); }
    }
  }

  lemma {:induction false} EveryListIsEntries(pieces: seq<string>) returns (entries: seq<Entry>)
    requires forall p :: p in pieces ==> ',' !in p
    ensures |entries| == |pieces| && Texts(entries) == pieces
    ensures forall i :: 0 <= i < |entries| ==> EntryOk(entries[i])
  {
    entries := [];
    if pieces != [] {
      var e := EveryPieceIsAnEntry(pieces[0]);
      var more := EveryListIsEntries(pieces[1..]);
      entries := [e] + more;
      assert Texts(entries) == [EntryText(e)] + Texts(more);
    }
  }

  lemma EntriesOf(list: string) returns (entries: seq<Entry>)
    ensures AllOk(entries) && ListText(entries) == list
  {
    SplitParts(list, ',');
    entries := EveryListIsEntries(Split(list, ','));
  }

  lemma CommentLine(before: string, rest: string) returns (r: Row)
    requires AllSpace(before)
    ensures RowShape(r) && RowText(r) == before + (['#'] + rest)
  {
    r := Comment(before, rest);
  }

  lemma NamedLine(before: string, rest: string) returns (r: Row)
    requires AllSpace(before)
    ensures RowShape(r) && RowText(r) == before + (ID_PREFIX + rest)
  {
    var left, after := TrimDecomposes(rest);
    r := Named(before, left, TrimSpace(rest), after);
  }

  lemma ListedLine(before: string, rest: string) returns (r: Row)
    requires AllSpace(before)
    ensures RowShape(r) && RowText(r) == before + (KEYS_PREFIX + rest)
  {
    var entries := EntriesOf(rest);
    r := Listed(before, entries);
  }

  lemma PlainRow(line: string) returns (r: Row)
    requires PlainLine(TrimSpace(line))
    ensures RowShape(r) && RowText(r) == line
  {
    var entries := EntriesOf(line);
    ListIsPlainIff(entries);
    r := Entries(entries);
  }

  lemma Reassembled(before: string, t: string, after: string, q: string)
    requires HasPrefix(t, q)
    ensures before + (q + (t[|q|..] + after)) == before + t + after
  {
  }

  lemma EveryLineIsARow(line: string) returns (r: Row)
    ensures RowShape(r) && RowText(r) == line
  {
    var before, after := TrimDecomposes(line);
    var t := TrimSpace(line);
    if PlainLine(t) {
      r := PlainRow(line);
    } else if t[0] == '#' {
      r := CommentLine(before, t[1..] + after);
      Reassembled(before, t, after, ['#']);
    } else if HasPrefix(t, ID_PREFIX) {
      r := NamedLine(before, t[|ID_PREFIX|..] + after);
      Reassembled(before, t, after, ID_PREFIX);
    } else {
      r := ListedLine(before, t[|KEYS_PREFIX|..] + after);
      Reassembled(before, t, after, KEYS_PREFIX);
    }
  }

  lemma FirstBreak(text: string) returns (n: nat)
    ensures n <= |text| && '\n' !in text[..n] && '\r' !in text[..n]
    ensures n < |text| ==> text[n] == '\n' || text[n] == '\r'
  {
    var u := Unified(text);
    n := Find(u, '\n');
    assert forall i :: 0 <= i < n ==> u[i] == u[..n][i] != '\n';
    assert forall i :: 0 <= i < n ==> text[i] != '\n' && text[i] != '\r' by {
      assert forall i :: 0 <= i < n ==> u[i] == if text[i] == '\r' then '\n' else text[i];
    }
  }

  lemma {:induction false} EveryTextIsLines(text: string) returns (lines: seq<string>, ends: seq<char>)
    ensures |lines| == |ends| + 1 && Breaks(ends) && Document(lines, ends) == text
    ensures forall i :: 0 <= i < |lines| ==> '\n' !in lines[i] && '\r' !in lines[i]
    decreases |text|
  {
    var n := FirstBreak(text);
    if n == |text| {
      assert text[..n] == text;
      lines, ends := [text], [];
    } else {
      var more, later := EveryTextIsLines(text[n + 1..]);
      lines, ends := [text[..n]] + more, [text[n]] + later;
      assert lines[1..] == more && ends[1..] == later;
      assert text == text[..n] + [text[n]] + text[n + 1..];
    }
  }

  lemma {:induction false} EveryLineHasARow(lines: seq<string>) returns (rows: seq<Row>)
    requires forall i :: 0 <= i < |lines| ==> '\n' !in lines[i] && '\r' !in lines[i]
    ensures RowsOk(rows) && RowTexts(rows) == lines
  {
    rows := [];
    if lines != [] {
      var n := |lines| - 1;
      var r := EveryLineIsARow(lines[n]);
      var more := EveryLineHasARow(lines[..n]);
      rows := more + [r];
      RowAdded(more, r);
    }
  }

  lemma RowAdded(rows: seq<Row>, r: Row)
    requires RowsOk(rows) && RowOk(r)
    ensures RowsOk(rows + [r]) && RowTexts(rows + [r]) == RowTexts(rows) + [RowText(r)]
  {
    var more := rows + [r];
    forall i | 0 <= i < |more|
      ensures RowOk(more[i])
    {
      if i < |rows| { assert more[i] == rows[i]; }
    }
  }

  /** Every text, with nothing left out, is one of those documents. */
  lemma EveryTextIsADocument(text: string) returns (rows: seq<Row>, ends: seq<char>)
    ensures |rows| == |ends| + 1 && RowsOk(rows) && Breaks(ends) && Document(RowTexts(rows), ends) == text
  {
    var lines;
    lines, ends := EveryTextIsLines(text);
    rows := EveryLineHasARow(lines);
  }

  // ----- entries that are all pairs -----

  function PairsOf(entries: seq<Entry>): seq<(string, string)> {
    if entries == [] then []
    else (if entries[0].Pair? then [(entries[0].id, entries[0].secret)] else []) + PairsOf(entries[1..])
  }

  /** The pairs of all lines, in the order they are written. */
  function AllPairs(rows: seq<Row>): seq<(string, string)> {
    if rows == [] then []
    else (if rows[0].Entries? || rows[0].Listed? then PairsOf(rows[0].entries) else []) + AllPairs(rows[1..])
  }

  predicate PairsOrGaps(entries: seq<Entry>) {
    forall i :: 0 <= i < |entries| ==> entries[i].Pair? || entries[i].Gap?
  }

  predicate OnlyPairs(rows: seq<Row>) {
    forall i :: 0 <= i < |rows| && (rows[i].Entries? || rows[i].Listed?) ==> PairsOrGaps(rows[i].entries)
  }

  /** The secret the last pair for an id gives it. */
  function LastFor(pairs: seq<(string, string)>, id: string): Option<string> {
    if pairs == [] then None
    else if pairs[|pairs| - 1].0 == id then Some(pairs[|pairs| - 1].1) else LastFor(pairs[..|pairs| - 1], id)
  }

  /** Exactly the ids of the pairs, each with its last secret. */
  ghost predicate Holds(secrets: map<string, string>, pairs: seq<(string, string)>) {
    forall id :: Look(secrets, id) == LastFor(pairs, id)
  }

  lemma LastForOne(pairs: seq<(string, string)>, id: string, secret: string, secrets: map<string, string>)
    requires Holds(secrets, pairs)
    ensures Holds(secrets[id := secret], pairs + [(id, secret)])
  {
    var longer, more := pairs + [(id, secret)], secrets[id := secret];
    assert longer[..|longer| - 1] == pairs;
    forall other
      ensures Look(more, other) == LastFor(longer, other)
    {
      assert Look(secrets, other) == LastFor(pairs, other);
    }
  }

  lemma {:induction false} ListHolds(entries: seq<Entry>, earlier: seq<(string, string)>, secrets: map<string, string>,
                                     defaultID: string)
    requires PairsOrGaps(entries) && Holds(secrets, earlier)
    ensures ListMeaning(entries, secrets, defaultID).Ok?
    ensures Holds(ListMeaning(entries, secrets, defaultID).value, earlier + PairsOf(entries))
  {
    if entries == [] {
      assert earlier + PairsOf(entries) == earlier;
    } else {
      var e := entries[0];
      var here := if e.Pair? then [(e.id, e.secret)] else [];
      assert earlier + PairsOf(entries) == (earlier + here) + PairsOf(entries[1..]);
      assert e.Pair? || (e.Gap? && earlier + here == earlier);
      var more := EntryMeaning(e, secrets, defaultID).value;
      if e.Pair? { LastForOne(earlier, e.id, e.secret, secrets); }
      ListHolds(entries[1..], earlier + here, more, defaultID);
    }
  }

  lemma {:induction false} RowsHold(rows: seq<Row>, earlier: seq<(string, string)>, secrets: map<string, string>,
                                    defaultID: string)
    requires OnlyPairs(rows) && Holds(secrets, earlier)
    ensures RowsMeaning(rows, secrets, defaultID).Ok?
    ensures Holds(RowsMeaning(rows, secrets, defaultID).value, earlier + AllPairs(rows))
  {
    if rows == [] {
      assert earlier + AllPairs(rows) == earlier;
    } else {
      var r := rows[0];
      var here := if r.Entries? || r.Listed? then PairsOf(r.entries) else [];
      assert earlier + AllPairs(rows) == (earlier + here) + AllPairs(rows[1..]);
      if r.Entries? || r.Listed? {
        ListHolds(r.entries, earlier, secrets, defaultID);
      } else {
        assert earlier + here == earlier;
      }
      var (more, id) := RowMeaning(r, secrets, defaultID).value;
      RowsHold(rows[1..], earlier + here, more, id);
    }
  }

  /** Pairs in any number, grouped into lines in any way, with or without the variable in front, among
      comments and blank lines: the form yields exactly the pairs, the last one for an id winning. */
  lemma PairsAreRestored(rows: seq<Row>, ends: seq<char>, defaultID: string)
    requires |rows| == |ends| + 1 && RowsOk(rows) && Breaks(ends) && OnlyPairs(rows) && AllPairs(rows) != []
    ensures var r := ParseFlexible(Document(RowTexts(rows), ends), defaultID);
            r.Ok? && forall id :: Look(r.value, id) == LastFor(AllPairs(rows), id)
  {
    var pairs := AllPairs(rows);
    DocumentsParse(rows, ends, defaultID);
    RowsHold(rows, [], map[], TrimSpace(defaultID));
    assert [] + pairs == pairs;
    var secrets := RowsMeaning(rows, map[], TrimSpace(defaultID)).value;
    var last := pairs[|pairs| - 1].0;
    assert Look(secrets, last) == LastFor(pairs, last);
  }

  // ----- the environment -----

  /** Nothing but pairs, no id twice. */
  ghost predicate Distinct(entries: seq<Entry>) {
    && (forall i :: 0 <= i < |entries| ==> entries[i].Pair?)
    && forall i, j :: 0 <= i < j < |entries| ==> entries[i].id != entries[j].id
  }

  ghost predicate Fits(entries: seq<Entry>, secrets: map<string, string>) {
    Distinct(entries) && forall i :: 0 <= i < |entries| ==> entries[i].id !in secrets
  }

  lemma FitsStep(entries: seq<Entry>, secrets: map<string, string>)
    requires entries != [] && entries[0].Pair?
    ensures Fits(entries, secrets)
            <==> entries[0].id !in secrets && Fits(entries[1..], secrets[entries[0].id := entries[0].secret])
  {
    var rest, more := entries[1..], secrets[entries[0].id := entries[0].secret];
    assert forall i :: 0 < i < |entries| ==> entries[i] == rest[i - 1];
    assert forall i :: 0 <= i < |rest| ==> rest[i] == entries[i + 1];
  }

  lemma EntryCollects(e: Entry)
    requires EntryOk(e) && !e.Pair?
    ensures var cut := Cut(TrimSpace(EntryText(e)), '=');
            cut.Some? ==> TrimSpace(cut.value.0) == "" || TrimSpace(cut.value.1) == ""
  {
    match e
    case Broken(_, _, _) => BrokenParses(e);
    case Bare(_, _, _) => BareParses(e);
    case Gap(space) => BlankIff(space);
  }

  lemma {:induction false} EntriesCollect(entries: seq<Entry>, secrets: map<string, string>)
    requires forall i :: 0 <= i < |entries| ==> EntryOk(entries[i])
    ensures CollectPairs(Texts(entries), secrets)
            == if Fits(entries, secrets) then ListMeaning(entries, secrets, "") else Err
  {
    if entries != [] {
      var e := entries[0];
      assert Texts(entries)[0] == EntryText(e) && Texts(entries)[1..] == Texts(entries[1..]);
      if e.Pair? {
        PairParses(e);
        FitsStep(entries, secrets);
        EntriesCollect(entries[1..], secrets[e.id := e.secret]);
      } else {
        EntryCollects(e);
      }
    }
  }

  lemma PairsAreNotBlank(entries: seq<Entry>)
    requires entries != [] && entries[0].Pair?
    ensures TrimSpace(ListText(entries)) != ""
  {
    var rest := JoinStarts(Texts(entries));
    var e, text := entries[0], ListText(entries);
    assert text == (e.before + (e.id + e.left)) + ['='] + (e.right + e.secret + e.after + rest);
    assert text[|e.before + (e.id + e.left)|] == '=' && '=' in text;
    BlankIff(text);
  }

  /** The environment's list is accepted exactly when it is nothing but pairs with distinct ids and the
      active id is one of them; the keyring then holds exactly those pairs. */
  lemma EnvironmentListParsesIff(activeID: string, entries: seq<Entry>)
    requires AllOk(entries)
    ensures var r := ParseKeyring(activeID, ListText(entries));
            && (r.Ok? <==> Distinct(entries) && exists i :: 0 <= i < |entries| && entries[i].id == TrimSpace(activeID))
            && (r.Ok? ==> r.value.activeID == TrimSpace(activeID))
            && (r.Ok? ==> forall id :: Look(r.value.keys, id) == LastFor(PairsOf(entries), id))
  {
    var list, active := ListText(entries), TrimSpace(activeID);
    ListSplits(entries);
    ListOnlyTrimmed(list);
    PairsOnlyTrimmed(Split(TrimSpace(list), ','), Texts(entries), map[]);
    EntriesCollect(entries, map[]);
    if Distinct(entries) {
      PairsAreNotBlank(entries);
      ListHolds(entries, [], map[], "");
      assert [] + PairsOf(entries) == PairsOf(entries);
      ActiveAmongPairs(entries, active, ListMeaning(entries, map[], "").value);
    }
  }

  lemma {:induction false} PairsAre(entries: seq<Entry>)
    requires forall i :: 0 <= i < |entries| ==> entries[i].Pair?
    ensures |PairsOf(entries)| == |entries|
    ensures forall i :: 0 <= i < |entries| ==> PairsOf(entries)[i] == (entries[i].id, entries[i].secret)
  {
    if entries != [] { PairsAre(entries[1..]); }
  }

  lemma {:induction false} LastForSome(pairs: seq<(string, string)>, id: string)
    ensures LastFor(pairs, id).Some? <==> exists i :: 0 <= i < |pairs| && pairs[i].0 == id
  {
    if pairs != [] {
      var n := |pairs| - 1;
      LastForSome(pairs[..n], id);
      if pairs[n].0 != id && LastFor(pairs[..n], id).Some? {
        var i :| 0 <= i < n && pairs[..n][i].0 == id;
        assert pairs[i].0 == id;
      }
    }
  }

  lemma ActiveAmongPairs(entries: seq<Entry>, id: string, secrets: map<string, string>)
    requires (forall i :: 0 <= i < |entries| ==> entries[i].Pair?) && Holds(secrets, PairsOf(entries))
    ensures id in secrets <==> exists i :: 0 <= i < |entries| && entries[i].id == id
  {
    var pairs := PairsOf(entries);
    PairsAre(entries);
    LastForSome(pairs, id);
    assert Look(secrets, id) == LastFor(pairs, id);
    if id in secrets {
      var i :| 0 <= i < |pairs| && pairs[i].0 == id;
      assert entries[i].id == id;
    }
    if i :| 0 <= i < |entries| && entries[i].id == id { assert pairs[i].0 == id; }
  }
}
