/** Which names find which rows: the spellings of a host name and of an interface name that the cache
    takes for the same. */
module CacheNames {
  import opened Basics
  import opened Text
  import opened Sorting
  import opened CacheStore

  // ----- host names -----

  /** A way to write a host: a label, perhaps with a dot and a domain after it, between spaces. */
  datatype Spelling = Spelling(before: string, host: string, domain: Option<string>, after: string)

  function Domain(sp: Spelling): string {
    if sp.domain.Some? then ['.'] + sp.domain.value else ""
  }

  function Written(sp: Spelling): string {
    sp.before + (sp.host + Domain(sp)) + sp.after
  }

  /** The label has no dot, and no space where it meets the surrounding space. */
  ghost predicate WellSpelled(sp: Spelling) {
    && AllSpace(sp.before) && AllSpace(sp.after) && '.' !in sp.host
    && (sp.host != "" ==> !IsSpace(sp.host[0]))
    && (sp.host != "" && sp.domain.None? ==> !IsSpace(sp.host[|sp.host| - 1]))
  }

  /** The normalised name is the label in lower case: whatever its case, the space around it, and
      the domain after it. */
  lemma NormalizedSpelling(sp: Spelling)
    requires WellSpelled(sp)
    ensures NormalizeSysName(Written(sp)) == Lower(sp.host)
    ensures var name := NormalizeSysName(Written(sp));
            && |name| == |sp.host|
            && forall i :: 0 <= i < |name| ==>
                 name[i] as int == sp.host[i] as int + (if 'A' <= sp.host[i] <= 'Z' then 32 else 0)
  {
    if sp.domain.None? {
      assert sp.host + Domain(sp) == sp.host;
      TrimOfPadded(sp.before, sp.host, sp.after);
      CutOfLabel(sp.host, "");
    } else {
      var rest := sp.domain.value + sp.after;
      assert Written(sp) == sp.before + (sp.host + ['.'] + rest);
      NormalizedWithDomain(sp.before, sp.host, rest);
    }
  }

  lemma NormalizedWithDomain(before: string, host: string, rest: string)
    requires AllSpace(before) && '.' !in host && (host == "" || !IsSpace(host[0]))
    ensures NormalizeSysName(before + (host + ['.'] + rest)) == Lower(host)
  {
    var kept, _ := TrimTail(before, host, '.', rest);
    assert host + ['.'] + kept == host + (['.'] + kept);
    CutOfLabel(host, ['.'] + kept);
  }

  lemma LowerOfJoin(a: string, b: string)
    ensures Lower(a + b) == Lower(a) + Lower(b)
  {
  }

  /** What is left when a trailing dot is dropped and the text is cut at the first dot. */
  lemma CutOfLabel(host: string, tail: string)
    requires '.' !in host && (tail == "" || tail[0] == '.')
    ensures var lower := Lower(host + tail);
            var bare := if lower != "" && lower[|lower| - 1] == '.' then lower[..|lower| - 1] else lower;
            bare[..Find(bare, '.')] == Lower(host)
  {
    LowerOfJoin(host, tail);
    var head, rest := Lower(host), Lower(tail);
    assert forall i :: 0 <= i < |host| ==> host[i] in host && head[i] != '.';
    assert tail != "" ==> rest[0] == '.';
    var lower := head + rest;
    var bare := if lower != "" && lower[|lower| - 1] == '.' then lower[..|lower| - 1] else lower;
    assert bare[..|head|] == head;
    assert '.' !in head;
    FindIs(bare, '.', |head|);
  }

  /** Every text is the spelling of some label. */
  lemma EveryNameIsSpelled(text: string) returns (sp: Spelling)
    ensures WellSpelled(sp) && Written(sp) == text
  {
    var before, after := TrimDecomposes(text);
    sp := SpelledCore(before, TrimSpace(text), after);
  }

  lemma SpelledCore(before: string, core: string, after: string) returns (sp: Spelling)
    requires AllSpace(before) && AllSpace(after) && Trimmed(core)
    ensures WellSpelled(sp) && Written(sp) == before + core + after
  {
    var n := Find(core, '.');
    var host := core[..n];
    assert '.' !in host;
    if n < |core| {
      sp := Spelling(before, host, Some(core[n + 1..]), after);
      assert core == host + (['.'] + core[n + 1..]) == host + Domain(sp);
    } else {
      sp := Spelling(before, core, None, after);
      assert host == core == core + Domain(sp);
    }
  }

  /** The two texts are spellings of one label, up to case, and the label is not empty. */
  ghost predicate SameHost(a: string, b: string) {
    exists x, y :: && WellSpelled(x) && Written(x) == a && WellSpelled(y) && Written(y) == b
                   && x.host != "" && SameButCase(x.host, y.host)
  }

  /** Two names are taken for the same exactly when they spell one label. */
  lemma SameHostIff(a: string, b: string)
    ensures SameHost(a, b) <==> NormalizeSysName(a) == NormalizeSysName(b) != ""
  {
    if SameHost(a, b) {
      var x, y :| && WellSpelled(x) && Written(x) == a && WellSpelled(y) && Written(y) == b
                  && x.host != "" && SameButCase(x.host, y.host);
      NormalizedSpelling(x);
      NormalizedSpelling(y);
      LowerEqualIff(x.host, y.host);
      assert |Lower(x.host)| == |x.host|;
    }
    if NormalizeSysName(a) == NormalizeSysName(b) != "" {
      var x := EveryNameIsSpelled(a);
      var y := EveryNameIsSpelled(b);
      NormalizedSpelling(x);
      NormalizedSpelling(y);
      LowerEqualIff(x.host, y.host);
      assert |Lower(x.host)| == |x.host|;
    }
  }

  // ----- interface names -----

  /** The same text up to surrounding space and case. */
  ghost predicate SameInterface(a: string, b: string) {
    exists before, x, after, left, y, right ::
      && AllSpace(before) && AllSpace(after) && AllSpace(left) && AllSpace(right) && Trimmed(x) && Trimmed(y)
      && a == before + x + after && b == left + y + right && SameButCase(x, y)
  }

  lemma SameInterfaceIff(a: string, b: string)
    ensures SameInterface(a, b) <==> NormalizeInterface(a) == NormalizeInterface(b)
  {
    if SameInterface(a, b) {
      var before, x, after, left, y, right :|
        && AllSpace(before) && AllSpace(after) && AllSpace(left) && AllSpace(right) && Trimmed(x) && Trimmed(y)
        && a == before + x + after && b == left + y + right && SameButCase(x, y);
      TrimOfPadded(before, x, after);
      TrimOfPadded(left, y, right);
      LowerEqualIff(x, y);
    }
    if NormalizeInterface(a) == NormalizeInterface(b) {
      var before, after := TrimDecomposes(a);
      var left, right := TrimDecomposes(b);
      LowerEqualIff(TrimSpace(a), TrimSpace(b));
      assert a == before + TrimSpace(a) + after && b == left + TrimSpace(b) + right;
    }
  }

  /** The link joins the two devices at interfaces of these names. */
  ghost predicate Joins(l: Link, source: Id, sourceIf: string, target: Id, targetIf: string) {
    && l.source == source && SameInterface(l.sourceIf, sourceIf)
    && l.target == target && SameInterface(l.targetIf, targetIf)
  }

  /** Two endpoint pairs are taken for the same exactly when both devices agree and both interface
      names agree up to surrounding space and case. */
  lemma SamePairIff(a: Link, source: Id, sourceIf: string, target: Id, targetIf: string)
    ensures EndpointKey(a) == Some(MakeEndpointPair(source, sourceIf, target, targetIf))
            <==> Joins(a, source, sourceIf, target, targetIf)
  {
    SameInterfaceIff(a.sourceIf, sourceIf);
    SameInterfaceIff(a.targetIf, targetIf);
  }

  // ----- list orders -----

  /** `a` comes before `b` as text: at the first difference its character is smaller, or it ends. */
  ghost predicate Precedes(a: string, b: string) {
    exists n :: 0 <= n <= |a| && n < |b| && a[..n] == b[..n] && (n == |a| || a[n] < b[n])
  }

  lemma {:induction false} BeforeIff(a: string, b: string)
    ensures Before(a, b) <==> Precedes(a, b)
  {
    if a != "" && b != "" && a[0] == b[0] {
      BeforeIff(a[1..], b[1..]);
      if Precedes(a[1..], b[1..]) {
        var n :| 0 <= n <= |a[1..]| && n < |b[1..]| && a[1..][..n] == b[1..][..n]
          && (n == |a[1..]| || a[1..][n] < b[1..][n]);
        assert a[..n + 1] == [a[0]] + a[1..][..n] && b[..n + 1] == [b[0]] + b[1..][..n];
      }
      if Precedes(a, b) {
        var n :| 0 <= n <= |a| && n < |b| && a[..n] == b[..n] && (n == |a| || a[n] < b[n]);
        assert n > 0 && a[1..][..n - 1] == a[..n][1..] && b[1..][..n - 1] == b[..n][1..];
      }
    } else if a == "" || b == "" || a[0] < b[0] {
      assert b != "" ==> a[..0] == b[..0];
    } else {
      assert forall n :: 0 < n <= |a| && n <= |b| ==> a[..n][0] == a[0] && b[..n][0] == b[0];
    }
  }

  /** Host names never go down, and where they are equal ids go up. */
  ghost predicate ByHostname(list: seq<Device>) {
    forall i, j :: 0 <= i < j < |list| ==>
      Precedes(list[i].hostname, list[j].hostname) || (list[i].hostname == list[j].hostname && list[i].id < list[j].id)
  }

  /** Creation times never go down, and where they are equal ids go up. */
  predicate ByCreation(list: seq<Link>) {
    forall i, j :: 0 <= i < j < |list| ==>
      list[i].createdAt < list[j].createdAt || (list[i].createdAt == list[j].createdAt && list[i].id < list[j].id)
  }

  lemma AscendingByHostname(list: seq<Device>)
    ensures Ascending(list, DeviceBefore) <==> ByHostname(list)
  {
    forall i, j | 0 <= i < j < |list|
      ensures DeviceBefore(list[i], list[j])
              <==> || Precedes(list[i].hostname, list[j].hostname)
                   || (list[i].hostname == list[j].hostname && list[i].id < list[j].id)
    {
      BeforeIff(list[i].hostname, list[j].hostname);
      BeforeIsAsymmetric(list[i].hostname, list[i].hostname);
    }
  }

  lemma AscendingByCreation(list: seq<Link>)
    ensures Ascending(list, LinkBefore) <==> ByCreation(list)
  {
  }
}
