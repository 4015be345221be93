/** Route patterns: segment matching with placeholders, first-match lookup, and the registry
    validator. */
module Routes {
  import opened Basics
  import opened Text

  // ----- segments -----

  function StripLeft(s: string): string {
    if s != "" && s[0] == '/' then StripLeft(s[1..]) else s
  }

  function StripRight(s: string): string {
    if s != "" && s[|s| - 1] == '/' then StripRight(s[..|s| - 1]) else s
  }

  /** `strings.Trim(path, "/")`. */
  function Strip(path: string): string {
    StripRight(StripLeft(path))
  }

  function Segments(path: string): seq<string> {
    if Strip(path) == "" then [] else Split(Strip(path), '/')
  }

  /** A segment like `{deviceID}`. */
  predicate IsPlaceholder(segment: string) {
    |segment| > 2 && segment[0] == '{' && segment[|segment| - 1] == '}'
  }

  predicate SegmentFits(segment: string, pattern: string) {
    if IsPlaceholder(pattern) then segment != "" else segment == pattern
  }

  predicate Covers(segments: seq<string>, patterns: seq<string>) {
    |segments| == |patterns| && forall i :: 0 <= i < |segments| ==> SegmentFits(segments[i], patterns[i])
  }

  predicate Matches(path: string, pattern: string) {
    Covers(Segments(path), Segments(pattern))
  }

  method MatchRoutePattern(path: string, pattern: string) returns (matched: bool)
    ensures matched == Matches(path, pattern)
  {
    var pathSegments, patternSegments := Segments(path), Segments(pattern);
    if |pathSegments| != |patternSegments| { return false; }
    for i := 0 to |patternSegments|
      invariant forall j :: 0 <= j < i ==> SegmentFits(pathSegments[j], patternSegments[j])
    {
      if IsPlaceholder(patternSegments[i]) {
        if pathSegments[i] == "" { return false; }
        continue;
      }
      if pathSegments[i] != patternSegments[i] { return false; }
    }
    return true;
  }

  // ----- lookup -----

  /** Route `i` is the one a path resolves to. */
  predicate ResolvesTo(patterns: seq<string>, path: string, i: nat) {
    i < |patterns| && Matches(path, patterns[i]) && forall j :: 0 <= j < i ==> !Matches(path, patterns[j])
  }

  method FirstMatch(patterns: seq<string>, path: string) returns (found: Option<nat>)
    ensures found.Some? ==> ResolvesTo(patterns, path, found.value)
    ensures found.None? ==> forall i :: 0 <= i < |patterns| ==> !Matches(path, patterns[i])
  {
    for i := 0 to |patterns|
      invariant forall j :: 0 <= j < i ==> !Matches(path, patterns[j])
    {
      var matched := MatchRoutePattern(path, patterns[i]);
      if matched { return Some(i); }
    }
    return None;
  }

  // ----- validation -----

  datatype Finding = Clean | Duplicate(at: nat) | NoPolicy(at: nat) | Shadowed(at: nat, earlier: nat)

  /** No pattern, read as a path, matches an earlier pattern. */
  ghost predicate Unshadowed(patterns: seq<string>) {
    forall i, j :: 0 <= j < i < |patterns| ==> !Matches(patterns[i], patterns[j])
  }

  ghost predicate FitsNone(path: string, patterns: seq<string>) {
    forall j :: 0 <= j < |patterns| ==> !Matches(path, patterns[j])
  }

  lemma OneMoreUnfit(path: string, patterns: seq<string>, p: string)
    requires FitsNone(path, patterns) && !Matches(path, p)
    ensures FitsNone(path, patterns + [p])
  {
  }

  lemma OneMoreUnshadowed(patterns: seq<string>, p: string)
    requires Unshadowed(patterns) && FitsNone(p, patterns)
    ensures Unshadowed(patterns + [p])
  {
  }

  lemma PatternsMatchThemselves(p: string)
    ensures Matches(p, p)
  {
  }

  lemma RepeatedIsShadowed(patterns: seq<string>, i: nat)
    requires i < |patterns| && patterns[i] in patterns[..i]
    ensures !Unshadowed(patterns)
  {
    var j :| 0 <= j < i && patterns[..i][j] == patterns[i];
    PatternsMatchThemselves(patterns[i]);
    assert Matches(patterns[i], patterns[j]);
  }

  /** Reports the first offence in table order; clean exactly when every entry has a policy and no
      pattern is shadowed. */
  method Validate(patterns: seq<string>, hasPolicy: seq<bool>) returns (finding: Finding)
    requires |patterns| == |hasPolicy|
    ensures finding.Clean? <==> (forall i :: 0 <= i < |patterns| ==> hasPolicy[i]) && Unshadowed(patterns)
    ensures !finding.Clean? ==>
              && finding.at < |patterns| && Unshadowed(patterns[..finding.at])
              && (forall i :: 0 <= i < finding.at ==> hasPolicy[i])
              && (finding.Duplicate? <==> patterns[finding.at] in patterns[..finding.at])
              && (finding.NoPolicy? ==> !hasPolicy[finding.at])
    ensures finding.Shadowed? ==>
              && finding.earlier < finding.at && hasPolicy[finding.at]
              && Matches(patterns[finding.at], patterns[finding.earlier])
              && FitsNone(patterns[finding.at], patterns[..finding.earlier])
  {
    var seen: set<string> := {};
    for i := 0 to |patterns|
      invariant seen == set p | p in patterns[..i]
      invariant forall k :: 0 <= k < i ==> hasPolicy[k]
      invariant Unshadowed(patterns[..i])
    {
      if patterns[i] in seen {
        RepeatedIsShadowed(patterns, i);
        return Duplicate(i);
      }
      seen := seen + {patterns[i]};
      assert patterns[..i + 1] == patterns[..i] + [patterns[i]];
      if !hasPolicy[i] { return NoPolicy(i); }
      for j := 0 to i
        invariant FitsNone(patterns[i], patterns[..j])
      {
        var matched := MatchRoutePattern(patterns[i], patterns[j]);
        if matched { return Shadowed(i, j); }
        OneMoreUnfit(patterns[i], patterns[..j], patterns[j]);
        assert patterns[..j + 1] == patterns[..j] + [patterns[j]];
      }
      OneMoreUnshadowed(patterns[..i], patterns[i]);
    }
    assert patterns[..|patterns|] == patterns;
    return Clean;
  }

  /** A shadowed pattern is unreachable: every path it matches also matches the earlier pattern. */
  lemma ShadowingIsTotal(earlier: string, later: string, path: string)
    requires Matches(later, earlier) && Matches(path, later)
    ensures Matches(path, earlier)
  {
    var e, l, p := Segments(earlier), Segments(later), Segments(path);
    forall i | 0 <= i < |p|
      ensures SegmentFits(p[i], e[i])
    {
      assert SegmentFits(l[i], e[i]) && SegmentFits(p[i], l[i]);
    }
  }

  // ----- a path for every unshadowed pattern -----

  lemma {:induction false} StripRightEnds(s: string)
    ensures StripRight(s) == "" || StripRight(s)[|StripRight(s)| - 1] != '/'
    ensures StripRight(s) <= s
  {
    if s != "" && s[|s| - 1] == '/' { StripRightEnds(s[..|s| - 1]); }
  }

  lemma {:induction false} StripLeftStarts(s: string)
    ensures StripLeft(s) == "" || StripLeft(s)[0] != '/'
    ensures |StripLeft(s)| <= |s|
  {
    if s != "" && s[0] == '/' { StripLeftStarts(s[1..]); }
  }

  /** Segment lists that a path can have. */
  ghost predicate Proper(segments: seq<string>) {
    && (forall i :: 0 <= i < |segments| ==> '/' !in segments[i])
    && (segments != [] ==> segments[0] != "" && segments[|segments| - 1] != "")
  }

  lemma {:induction false} LastPartIsNotEmpty(s: string, c: char)
    requires s != "" && s[|s| - 1] != c
    ensures var parts := Split(s, c); parts[|parts| - 1] != ""
    decreases |s|
  {
    var n := Find(s, c);
    if n < |s| { LastPartIsNotEmpty(s[n + 1..], c); }
  }

  lemma {:induction false} PartsAreShort(s: string, c: char)
    ensures forall i :: 0 <= i < |Split(s, c)| ==> |Split(s, c)[i]| <= |s|
    decreases |s|
  {
    var n := Find(s, c);
    if n < |s| { PartsAreShort(s[n + 1..], c); }
  }

  lemma SegmentsAreProper(path: string)
    ensures Proper(Segments(path))
    ensures forall i :: 0 <= i < |Segments(path)| ==> |Segments(path)[i]| <= |path|
  {
    var s := Strip(path);
    StripLeftStarts(path);
    StripRightEnds(StripLeft(path));
    if s != "" {
      SplitParts(s, '/');
      LastPartIsNotEmpty(s, '/');
      PartsAreShort(s, '/');
      assert s[0] != '/';
      assert Split(s, '/')[0] == s[..Find(s, '/')];
    }
  }

  function PathOf(segments: seq<string>): string {
    if segments == [] then "" else Join(segments, '/')
  }

  lemma {:induction false} JoinEnds(segments: seq<string>)
    requires segments != [] && segments[|segments| - 1] != "" && '/' !in segments[|segments| - 1]
    ensures var s := Join(segments, '/'); s != "" && s[|s| - 1] != '/'
  {
    if |segments| > 1 {
      JoinEnds(segments[1..]);
      assert Join(segments, '/') == segments[0] + ['/'] + Join(segments[1..], '/');
    } else {
      assert segments[0][|segments[0]| - 1] in segments[0];
    }
  }

  /** Every proper segment list is the segments of a path. */
  lemma SegmentsOfPath(segments: seq<string>)
    requires Proper(segments)
    ensures Segments(PathOf(segments)) == segments
  {
    if segments != [] {
      var s := Join(segments, '/');
      JoinEnds(segments);
      assert segments[0][0] in segments[0];
      assert s[0] == segments[0][0];
      assert StripLeft(s) == s && StripRight(s) == s;
      SplitJoin(segments, '/');
    }
  }

  function MaxLength(patterns: seq<string>): nat {
    if patterns == [] then 0
    else
      var rest, n := MaxLength(patterns[..|patterns| - 1]), |patterns[|patterns| - 1]|;
      if rest < n then n else rest
  }

  lemma {:induction false} MaxLengthBounds(patterns: seq<string>, i: nat)
    requires i < |patterns|
    ensures |patterns[i]| <= MaxLength(patterns)
  {
    if i < |patterns| - 1 { MaxLengthBounds(patterns[..|patterns| - 1], i); }
  }

  /** A segment longer than every pattern, so that no literal equals it. */
  function FreshSegment(patterns: seq<string>): string {
    seq(1 + MaxLength(patterns), _ => 'x')
  }

  function Instantiate(segments: seq<string>, filler: string): seq<string> {
    seq(|segments|, i requires 0 <= i < |segments| => if IsPlaceholder(segments[i]) then filler else segments[i])
  }

  /** The pattern with every placeholder replaced by the fresh segment. */
  function WitnessPath(patterns: seq<string>, i: nat): string
    requires i < |patterns|
  {
    PathOf(Instantiate(Segments(patterns[i]), FreshSegment(patterns)))
  }

  lemma SegmentsOfWitness(patterns: seq<string>, i: nat)
    requires i < |patterns|
    ensures Segments(WitnessPath(patterns, i)) == Instantiate(Segments(patterns[i]), FreshSegment(patterns))
  {
    SegmentsAreProper(patterns[i]);
    SegmentsOfPath(Instantiate(Segments(patterns[i]), FreshSegment(patterns)));
  }

  /** Whatever pattern matches the witness path also matches the pattern it was built from. */
  lemma WitnessIsGeneric(patterns: seq<string>, i: nat, j: nat)
    requires i < |patterns| && j < |patterns| && Matches(WitnessPath(patterns, i), patterns[j])
    ensures Matches(patterns[i], patterns[j])
  {
    var p, q, w := Segments(patterns[i]), Segments(patterns[j]), Segments(WitnessPath(patterns, i));
    SegmentsOfWitness(patterns, i);
    SegmentsAreProper(patterns[j]);
    MaxLengthBounds(patterns, j);
    forall k | 0 <= k < |p|
      ensures SegmentFits(p[k], q[k])
    {
      assert SegmentFits(w[k], q[k]);
    }
  }

  /** Some path resolves to route `i`. */
  ghost predicate Reachable(patterns: seq<string>, i: nat) {
    exists path :: ResolvesTo(patterns, path, i)
  }

  /** The shadow check is exact: a registry passes it exactly when every pattern is what some path
      resolves to. */
  lemma ShadowCheckIsExact(patterns: seq<string>)
    ensures Unshadowed(patterns) <==> forall i: nat :: i < |patterns| ==> Reachable(patterns, i)
  {
    if Unshadowed(patterns) {
      forall i: nat | i < |patterns|
        ensures Reachable(patterns, i)
      {
        WitnessResolves(patterns, i);
      }
    } else {
      var i: nat, j: nat :| j < i < |patterns| && Matches(patterns[i], patterns[j]);
      forall path
        ensures !ResolvesTo(patterns, path, i)
      {
        if Matches(path, patterns[i]) { ShadowingIsTotal(patterns[j], patterns[i], path); }
      }
      assert !Reachable(patterns, i);
    }
  }

  lemma WitnessResolves(patterns: seq<string>, i: nat)
    requires Unshadowed(patterns) && i < |patterns|
    ensures ResolvesTo(patterns, WitnessPath(patterns, i), i)
  {
    SegmentsOfWitness(patterns, i);
    forall j | 0 <= j < i
      ensures !Matches(WitnessPath(patterns, i), patterns[j])
    {
      if Matches(WitnessPath(patterns, i), patterns[j]) { WitnessIsGeneric(patterns, i, j); }
    }
  }

  // ----- matching, on texts -----

  ghost predicate AllSlashes(s: string) {
    forall c :: c in s ==> c == '/'
  }

  /** One segment of a pattern as it is written: a fixed text or a name in braces. */
  datatype Part = Fixed(text: string) | Hole(name: string)

  ghost predicate InBraces(text: string, name: string) {
    name != "" && text == "{" + name + "}"
  }

  ghost predicate PartOk(p: Part) {
    match p
    case Fixed(text) => '/' !in text && forall name :: !InBraces(text, name)
    case Hole(name) => '/' !in name && name != ""
  }

  function PartTexts(parts: seq<Part>): seq<string> {
    seq(|parts|, i requires 0 <= i < |parts| => match parts[i] case Fixed(t) => t case Hole(name) => "{" + name + "}")
  }

  /** A path or pattern with any slashes around it. */
  function Slashed(before: string, segments: seq<string>, after: string): string {
    before + PathOf(segments) + after
  }

  lemma {:induction false} StripLeftPad(pad: string, s: string)
    requires AllSlashes(pad) && (s == "" || s[0] != '/')
    ensures StripLeft(pad + s) == s
  {
    if pad == "" {
      assert pad + s == s;
    } else {
      assert pad[0] in pad && (pad + s)[1..] == pad[1..] + s;
      assert forall c :: c in pad[1..] ==> c in pad;
      StripLeftPad(pad[1..], s);
    }
  }

  lemma {:induction false} StripRightPad(s: string, pad: string)
    requires AllSlashes(pad) && (s == "" || s[|s| - 1] != '/')
    ensures StripRight(s + pad) == s
  {
    if pad == "" {
      assert s + pad == s;
    } else {
      var n := |pad| - 1;
      assert pad[n] in pad && (s + pad)[..|s| + n] == s + pad[..n];
      assert forall c :: c in pad[..n] ==> c in pad;
      StripRightPad(s, pad[..n]);
    }
  }

  lemma SlashesDoNotCount(before: string, segments: seq<string>, after: string)
    requires AllSlashes(before) && AllSlashes(after) && Proper(segments)
    ensures Segments(Slashed(before, segments, after)) == segments
  {
    var s := PathOf(segments);
    SegmentsOfPath(segments);
    if segments == [] {
      assert before + s + after == (before + after) + "";
      StripLeftPad(before + after, "");
    } else {
      JoinEnds(segments);
      assert segments[0][0] in segments[0] && s[0] == segments[0][0];
      assert before + s + after == before + (s + after);
      StripLeftPad(before, s + after);
      StripRightPad(s, after);
      StripLeftPad("", s);
      StripRightPad(s, "");
      assert "" + s == s == s + "";
    }
  }

  lemma {:induction false} SlashesInFront(s: string)
    ensures |StripLeft(s)| <= |s| && StripLeft(s) == s[|s| - |StripLeft(s)|..]
    ensures AllSlashes(s[..|s| - |StripLeft(s)|])
  {
    if s != "" && s[0] == '/' {
      SlashesInFront(s[1..]);
      var n := |s| - |StripLeft(s)|;
      assert s[..n] == [s[0]] + s[1..][..n - 1];
    }
  }

  lemma {:induction false} SlashesAtEnd(s: string)
    ensures StripRight(s) <= s && AllSlashes(s[|StripRight(s)|..])
  {
    if s != "" && s[|s| - 1] == '/' {
      var rest := s[..|s| - 1];
      SlashesAtEnd(rest);
      assert s[|StripRight(s)|..] == rest[|StripRight(rest)|..] + [s[|s| - 1]];
    }
  }

  /** Every text is its segments between slashes. */
  lemma EveryPathIsSlashed(path: string) returns (before: string, after: string)
    ensures AllSlashes(before) && AllSlashes(after) && Proper(Segments(path))
    ensures path == Slashed(before, Segments(path), after)
  {
    var left := StripLeft(path);
    SlashesInFront(path);
    SlashesAtEnd(left);
    SegmentsAreProper(path);
    before, after := path[..|path| - |left|], left[|StripRight(left)|..];
    if Strip(path) != "" { SplitParts(Strip(path), '/'); }
    assert path == before + Strip(path) + after;
  }

  lemma PlaceholderIff(p: Part)
    requires PartOk(p)
    ensures IsPlaceholder(PartTexts([p])[0]) <==> p.Hole?
  {
    var text := PartTexts([p])[0];
    if p.Fixed? && IsPlaceholder(text) {
      var name := text[1..|text| - 1];
      assert text == "{" + name + "}";
      assert InBraces(text, name);
    }
  }

  predicate Fits(segment: string, p: Part) {
    match p
    case Fixed(t) => segment == t
    case Hole(_) => segment != ""
  }

  lemma CoversIff(segments: seq<string>, parts: seq<Part>)
    requires forall i :: 0 <= i < |parts| ==> PartOk(parts[i])
    ensures Covers(segments, PartTexts(parts))
            <==> |segments| == |parts| && forall i :: 0 <= i < |parts| ==> Fits(segments[i], parts[i])
  {
    var texts := PartTexts(parts);
    forall i | 0 <= i < |parts|
      ensures IsPlaceholder(texts[i]) <==> parts[i].Hole?
      ensures parts[i].Fixed? ==> texts[i] == parts[i].text
    {
      PlaceholderIff(parts[i]);
      assert PartTexts([parts[i]])[0] == texts[i];
    }
    if |segments| == |parts| {
      forall i | 0 <= i < |parts| ensures SegmentFits(segments[i], texts[i]) <==> Fits(segments[i], parts[i]) { }
    }
  }

  /** A path fits a pattern exactly when, slashes around them aside, it has the same number of
      segments, the same text where the pattern has a fixed one, and any text but the empty one
      where the pattern has a name in braces. */
  lemma MatchesIff(segments: seq<string>, before: string, after: string, parts: seq<Part>, left: string, right: string)
    requires AllSlashes(before) && AllSlashes(after) && AllSlashes(left) && AllSlashes(right)
    requires Proper(segments) && Proper(PartTexts(parts)) && forall i :: 0 <= i < |parts| ==> PartOk(parts[i])
    ensures Matches(Slashed(before, segments, after), Slashed(left, PartTexts(parts), right))
            <==> |segments| == |parts| && forall i :: 0 <= i < |parts| ==> Fits(segments[i], parts[i])
  {
    SlashesDoNotCount(before, segments, after);
    SlashesDoNotCount(left, PartTexts(parts), right);
    CoversIff(segments, parts);
  }
}
