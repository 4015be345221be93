/** The string operations the components share, as Go's `strings` package defines them on valid
    UTF-8 text. Strings are sequences of Unicode scalar values. */
module Text {
  import opened Basics

  /** Unicode White_Space, the class `strings.TrimSpace` removes. */
  predicate IsSpace(c: char) {
    c in {'\t', '\n', '\U{0B}', '\U{0C}', '\r', ' ', '\U{85}', '\U{A0}', '\U{1680}', '\U{2028}', '\U{2029}',
      '\U{202F}', '\U{205F}', '\U{3000}'} || '\U{2000}' <= c <= '\U{200A}'
  }

  function TrimLeft(s: string): string {
    if s != "" && IsSpace(s[0]) then TrimLeft(s[1..]) else s
  }

  function TrimRight(s: string): string {
    if s != "" && IsSpace(s[|s| - 1]) then TrimRight(s[..|s| - 1]) else s
  }

  function TrimSpace(s: string): string {
    TrimRight(TrimLeft(s))
  }

  predicate Trimmed(s: string) {
    s == "" || (!IsSpace(s[0]) && !IsSpace(s[|s| - 1]))
  }

  lemma TrimmedIsFixed(s: string)
    requires Trimmed(s)
    ensures TrimSpace(s) == s
  {
  }

  lemma {:induction false} TrimRightShape(s: string)
    ensures TrimRight(s) <= s
    ensures TrimRight(s) == "" || !IsSpace(TrimRight(s)[|TrimRight(s)| - 1])
  {
    if s != "" && IsSpace(s[|s| - 1]) { TrimRightShape(s[..|s| - 1]); }
  }

  lemma {:induction false} TrimLeftShape(s: string)
    ensures TrimLeft(s) == "" || !IsSpace(TrimLeft(s)[0])
    ensures forall c :: c in TrimLeft(s) ==> c in s
  {
    if s != "" && IsSpace(s[0]) { TrimLeftShape(s[1..]); }
  }

  lemma {:induction false} TrimLeftIsASuffix(s: string)
    ensures |TrimLeft(s)| <= |s| && TrimLeft(s) == s[|s| - |TrimLeft(s)|..]
  {
    if s != "" && IsSpace(s[0]) { TrimLeftIsASuffix(s[1..]); }
  }

  lemma TrimIsWithin(s: string)
    ensures |TrimSpace(s)| <= |TrimLeft(s)| <= |s|
  {
    TrimLeftIsASuffix(s);
    TrimRightShape(TrimLeft(s));
  }

  lemma TrimSpaceTrims(s: string)
    ensures Trimmed(TrimSpace(s))
    ensures forall c :: c in TrimSpace(s) ==> c in s
  {
    TrimLeftShape(s);
    TrimRightShape(TrimLeft(s));
  }

  ghost predicate AllSpace(s: string) {
    forall c :: c in s ==> IsSpace(c)
  }

  /** The characters with the Unicode property White_Space, by code point. */
  lemma SpacesAre(c: char)
    ensures IsSpace(c)
            <==> var n := c as int;
                 || 0x09 <= n <= 0x0D || n == 0x20 || n == 0x85 || n == 0xA0 || n == 0x1680 || 0x2000 <= n <= 0x200A
                 || n == 0x2028 || n == 0x2029 || n == 0x202F || n == 0x205F || n == 0x3000
  {
  }

  lemma {:induction false} TrimLeftPad(pad: string, s: string)
    requires AllSpace(pad)
    ensures TrimLeft(pad + s) == TrimLeft(s)
  {
    if pad == "" {
      assert pad + s == s;
    } else {
      assert pad[0] in pad && (pad + s)[1..] == pad[1..] + s;
      TrimLeftPad(pad[1..], s);
    }
  }

  lemma {:induction false} TrimRightPad(s: string, pad: string)
    requires AllSpace(pad)
    ensures TrimRight(s + pad) == TrimRight(s)
  {
    if pad == "" {
      assert s + pad == s;
    } else {
      var n := |pad| - 1;
      assert pad[n] in pad && (s + pad)[..|s| + n] == s + pad[..n];
      TrimRightPad(s, pad[..n]);
    }
  }

  /** What is removed is space, at the ends and nowhere else. */
  lemma TrimOfPadded(before: string, s: string, after: string)
    requires AllSpace(before) && AllSpace(after) && Trimmed(s)
    ensures TrimSpace(before + s + after) == s
  {
    assert before + s + after == before + (s + after);
    TrimLeftPad(before, s + after);
    TrimRightPad(s, after);
    if s == "" {
      assert s + after == after + "" == after;
      TrimLeftPad(after, "");
    } else {
      assert (s + after)[0] == s[0];
    }
  }

  lemma {:induction false} TrimRightKeeps(s: string, c: char, rest: string)
    requires !IsSpace(c)
    ensures s + [c] <= TrimRight(s + [c] + rest)
    decreases |rest|
  {
    var whole := s + [c] + rest;
    if rest == "" {
      assert whole[|whole| - 1] == c;
    } else if IsSpace(rest[|rest| - 1]) {
      assert whole[..|whole| - 1] == s + [c] + rest[..|rest| - 1];
      TrimRightKeeps(s, c, rest[..|rest| - 1]);
    }
  }

  lemma {:induction false} TrimRightTail(s: string, c: char, rest: string) returns (kept: string, gone: string)
    requires !IsSpace(c)
    ensures TrimRight(s + [c] + rest) == s + [c] + kept && rest == kept + gone && AllSpace(gone)
    decreases |rest|
  {
    var whole, n := s + [c] + rest, |rest| - 1;
    kept, gone := rest, "";
    if rest == "" {
      assert whole[|whole| - 1] == c;
    } else if IsSpace(rest[n]) {
      kept, gone := TrimRightTail(s, c, rest[..n]);
      gone := gone + [rest[n]];
      assert whole[..|whole| - 1] == s + [c] + rest[..n];
    }
  }

  /** Up to something that is no space everything is kept. */
  lemma TrimTail(before: string, s: string, c: char, rest: string) returns (kept: string, gone: string)
    requires AllSpace(before) && !IsSpace(c) && (s == "" || !IsSpace(s[0]))
    ensures TrimSpace(before + (s + [c] + rest)) == s + [c] + kept && rest == kept + gone && AllSpace(gone)
  {
    var whole := s + [c] + rest;
    TrimLeftPad(before, whole);
    assert TrimLeft(whole) == whole by { assert whole[0] == if s == "" then c else s[0]; }
    kept, gone := TrimRightTail(s, c, rest);
  }

  /** Space around a text makes no difference to what trimming leaves. */
  lemma TrimIgnoresPad(before: string, s: string, after: string)
    requires AllSpace(before) && AllSpace(after)
    ensures TrimSpace(before + s + after) == TrimSpace(s)
  {
    var left, right := TrimDecomposes(s);
    assert before + s + after == (before + left) + TrimSpace(s) + (right + after);
    TrimOfPadded(before + left, TrimSpace(s), right + after);
  }

  lemma BlankIff(s: string)
    ensures TrimSpace(s) == "" <==> AllSpace(s)
  {
    var left, right := TrimDecomposes(s);
    if AllSpace(s) { TrimOfPadded(s, "", ""); assert s + "" + "" == s; }
  }

  lemma {:induction false} SpaceBefore(s: string)
    ensures |TrimLeft(s)| <= |s| && AllSpace(s[..|s| - |TrimLeft(s)|])
  {
    TrimLeftIsASuffix(s);
    if s != "" && IsSpace(s[0]) {
      TrimLeftIsASuffix(s[1..]);
      SpaceBefore(s[1..]);
      var n := |s| - |TrimLeft(s)|;
      assert s[..n] == [s[0]] + s[1..][..n - 1];
    }
  }

  lemma {:induction false} SpaceAfter(s: string)
    ensures TrimRight(s) <= s && AllSpace(s[|TrimRight(s)|..])
  {
    TrimRightShape(s);
    if s != "" && IsSpace(s[|s| - 1]) {
      var rest := s[..|s| - 1];
      SpaceAfter(rest);
      assert s[|TrimRight(s)|..] == rest[|TrimRight(rest)|..] + [s[|s| - 1]];
    }
  }

  /** Every text is its trimmed middle between spaces. */
  lemma TrimDecomposes(s: string) returns (before: string, after: string)
    ensures AllSpace(before) && AllSpace(after) && s == before + TrimSpace(s) + after && Trimmed(TrimSpace(s))
  {
    var left := TrimLeft(s);
    TrimLeftIsASuffix(s);
    SpaceBefore(s);
    SpaceAfter(left);
    TrimSpaceTrims(s);
    before, after := s[..|s| - |left|], left[|TrimRight(left)|..];
    assert left == TrimSpace(s) + after;
  }

  predicate HasPrefix(s: string, p: string) {
    p <= s
  }

  /** Lower case of the ASCII letters; other characters are kept. */
  function Lower(s: string): string {
    seq(|s|, i requires 0 <= i < |s| => if 'A' <= s[i] <= 'Z' then ((s[i] as int) + 32) as char else s[i])
  }

  predicate SameLetter(a: char, b: char) {
    || a == b
    || ('A' <= a <= 'Z' && b as int == a as int + 32)
    || ('A' <= b <= 'Z' && a as int == b as int + 32)
  }

  /** The same text up to the case of ASCII letters. */
  predicate SameButCase(a: string, b: string) {
    |a| == |b| && forall i :: 0 <= i < |a| ==> SameLetter(a[i], b[i])
  }

  lemma LowerEqualIff(a: string, b: string)
    ensures Lower(a) == Lower(b) <==> SameButCase(a, b)
  {
    if Lower(a) == Lower(b) {
      assert |a| == |Lower(a)| == |b|;
      forall i | 0 <= i < |a| ensures SameLetter(a[i], b[i]) { assert Lower(a)[i] == Lower(b)[i]; }
    }
  }

  /** Position of the first `c`, or `|s|`. The element type is left open for text that is not all
      valid UTF-8. */
  function Find<T(==)>(s: seq<T>, c: T): (n: nat)
    ensures n <= |s| && c !in s[..n] && (n < |s| ==> s[n] == c)
  {
    if s == [] || s[0] == c then 0 else
      var n := 1 + Find(s[1..], c);
      assert s[..n] == [s[0]] + s[1..][..n - 1];
      n
  }

  /** `strings.Cut` at a single character. */
  function Cut(s: string, c: char): Option<(string, string)> {
    var n := Find(s, c);
    if n < |s| then Some((s[..n], s[n + 1..])) else None
  }

  lemma FindIs<T>(s: seq<T>, c: T, n: nat)
    requires n <= |s| && c !in s[..n] && (n < |s| ==> s[n] == c)
    ensures Find(s, c) == n
  {
    var m := Find(s, c);
    assert forall i :: 0 <= i < n ==> s[i] == s[..n][i] != c;
    assert forall i :: 0 <= i < m ==> s[i] == s[..m][i] != c;
  }

  lemma CutOf(a: string, c: char, b: string)
    requires c !in a
    ensures Cut(a + [c] + b, c) == Some((a, b))
  {
    var s := a + [c] + b;
    assert s[..|a|] == a && s[|a| + 1..] == b;
    FindIs(s, c, |a|);
  }

  /** `strings.Split` at a single character: never empty. */
  function Split<T(==)>(s: seq<T>, c: T): (parts: seq<seq<T>>)
    ensures |parts| > 0
    decreases |s|
  {
    var n := Find(s, c);
    if n == |s| then [s] else [s[..n]] + Split(s[n + 1..], c)
  }

  function Join<T>(parts: seq<seq<T>>, c: T): seq<T>
    requires |parts| > 0
  {
    if |parts| == 1 then parts[0] else parts[0] + [c] + Join(parts[1..], c)
  }

  lemma SplitParts<T>(s: seq<T>, c: T)
    ensures forall p :: p in Split(s, c) ==> c !in p
    ensures Join(Split(s, c), c) == s
  {
    PartsLack(s, c);
    JoinOfSplit(s, c);
  }

  lemma {:induction false} PartsLack<T>(s: seq<T>, c: T)
    ensures forall p :: p in Split(s, c) ==> c !in p
    decreases |s|
  {
    var n := Find(s, c);
    if n < |s| { PartsLack(s[n + 1..], c); }
  }

  lemma {:induction false} JoinOfSplit<T>(s: seq<T>, c: T)
    ensures Join(Split(s, c), c) == s
    decreases |s|
  {
    var n := Find(s, c);
    if n < |s| {
      var rest := Split(s[n + 1..], c);
      JoinOfSplit(s[n + 1..], c);
      assert Split(s, c) == [s[..n]] + rest;
      assert ([s[..n]] + rest)[1..] == rest;
      assert s == s[..n] + [c] + s[n + 1..];
    }
  }

  lemma SplitCons<T>(a: seq<T>, c: T, rest: seq<T>)
    requires c !in a
    ensures Split(a + [c] + rest, c) == [a] + Split(rest, c)
  {
    var s := a + [c] + rest;
    assert s[..|a|] == a && s[|a| + 1..] == rest;
    FindIs(s, c, |a|);
  }

  lemma SplitNone<T>(a: seq<T>, c: T)
    requires c !in a
    ensures Split(a, c) == [a]
  {
    FindIs(a, c, |a|);
  }

  /** What precedes a text, without the separator, belongs to its first part. */
  lemma SplitFront<T>(before: seq<T>, s: seq<T>, c: T)
    requires c !in before
    ensures Split(before + s, c) == [before + Split(s, c)[0]] + Split(s, c)[1..]
  {
    var n := Find(s, c);
    if n < |s| {
      assert before + s == (before + s[..n]) + [c] + s[n + 1..];
      SplitCons(before + s[..n], c, s[n + 1..]);
    } else {
      SplitNone(before + s, c);
    }
  }

  /** What follows it belongs to its last part. */
  lemma {:induction false} SplitBack<T>(s: seq<T>, after: seq<T>, c: T)
    requires c !in after
    ensures var p, n := Split(s, c), |Split(s, c)| - 1; Split(s + after, c) == p[..n] + [p[n] + after]
    decreases |s|
  {
    var n := Find(s, c);
    if n < |s| {
      var rest := s[n + 1..];
      assert s + after == s[..n] + [c] + (rest + after);
      SplitCons(s[..n], c, rest + after);
      SplitBack(rest, after, c);
      var q, m := Split(rest, c), |Split(rest, c)| - 1;
      assert Split(s, c) == [s[..n]] + q;
      assert ([s[..n]] + q)[..m + 1] == [s[..n]] + q[..m];
    } else {
      SplitNone(s + after, c);
    }
  }

  lemma {:induction false} SplitJoin<T>(parts: seq<seq<T>>, c: T)
    requires |parts| > 0 && forall p :: p in parts ==> c !in p
    ensures Split(Join(parts, c), c) == parts
  {
    if |parts| == 1 {
      SplitNone(parts[0], c);
    } else {
      SplitJoin(parts[1..], c);
      SplitCons(parts[0], c, Join(parts[1..], c));
    }
  }

  /** Lexicographic order by code point, which is also the byte order of UTF-8. */
  predicate Before(a: string, b: string) {
    b != "" && (a == "" || a[0] < b[0] || (a[0] == b[0] && Before(a[1..], b[1..])))
  }

  lemma {:induction false} BeforeIsAsymmetric(a: string, b: string)
    ensures !(Before(a, b) && Before(b, a))
  {
    if a != "" && b != "" { BeforeIsAsymmetric(a[1..], b[1..]); }
  }

  lemma {:induction false} BeforeIsTransitive(a: string, b: string, c: string)
    requires Before(a, b) && Before(b, c)
    ensures Before(a, c)
  {
    if a != "" && a[0] == b[0] && b[0] == c[0] { BeforeIsTransitive(a[1..], b[1..], c[1..]); }
  }

  lemma {:induction false} BeforeIsTotal(a: string, b: string)
    ensures a == b || Before(a, b) || Before(b, a)
  {
    if a != "" && b != "" && a[0] == b[0] {
      BeforeIsTotal(a[1..], b[1..]);
      assert a == [a[0]] + a[1..] && b == [b[0]] + b[1..];
    }
  }
}
