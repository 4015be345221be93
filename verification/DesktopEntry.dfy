/** The `Exec` line of the Linux autostart file (Desktop Entry Specification, "The Exec key"):
    writing a program path and reading it back. A path is any bytes, so text is a sequence of
    characters and of stray bytes that belong to none. */
module DesktopEntry {
  import opened Basics
  import Text

  /** What Go decodes from a string at one position: a character, or a byte that starts none. */
  datatype Unit = Rune(c: char) | Stray(b: bv8)

  /** A program path, a line or a whole file. */
  type Units = seq<Unit>

  function Runes(s: string): Units {
    seq(|s|, i requires 0 <= i < |s| => Rune(s[i]))
  }

  /** The character that ranging over a string yields: U+FFFD for a stray byte. */
  function Shown(u: Unit): char {
    match u
    case Rune(c) => c
    case Stray(_) => '\U{FFFD}'
  }

  function ShownAll(s: Units): string {
    seq(|s|, i requires 0 <= i < |s| => Shown(s[i]))
  }

  ghost predicate AllRunes(s: Units) {
    forall u :: u in s ==> u.Rune?
  }

  /** The text with every stray byte replaced by U+FFFD. */
  function Rewritten(s: Units): Units {
    Runes(ShownAll(s))
  }

  /** `strings.TrimSpace`: a stray byte is no space, just as U+FFFD is none. */
  function TrimSpace(s: Units): Units {
    var start := |s| - |Text.TrimLeft(ShownAll(s))|;
    Text.TrimIsWithin(ShownAll(s));
    s[start..start + |Text.TrimSpace(ShownAll(s))|]
  }

  lemma TrimSpaceIsShown(s: Units)
    ensures ShownAll(TrimSpace(s)) == Text.TrimSpace(ShownAll(s)) && forall u :: u in TrimSpace(s) ==> u in s
  {
    var shown := ShownAll(s);
    var left := Text.TrimLeft(shown);
    var start, n := |s| - |left|, |Text.TrimSpace(shown)|;
    Text.TrimIsWithin(shown);
    Text.TrimLeftIsASuffix(shown);
    Text.TrimRightShape(left);
    assert Text.TrimSpace(shown) == left[..n] == shown[start..start + n];
    assert ShownAll(s[start..start + n]) == shown[start..start + n];
  }

  predicate IsSpace(u: Unit) {
    Text.IsSpace(Shown(u))
  }

  lemma TrimmedIsFixed(s: Units)
    requires s == [] || (!IsSpace(s[0]) && !IsSpace(s[|s| - 1]))
    ensures TrimSpace(s) == s
  {
    Text.TrimmedIsFixed(ShownAll(s));
  }

  // ----- writing -----

  function EscapeUnit(u: Unit): Units {
    match u
    case Rune('\\') => Runes("\\\\")
    case Rune('\"') => Runes("\\\"")
    case Rune('`') => Runes("\\`")
    case Rune('$') => Runes("\\$")
    case Rune('%') => Runes("%%")
    case _ => [u]
  }

  /** One replacement pass; what is inserted is not looked at again. Only ASCII is inserted, so the
      bytes around it still decode as before. */
  function Escape(s: Units): Units {
    if s == [] then [] else EscapeUnit(s[0]) + Escape(s[1..])
  }

  const QUOTE := Rune('\"')
  const BACKSLASH := Rune('\\')
  const PERCENT := Rune('%')
  const NEWLINE := Rune('\n')

  function ExecValue(exe: Units): Units {
    [QUOTE] + Escape(exe) + [QUOTE]
  }

  /** Lines, each with a line break after it. */
  function Terminated(lines: seq<Units>): Units {
    if lines == [] then [] else lines[0] + [NEWLINE] + Terminated(lines[1..])
  }

  function FileContents(exe: Units): Units {
    Terminated([Runes("[Desktop Entry]"), Runes("Type=Application"), Runes("Name=Theia WinBox Bridge"),
                Runes("Exec=") + ExecValue(exe), Runes("X-GNOME-Autostart-enabled=true")])
  }

  // ----- reading -----

  /** The quoted form: up to the first unescaped quote, with backslashes removed. Each character is
      written as it was shown. */
  function Unquote(s: Units, escaped: bool): Units {
    if s == [] then []
    else if escaped then [Rune(Shown(s[0]))] + Unquote(s[1..], false)
    else if s[0] == BACKSLASH then Unquote(s[1..], true)
    else if s[0] == QUOTE then []
    else [Rune(Shown(s[0]))] + Unquote(s[1..], false)
  }

  /** The first field of text that starts with a character that is not a space. */
  function FirstField(s: Units): Units {
    if s == [] || IsSpace(s[0]) then [] else [s[0]] + FirstField(s[1..])
  }

  function CommandPath(value: Units): Units {
    var v := TrimSpace(value);
    if v == [] then [] else if v[0] != QUOTE then FirstField(v) else Unquote(v[1..], false)
  }

  /** `strings.ReplaceAll` of a doubled percent sign. */
  function HalvePercents(s: Units): Units {
    if s == [] then []
    else if |s| >= 2 && s[0] == PERCENT && s[1] == PERCENT then [PERCENT] + HalvePercents(s[2..])
    else [s[0]] + HalvePercents(s[1..])
  }

  function ExecTarget(value: Units): Units {
    HalvePercents(CommandPath(value))
  }

  method AutostartCommandPath(value: Units) returns (path: Units)
    ensures path == CommandPath(value)
  {
    var v := TrimSpace(value);
    if v == [] { return []; }
    if v[0] != QUOTE { return FirstField(v); }
    path := ScanQuoted(v[1..]);
  }

  /** One unit of the scanner's input. */
  lemma UnquoteStep(rest: Units, i: nat, escaped: bool, path: Units)
    requires i < |rest|
    ensures var c := Shown(rest[i]);
            path + Unquote(rest[i..], escaped)
            == if escaped || (c != '\\' && c != '\"') then (path + [Rune(c)]) + Unquote(rest[i + 1..], false)
               else if c == '\\' then path + Unquote(rest[i + 1..], true) else path
  {
    assert rest[i..][0] == rest[i] && rest[i..][1..] == rest[i + 1..];
    assert path + [] == path;
  }

  /** The scanner with its escape flag and output buffer. */
  method ScanQuoted(rest: Units) returns (path: Units)
    ensures path == Unquote(rest, false)
  {
    var escaped := false;
    path := [];
    var i := 0;
    while i < |rest|
      invariant 0 <= i <= |rest|
      invariant path + Unquote(rest[i..], escaped) == Unquote(rest, false)
    {
      var c := Shown(rest[i]);
      UnquoteStep(rest, i, escaped, path);
      i := i + 1;
      if escaped {
        path := path + [Rune(c)];
        escaped := false;
      } else if c == '\\' {
        escaped := true;
      } else if c == '\"' {
        return;
      } else {
        path := path + [Rune(c)];
      }
    }
    assert path + [] == path;
  }

  /** The target of the first `Exec` line, or nothing. */
  function FirstExec(lines: seq<Units>): Units {
    if lines == [] then []
    else if Runes("Exec=") <= TrimSpace(lines[0]) then ExecTarget(TrimSpace(lines[0])[5..])
    else FirstExec(lines[1..])
  }

  method LinuxAutostartTarget(contents: Units) returns (target: Units)
    ensures target == FirstExec(Text.Split(contents, NEWLINE))
  {
    var lines := Text.Split(contents, NEWLINE);
    for i := 0 to |lines|
      invariant FirstExec(lines[i..]) == FirstExec(lines)
    {
      var line := TrimSpace(lines[i]);
      assert lines[i..][1..] == lines[i + 1..];
      if Runes("Exec=") <= line {
        var path := AutostartCommandPath(line[5..]);
        return HalvePercents(path);
      }
    }
    return [];
  }

  // ----- round trips -----

  function DoubledUnit(u: Unit): Units {
    if u == PERCENT then [PERCENT, PERCENT] else [Rune(Shown(u))]
  }

  function DoublePercents(s: Units): Units {
    if s == [] then [] else DoubledUnit(s[0]) + DoublePercents(s[1..])
  }

  lemma UnquoteOneUnit(u: Unit, rest: Units)
    ensures Unquote(EscapeUnit(u) + rest, false) == DoubledUnit(u) + Unquote(rest, false)
  {
    if u == PERCENT {
      UnquotePlain(PERCENT, [PERCENT] + rest);
      UnquotePlain(PERCENT, rest);
      assert EscapeUnit(u) + rest == [PERCENT] + ([PERCENT] + rest);
    } else if |EscapeUnit(u)| == 1 {
      assert EscapeUnit(u) == [u];
      UnquotePlain(u, rest);
    } else {
      assert EscapeUnit(u) == [BACKSLASH, u];
      UnquoteEscaped(u, rest);
    }
  }

  lemma UnquotePlain(u: Unit, rest: Units)
    requires u != BACKSLASH && u != QUOTE
    ensures Unquote([u] + rest, false) == [Rune(Shown(u))] + Unquote(rest, false)
  {
    assert ([u] + rest)[1..] == rest;
  }

  lemma UnquoteEscaped(u: Unit, rest: Units)
    ensures Unquote([BACKSLASH, u] + rest, false) == [Rune(Shown(u))] + Unquote(rest, false)
  {
    var whole := [BACKSLASH, u] + rest;
    assert whole[1..][1..] == rest;
    assert Unquote(whole[1..], true) == [Rune(Shown(u))] + Unquote(rest, false);
  }

  lemma {:induction false} UnquoteUndoesEscape(s: Units, rest: Units)
    ensures Unquote(Escape(s) + [QUOTE] + rest, false) == DoublePercents(s)
  {
    if s == [] {
      assert (Escape(s) + [QUOTE] + rest)[0] == QUOTE;
    } else {
      UnquoteUndoesEscape(s[1..], rest);
      UnquoteOneUnit(s[0], Escape(s[1..]) + [QUOTE] + rest);
      assert Escape(s) + [QUOTE] + rest == EscapeUnit(s[0]) + (Escape(s[1..]) + [QUOTE] + rest);
    }
  }

  lemma {:induction false} HalveUndoesDouble(s: Units)
    ensures HalvePercents(DoublePercents(s)) == Rewritten(s)
  {
    if s != [] {
      HalveUndoesDouble(s[1..]);
      var d := DoublePercents(s);
      if s[0] == PERCENT {
        assert d[2..] == DoublePercents(s[1..]);
      } else {
        assert d[1..] == DoublePercents(s[1..]);
      }
      assert Rewritten(s) == [Rune(Shown(s[0]))] + Rewritten(s[1..]);
    }
  }

  lemma RewrittenIff(s: Units)
    ensures Rewritten(s) == s <==> AllRunes(s)
  {
    if Rewritten(s) == s {
      forall u | u in s ensures u.Rune? {
        var i :| 0 <= i < |s| && s[i] == u;
        assert Rewritten(s)[i] == s[i];
      }
    } else if AllRunes(s) {
      assert forall i :: 0 <= i < |s| ==> s[i] in s && Rewritten(s)[i] == s[i];
    }
  }

  lemma ShownOf(a: Units, b: Units)
    ensures ShownAll(a + b) == ShownAll(a) + ShownAll(b)
  {
  }

  ghost predicate AllSpace(s: Units) {
    forall u :: u in s ==> IsSpace(u)
  }

  lemma TrimAfterSpace(before: Units, value: Units)
    requires AllSpace(before) && value != [] && !IsSpace(value[0])
    ensures var m := |Text.TrimRight(ShownAll(value))|; m <= |value| && TrimSpace(before + value) == value[..m]
  {
    var shown, whole := ShownAll(value), before + value;
    ShownOf(before, value);
    assert Text.AllSpace(ShownAll(before)) by {
      assert forall i :: 0 <= i < |before| ==> before[i] in before;
    }
    Text.TrimLeftPad(ShownAll(before), shown);
    Text.TrimRightShape(shown);
    var m := |Text.TrimRight(shown)|;
    assert TrimSpace(whole) == whole[|before|..|before| + m] == value[..m];
  }

  lemma TrimRightOfShown(core: Units, rest: Units)
    requires core != [] && !IsSpace(core[|core| - 1])
    ensures |core| <= |Text.TrimRight(ShownAll(core + rest))| <= |core + rest|
  {
    var n := |core| - 1;
    var lead, last, more := ShownAll(core[..n]), Shown(core[n]), ShownAll(rest);
    assert ShownAll(core + rest) == lead + [last] + more;
    Text.TrimRightKeeps(lead, last, more);
    Text.TrimRightShape(ShownAll(core + rest));
  }

  /** Trimming leaves everything from the first to the last unit that is no space; more may follow
      the part that is named here. */
  lemma TrimKeepsCore(before: Units, core: Units, rest: Units) returns (kept: Units)
    requires AllSpace(before) && core != [] && !IsSpace(core[0]) && !IsSpace(core[|core| - 1])
    ensures TrimSpace(before + core + rest) == core + kept && kept <= rest
  {
    assert before + core + rest == before + (core + rest);
    TrimAfterSpace(before, core + rest);
    TrimRightOfShown(core, rest);
    kept := rest[..|Text.TrimRight(ShownAll(core + rest))| - |core|];
  }

  lemma QuotedIsRead(before: Units, text: Units, rest: Units) returns (kept: Units)
    requires AllSpace(before)
    ensures CommandPath(before + ([QUOTE] + text + [QUOTE]) + rest) == Unquote(text + [QUOTE] + kept, false)
  {
    var core := [QUOTE] + text + [QUOTE];
    kept := TrimKeepsCore(before, core, rest);
    assert (core + kept)[1..] == text + [QUOTE] + kept;
  }

  /** What is written as an `Exec` value reads back as the same text with every stray byte replaced,
      quotes, backslashes, spaces, dollar signs and runs of percent signs included: the path
      itself exactly when it is valid UTF-8. */
  lemma ExecRoundTripIff(exe: Units)
    ensures ExecTarget(ExecValue(exe)) == Rewritten(exe)
    ensures ExecTarget(ExecValue(exe)) == exe <==> AllRunes(exe)
  {
    ArgumentsAreIgnored([], exe, []);
    assert [] + ExecValue(exe) + [] == ExecValue(exe);
    RewrittenIff(exe);
  }

  /** Space before the quoted path and arguments after it make no difference. */
  lemma ArgumentsAreIgnored(before: Units, exe: Units, rest: Units)
    requires AllSpace(before)
    ensures ExecTarget(before + ExecValue(exe) + rest) == Rewritten(exe)
  {
    var kept := QuotedIsRead(before, Escape(exe), rest);
    UnquoteUndoesEscape(exe, kept);
    HalveUndoesDouble(exe);
  }

  /** Without quotes the path is the first field. */
  lemma UnquotedYieldsFirstField(before: Units, field: Units, rest: Units)
    requires AllSpace(before) && field != [] && (forall u :: u in field ==> !IsSpace(u)) && field[0] != Rune('\"')
    requires rest == [] || IsSpace(rest[0])
    ensures CommandPath(before + field + rest) == field
    ensures Rune('%') !in field ==> ExecTarget(before + field + rest) == field
  {
    var kept := TrimKeepsCore(before, field, rest);
    FirstFieldIs(field, kept);
    if Rune('%') !in field { NothingToHalve(field); }
  }

  lemma {:induction false} FirstFieldIs(field: Units, rest: Units)
    requires (forall u :: u in field ==> !IsSpace(u)) && (rest == [] || IsSpace(rest[0]))
    ensures FirstField(field + rest) == field
  {
    if field == [] {
      assert field + rest == rest;
    } else {
      assert (field + rest)[1..] == field[1..] + rest;
      FirstFieldIs(field[1..], rest);
    }
  }

  lemma {:induction false} NothingToHalve(s: Units)
    requires PERCENT !in s
    ensures HalvePercents(s) == s
  {
    if s != [] { NothingToHalve(s[1..]); }
  }

  // ----- what is written -----

  predicate Reserved(u: Unit) {
    u == Rune('\"') || u == Rune('`') || u == Rune('$') || u == Rune('\\')
  }

  /** Quotes, backticks, dollar signs and backslashes only behind a backslash of their own, which
      stands before nothing else; percent signs only in twos. */
  ghost predicate WellQuoted(s: Units) {
    if s == [] then true
    else if s[0] == Rune('\\') then |s| >= 2 && Reserved(s[1]) && WellQuoted(s[2..])
    else if s[0] == Rune('%') then |s| >= 2 && s[1] == Rune('%') && WellQuoted(s[2..])
    else !Reserved(s[0]) && WellQuoted(s[1..])
  }

  /** A written value is a double quote, text in which nothing is left that a reader of the file would
      act on, and a double quote. */
  lemma ExecValueIsWellQuoted(exe: Units)
    ensures exists body :: ExecValue(exe) == [Rune('\"')] + body + [Rune('\"')] && WellQuoted(body)
  {
    EscapeIsWellQuoted(exe);
    assert ExecValue(exe) == [Rune('\"')] + Escape(exe) + [Rune('\"')];
  }

  lemma {:induction false} EscapeIsWellQuoted(s: Units)
    ensures WellQuoted(Escape(s))
  {
    if s != [] {
      EscapeIsWellQuoted(s[1..]);
      OneUnitIsWellQuoted(s[0], Escape(s[1..]));
    }
  }

  lemma OneUnitIsWellQuoted(u: Unit, rest: Units)
    requires WellQuoted(rest)
    ensures WellQuoted(EscapeUnit(u) + rest)
  {
    var whole := EscapeUnit(u) + rest;
    if |EscapeUnit(u)| == 1 {
      assert EscapeUnit(u) == [u] && whole[1..] == rest;
    } else {
      assert whole[2..] == rest && whole[1] == u;
    }
  }

  // ----- the file -----

  lemma {:induction false} EscapeKeepsNewlines(s: Units)
    requires NEWLINE !in s
    ensures NEWLINE !in Escape(s)
  {
    if s != [] { EscapeKeepsNewlines(s[1..]); }
  }

  lemma {:induction false} UnquoteMakesNoNewline(s: Units, escaped: bool)
    requires NEWLINE !in s
    ensures NEWLINE !in Unquote(s, escaped)
    decreases s
  {
    if s != [] {
      UnquoteMakesNoNewline(s[1..], false);
      UnquoteMakesNoNewline(s[1..], true);
      assert s[0] in s;
    }
  }

  lemma {:induction false} FirstFieldOnlyRemoves(s: Units)
    ensures forall u :: u in FirstField(s) ==> u in s
  {
    if s != [] { FirstFieldOnlyRemoves(s[1..]); }
  }

  lemma {:induction false} HalveOnlyRemoves(s: Units)
    ensures forall u :: u in HalvePercents(s) ==> u in s
  {
    if s != [] {
      if |s| >= 2 { HalveOnlyRemoves(s[2..]); }
      HalveOnlyRemoves(s[1..]);
    }
  }

  lemma ExecTargetMakesNoNewline(value: Units)
    requires NEWLINE !in value
    ensures NEWLINE !in ExecTarget(value)
  {
    var v := TrimSpace(value);
    TrimSpaceIsShown(value);
    if v != [] {
      FirstFieldOnlyRemoves(v);
      UnquoteMakesNoNewline(v[1..], false);
    }
    HalveOnlyRemoves(CommandPath(value));
  }

  /** Whatever a file says, the target read from it has no line break. */
  lemma {:induction false} TargetsAreSingleLine(lines: seq<Units>)
    requires forall l :: l in lines ==> NEWLINE !in l
    ensures NEWLINE !in FirstExec(lines)
  {
    if lines != [] {
      var line := TrimSpace(lines[0]);
      TrimSpaceIsShown(lines[0]);
      if Runes("Exec=") <= line {
        assert forall u :: u in line[5..] ==> u in line;
        ExecTargetMakesNoNewline(line[5..]);
      } else {
        TargetsAreSingleLine(lines[1..]);
      }
    }
  }

  lemma {:induction false} SplitTerminated(lines: seq<Units>)
    requires forall i :: 0 <= i < |lines| ==> NEWLINE !in lines[i]
    ensures Text.Split(Terminated(lines), NEWLINE) == lines + [[]]
  {
    if lines == [] {
      Text.SplitNone<Unit>([], NEWLINE);
    } else {
      SplitTerminated(lines[1..]);
      Text.SplitCons(lines[0], NEWLINE, Terminated(lines[1..]));
    }
  }

  lemma RunesHaveNoBreak(text: string)
    requires '\n' !in text
    ensures NEWLINE !in Runes(text)
  {
  }

  /** The written file, line by line. */
  lemma FileLines(exe: Units)
    requires NEWLINE !in exe
    ensures Text.Split(FileContents(exe), Rune('\n'))
            == [Runes("[Desktop Entry]"), Runes("Type=Application"), Runes("Name=Theia WinBox Bridge"),
                Runes("Exec=") + ExecValue(exe), Runes("X-GNOME-Autostart-enabled=true"), []]
  {
    EscapeKeepsNewlines(exe);
    RunesHaveNoBreak("[Desktop Entry]");
    RunesHaveNoBreak("Type=Application");
    RunesHaveNoBreak("Name=Theia WinBox Bridge");
    RunesHaveNoBreak("Exec=");
    RunesHaveNoBreak("X-GNOME-Autostart-enabled=true");
    var lines := [Runes("[Desktop Entry]"), Runes("Type=Application"), Runes("Name=Theia WinBox Bridge"),
                  Runes("Exec=") + ExecValue(exe), Runes("X-GNOME-Autostart-enabled=true")];
    SplitTerminated(lines);
  }

  lemma OtherLinesAreSkipped(text: string, rest: seq<Units>)
    requires Skippable(text)
    ensures FirstExec([Runes(text)] + rest) == FirstExec(rest)
  {
    var line := Runes(text);
    TrimStarts(line);
    assert Runes("Exec=")[0] == Rune('E');
    assert ([line] + rest)[1..] == rest;
  }

  lemma TrimStarts(line: Units)
    requires line != [] && !IsSpace(line[0])
    ensures TrimSpace(line) != [] && TrimSpace(line)[0] == line[0]
  {
    var kept := TrimKeepsCore([], line[..1], line[1..]);
    assert [] + line[..1] + line[1..] == line;
  }

  lemma ExecLineIsRead(exe: Units, rest: seq<Units>)
    ensures FirstExec([Runes("Exec=") + ExecValue(exe)] + rest) == Rewritten(exe)
  {
    var exec := Runes("Exec=") + ExecValue(exe);
    assert exec[0] == Rune('E') && exec[|exec| - 1] == QUOTE;
    TrimmedIsFixed(exec);
    assert exec[5..] == ExecValue(exe);
    ExecRoundTripIff(exe);
  }

  predicate Skippable(text: string) {
    text != "" && text[0] != 'E' && !Text.IsSpace(text[0])
  }

  lemma FourthLineIsRead(a: string, b: string, c: string, exe: Units, last: Units)
    requires Skippable(a) && Skippable(b) && Skippable(c)
    ensures FirstExec([Runes(a), Runes(b), Runes(c), Runes("Exec=") + ExecValue(exe), last, []]) == Rewritten(exe)
  {
    var exec := Runes("Exec=") + ExecValue(exe);
    var three := [exec] + [last, []];
    var two := [Runes(c)] + three;
    var one := [Runes(b)] + two;
    assert [Runes(a), Runes(b), Runes(c), exec, last, []] == [Runes(a)] + one;
    OtherLinesAreSkipped(a, one);
    OtherLinesAreSkipped(b, two);
    OtherLinesAreSkipped(c, three);
    ExecLineIsRead(exe, [last, []]);
  }

  lemma FileReadsBack(exe: Units)
    requires NEWLINE !in exe
    ensures FirstExec(Text.Split(FileContents(exe), NEWLINE)) == Rewritten(exe)
  {
    FileLines(exe);
    FourthLineIsRead("[Desktop Entry]", "Type=Application", "Name=Theia WinBox Bridge", exe,
                     Runes("X-GNOME-Autostart-enabled=true"));
  }

  /** The written file reads back to the path exactly when the path has no line break and is valid
      UTF-8. */
  lemma FileRoundTripIff(exe: Units)
    ensures FirstExec(Text.Split(FileContents(exe), NEWLINE)) == exe <==> NEWLINE !in exe && AllRunes(exe)
  {
    if NEWLINE in exe {
      Text.SplitParts(FileContents(exe), NEWLINE);
      TargetsAreSingleLine(Text.Split(FileContents(exe), NEWLINE));
    } else {
      FileReadsBack(exe);
      RewrittenIff(exe);
    }
  }

  /** A directory name that is not valid UTF-8 comes back with U+FFFD in its place. */
  lemma StrayByteIsReplaced()
    ensures var exe := Runes("/opt/") + [Stray(0xFF)] + Runes("/bridge");
            NEWLINE !in exe && FirstExec(Text.Split(FileContents(exe), NEWLINE))
              == Runes("/opt/") + [Rune('\U{FFFD}')] + Runes("/bridge") != exe
  {
    var exe := Runes("/opt/") + [Stray(0xFF)] + Runes("/bridge");
    assert exe[5] == Stray(0xFF);
    FileReadsBack(exe);
    RewrittenAround("/opt/", Stray(0xFF), "/bridge");
  }

  lemma RewrittenAround(before: string, u: Unit, after: string)
    ensures Rewritten(Runes(before) + [u] + Runes(after)) == Runes(before) + [Rune(Shown(u))] + Runes(after)
  {
  }
}
