/** The printer.cfg patchers of bin/t300ctl.py, on texts whose lines end in LF or CRLF. */
module PrinterPatch {
  import opened Wrappers
  import opened Lines

  const MACRO := "Macro.cfg"
  const CORE: seq<string> := ["t300_core.cfg"]
  const RUNTIME: seq<string> := ["mainsail_client.cfg", "t300_runtime.cfg"]

  // ------------------------------------------------------ recognising lines

  predicate IsSpace(c: char) { c == ' ' || c == '\t' }

  function LowerChar(c: char): char { if 'A' <= c <= 'Z' then c - 'A' + 'a' else c }

  function Lower(s: string): string { seq(|s|, i requires 0 <= i < |s| => LowerChar(s[i])) }

  function SkipSpace(s: string): (r: string)
    ensures r == [] || !IsSpace(r[0])
  {
    if s != [] && IsSpace(s[0]) then SkipSpace(s[1..]) else s
  }

  /** line.rstrip("\r\n") */
  function Body(line: string): (r: string)
    ensures r <= line
  {
    if line != [] && (line[|line| - 1] == '\r' || line[|line| - 1] == '\n') then Body(line[..|line| - 1]) else line
  }

  /** What follows `[include` and the space after it. */
  function IncludeRest(s: string): Option<string> {
    var t := SkipSpace(s);
    if |t| > 8 && Lower(t[..8]) == "[include" && IsSpace(t[8]) then Some(SkipSpace(t[8..])) else None
  }

  /** s begins with an include of this file. */
  predicate Opens(s: string, name: string) {
    var rest := IncludeRest(s);
    && rest.Some? && |name| < |rest.value|
    && Lower(rest.value[..|name|]) == Lower(name) && rest.value[|name|] == ']'
  }

  /** The line is an include of this file, perhaps followed by a comment. */
  predicate IsInclude(line: string, name: string) {
    var s := Body(line);
    && Opens(s, name)
    && var tail := SkipSpace(IncludeRest(s).value[|name| + 1..]);
       tail == [] || tail[0] == '#'
  }

  predicate IsWord(c: char) { 'a' <= c <= 'z' || 'A' <= c <= 'Z' || '0' <= c <= '9' || c == '_' }

  predicate SaveConfigAt(s: string, i: nat)
    requires 0 < i < |s|
  {
    && i + 11 <= |s| && Lower(s[i..i + 11]) == "save_config"
    && !IsWord(s[i - 1]) && (i + 11 < |s| ==> !IsWord(s[i + 11]))
  }

  /** `#*#` and, later in the line, the word SAVE_CONFIG. */
  predicate IsSaveMarker(line: string) {
    var s := SkipSpace(Body(line));
    && "#*#" <= s
    && exists i :: 3 <= i < |s| && SaveConfigAt(s, i)
  }

  /** The other characters at which str.splitlines ends a line. */
  predicate IsOtherBreak(c: char) {
    c == '\U{000B}' || c == '\U{000C}' || '\U{001C}' <= c <= '\U{001E}' || c == '\U{0085}'
    || c == '\U{2028}' || c == '\U{2029}'
  }

  predicate NoOtherBreak(text: string) { forall c :: c in text ==> !IsOtherBreak(c) }

  /** A plain file name, as all managed names are. */
  predicate FileName(name: string) {
    && name != [] && !IsSpace(name[0]) && NoOtherBreak(name)
    && forall c :: c in name ==> c != ']' && c != '\n' && c != '\r'
  }

  predicate IsManaged(line: string, names: seq<string>) { exists i :: 0 <= i < |names| && IsInclude(line, names[i]) }

  function IncludeLine(name: string, newline: string): string { "[include " + name + "]" + newline }

  /** A longer name leaves no room for the bracket that closes a shorter one. */
  lemma NoBracketInside(n: string, b: string, k: nat)
    requires k < |b| <= |n| && Lower(n[..|b|]) == Lower(b) && FileName(b)
    ensures n[k] != ']'
  {
    assert Lower(n[..|b|])[k] == LowerChar(b[k]) && b[k] in b;
  }

  /** Files with different names have different include lines, whatever the case. */
  lemma OneName(s: string, a: string, b: string)
    requires FileName(a) && FileName(b) && Opens(s, a) && Opens(s, b)
    ensures Lower(a) == Lower(b)
  {
    var n := IncludeRest(s).value;
    if |a| < |b| { NoBracketInside(n, b, |a|); }
    if |b| < |a| { NoBracketInside(n, a, |b|); }
  }

  lemma {:induction false} SkipSpaceKeeps(s: string, more: string)
    requires SkipSpace(s) != []
    ensures SkipSpace(s + more) == SkipSpace(s) + more
  {
    if IsSpace(s[0]) {
      assert (s + more)[1..] == s[1..] + more;
      SkipSpaceKeeps(s[1..], more);
    }
  }

  /** Text added behind an include does not turn it into another one. */
  lemma OpensExtends(s: string, name: string, more: string)
    requires Opens(s, name)
    ensures Opens(s + more, name)
  {
    SkipSpaceKeeps(s, more);
    var t := SkipSpace(s);
    SkipSpaceKeeps(t[8..], more);
    var n := IncludeRest(s).value;
    assert (t + more)[..8] == t[..8] && (t + more)[8..] == t[8..] + more;
    assert (n + more)[..|name|] == n[..|name|];
  }

  predicate IsNewline(newline: string) { newline == "\n" || newline == "\r\n" }

  lemma BodyOfEnded(s: string, newline: string)
    requires IsNewline(newline)
    ensures Body(s + newline) == Body(s)
  {
    assert (s + "\n")[..|s|] == s && (s + "\r")[..|s|] == s;
    assert (s + "\r\n")[..|s| + 1] == s + "\r";
  }

  lemma OneSpace(s: string, rest: string)
    requires s == " " + rest && rest != [] && !IsSpace(rest[0])
    ensures SkipSpace(s) == rest
  {
    assert s[1..] == rest;
  }

  lemma IncludeLineIsInclude(name: string, newline: string)
    requires FileName(name) && IsNewline(newline)
    ensures IsInclude(IncludeLine(name, newline), name) && !IsSaveMarker(IncludeLine(name, newline))
    ensures Body(IncludeLine(name, newline)) == "[include " + name + "]"
  {
    var s := "[include " + name + "]";
    BodyOfEnded(s, newline);
    assert Body(s) == s && SkipSpace(s) == s && s[0] == '[';
    assert s[..8] == "[include" && Lower("[include") == "[include";
    OneSpace(s[8..], name + "]");
    assert (name + "]")[..|name|] == name && (name + "]")[|name| + 1..] == [];
  }

  // ------------------------------------------- what these lines look like

  const CAPITALS := "ABCDEFGHIJKLMNOPQRSTUVWXYZ"
  const SMALL := "abcdefghijklmnopqrstuvwxyz"
  const DIGITS := "0123456789"

  /** Letter case is that of the 26 letters. */
  lemma LowerExactly(i: nat, c: char)
    requires i < 26
    ensures LowerChar(CAPITALS[i]) == SMALL[i] && LowerChar(SMALL[i]) == SMALL[i]
    ensures c !in CAPITALS ==> LowerChar(c) == c
  {
    if 'A' <= c <= 'Z' { assert CAPITALS[(c - 'A') as int] == c; }
  }

  lemma CapitalsExactly(c: char)
    ensures c in CAPITALS <==> 'A' <= c <= 'Z'
  {
    if 'A' <= c <= 'Z' { assert CAPITALS[(c - 'A') as int] == c; }
  }

  lemma SmallExactly(c: char)
    ensures c in SMALL <==> 'a' <= c <= 'z'
  {
    if 'a' <= c <= 'z' { assert SMALL[(c - 'a') as int] == c; }
  }

  lemma DigitsExactly(c: char)
    ensures c in DIGITS <==> '0' <= c <= '9'
  {
    if '0' <= c <= '9' { assert DIGITS[(c - '0') as int] == c; }
  }

  /** Words are made of letters, digits and the underscore. */
  lemma WordExactly(c: char)
    ensures IsWord(c) <==> c in CAPITALS || c in SMALL || c in DIGITS || c == '_'
  {
    CapitalsExactly(c);
    SmallExactly(c);
    DigitsExactly(c);
  }

  predicate Blank(s: string) { forall i :: 0 <= i < |s| ==> IsSpace(s[i]) }

  predicate LineEnding(s: string) { forall i :: 0 <= i < |s| ==> s[i] == '\r' || s[i] == '\n' }

  /** rstrip takes exactly the line-ending characters at the end. */
  lemma {:induction false} BodyExactly(line: string)
    ensures line == Body(line) + line[|Body(line)|..] && LineEnding(line[|Body(line)|..])
    ensures Body(line) != [] ==> Body(line)[|Body(line)| - 1] != '\r' && Body(line)[|Body(line)| - 1] != '\n'
  {
    var n := |line| - 1;
    if line != [] && (line[n] == '\r' || line[n] == '\n') {
      BodyExactly(line[..n]);
      var k := |Body(line)|;
      assert line[k..] == line[..n][k..] + [line[n]];
    }
  }

  lemma {:induction false} SkipSpaceSplits(s: string)
    ensures
      var k := |s| - |SkipSpace(s)|;
      0 <= k && s == s[..k] + SkipSpace(s) && Blank(s[..k])
  {
    if s != [] && IsSpace(s[0]) {
      SkipSpaceSplits(s[1..]);
      var k := |s| - |SkipSpace(s)|;
      assert s[..k] == [s[0]] + s[1..][..k - 1];
    }
  }

  lemma {:induction false} SkipSpaceSkips(a: string, t: string)
    requires Blank(a) && (t != [] ==> !IsSpace(t[0]))
    ensures SkipSpace(a + t) == t
  {
    if a == [] {
      assert a + t == t;
    } else {
      assert (a + t)[1..] == a[1..] + t;
      SkipSpaceSkips(a[1..], t);
    }
  }

  /** Space, `[include`, letter case aside, and space. */
  predicate HeadForm(a: string, w: string, b: string) {
    Blank(a) && Lower(w) == "[include" && Blank(b) && b != []
  }

  /** The name, letter case aside, and the bracket; then space and perhaps a comment. */
  predicate TailForm(name: string, n: string, c: string, d: string) {
    Lower(n) == Lower(name) && Blank(c) && (d != [] ==> d[0] == '#')
  }

  lemma HeadIsThere(s: string) returns (a: string, w: string, b: string)
    requires IncludeRest(s).Some?
    ensures HeadForm(a, w, b) && s == a + w + b + IncludeRest(s).value
  {
    var t := SkipSpace(s);
    SkipSpaceSplits(s);
    a, w := s[..|s| - |t|], t[..8];
    b := SpaceIsThere(t[8..]);
    Regroup(a, w, b, SkipSpace(t[8..]), t);
  }

  lemma SpaceIsThere(u: string) returns (b: string)
    requires u != [] && IsSpace(u[0])
    ensures Blank(b) && b != [] && u == b + SkipSpace(u)
  {
    SkipSpaceSplits(u);
    b := u[..|u| - |SkipSpace(u)|];
    assert u == b + SkipSpace(u);
  }

  lemma Regroup(a: string, w: string, b: string, r: string, t: string)
    requires |t| >= 8 && t[..8] == w && t[8..] == b + r
    ensures a + t == a + w + b + r
  {
    assert t == w + (b + r);
  }

  lemma HeadIsRead(s: string, a: string, w: string, b: string, r: string)
    requires HeadForm(a, w, b) && s == a + w + b + r && (r != [] ==> !IsSpace(r[0]))
    ensures IncludeRest(s) == Some(r)
  {
    var t := w + (b + r);
    assert |w| == 8 by { assert |Lower(w)| == |w|; }
    assert LowerChar(w[0]) == Lower(w)[0] == '[';
    assert s == a + t;
    SkipSpaceSkips(a, t);
    assert t[..8] == w && t[8..] == b + r;
    SkipSpaceSkips(b, r);
  }

  lemma TailIsThere(r: string, name: string) returns (n: string, c: string, d: string)
    requires |name| < |r| && Lower(r[..|name|]) == Lower(name) && r[|name|] == ']'
    requires var tail := SkipSpace(r[|name| + 1..]); tail == [] || tail[0] == '#'
    ensures TailForm(name, n, c, d) && r == n + "]" + c + d
  {
    var rest := r[|name| + 1..];
    n, d := r[..|name|], SkipSpace(rest);
    SkipSpaceSplits(rest);
    c := rest[..|rest| - |d|];
    assert r == n + "]" + rest;
  }

  lemma TailIsRead(r: string, name: string, n: string, c: string, d: string)
    requires FileName(name) && TailForm(name, n, c, d) && r == n + "]" + c + d
    ensures !IsSpace(r[0]) && |name| < |r| && Lower(r[..|name|]) == Lower(name) && r[|name|] == ']'
    ensures var tail := SkipSpace(r[|name| + 1..]); tail == [] || tail[0] == '#'
  {
    assert |n| == |name| by { assert |Lower(n)| == |n| && |Lower(name)| == |name|; }
    assert LowerChar(n[0]) == Lower(n)[0] == Lower(name)[0] == LowerChar(name[0]);
    assert r[..|name|] == n && r[|name| + 1..] == c + d;
    SkipSpaceSkips(c, d);
  }

  /** What an include line looks like: its body is a head and a tail. */
  lemma IncludeHasForm(line: string, name: string)
    returns (a: string, w: string, b: string, n: string, c: string, d: string)
    requires IsInclude(line, name)
    ensures HeadForm(a, w, b) && TailForm(name, n, c, d) && Body(line) == a + w + b + (n + "]" + c + d)
  {
    a, w, b := HeadIsThere(Body(line));
    n, c, d := TailIsThere(IncludeRest(Body(line)).value, name);
  }

  /** And every such line is one. */
  lemma FormIsInclude(line: string, name: string, a: string, w: string, b: string, n: string, c: string, d: string)
    requires FileName(name) && HeadForm(a, w, b) && TailForm(name, n, c, d)
    requires Body(line) == a + w + b + (n + "]" + c + d)
    ensures IsInclude(line, name)
  {
    var r := n + "]" + c + d;
    TailIsRead(r, name, n, c, d);
    HeadIsRead(Body(line), a, w, b, r);
  }

  /** Space, `#*#`, anything, and SAVE_CONFIG, letter case aside, as a word. */
  predicate MarkerForm(s: string, a: string, p: string, w: string, q: string) {
    && s == a + "#*#" + p + w + q && Blank(a) && Lower(w) == "save_config"
    && (p != [] ==> !IsWord(p[|p| - 1])) && (q != [] ==> !IsWord(q[0]))
  }

  lemma MarkerHasForm(line: string) returns (a: string, p: string, w: string, q: string)
    requires IsSaveMarker(line)
    ensures MarkerForm(Body(line), a, p, w, q)
  {
    var s := Body(line);
    var t := SkipSpace(s);
    SkipSpaceSplits(s);
    a := s[..|s| - |t|];
    p, w, q := MarkedText(t);
    Joined(a, "#*#", p, w, q);
  }

  lemma Joined(a: string, h: string, p: string, w: string, q: string)
    ensures a + (h + p + w + q) == a + h + p + w + q
  {
  }

  lemma MarkedText(t: string) returns (p: string, w: string, q: string)
    requires "#*#" <= t && exists i :: 3 <= i < |t| && SaveConfigAt(t, i)
    ensures t == "#*#" + p + w + q && Lower(w) == "save_config"
    ensures (p != [] ==> !IsWord(p[|p| - 1])) && (q != [] ==> !IsWord(q[0]))
  {
    var i :| 3 <= i < |t| && SaveConfigAt(t, i);
    p, w, q := t[3..i], t[i..i + 11], t[i + 11..];
    WordAt(t, i);
  }

  /** The text around a word. */
  lemma WordAt(t: string, i: nat)
    requires "#*#" <= t && 3 <= i < |t| && SaveConfigAt(t, i)
    ensures
      var p, w, q := t[3..i], t[i..i + 11], t[i + 11..];
      && t == "#*#" + p + w + q && (p != [] ==> !IsWord(p[|p| - 1])) && (q != [] ==> !IsWord(q[0]))
  {
    assert t[..3] == "#*#";
  }

  lemma FormIsMarker(line: string, a: string, p: string, w: string, q: string)
    requires MarkerForm(Body(line), a, p, w, q)
    ensures IsSaveMarker(line)
  {
    var h := "#*#";
    var t := h + p + w + q;
    assert Body(line) == a + t && t[0] == '#';
    SkipSpaceSkips(a, t);
    WordIn(t, h, p, w, q);
  }

  lemma WordIn(t: string, h: string, p: string, w: string, q: string)
    requires |h| == 3 && h[2] == '#' && t == h + p + w + q && Lower(w) == "save_config"
    requires (p != [] ==> !IsWord(p[|p| - 1])) && (q != [] ==> !IsWord(q[0]))
    ensures 3 + |p| < |t| && SaveConfigAt(t, 3 + |p|)
  {
    var i := 3 + |p|;
    assert |w| == 11 by { assert |Lower(w)| == |w|; }
    assert t[i..i + 11] == w;
    assert t[i - 1] == if p == [] then h[2] else p[|p| - 1];
    assert q != [] ==> t[i + 11] == q[0];
  }

  /** A CRLF anywhere makes the patchers write CRLF. */
  lemma NewlineExactly(text: string)
    ensures NewlineOf(text) == "\r\n" || NewlineOf(text) == "\n"
    ensures NewlineOf(text) == "\r\n" <==> exists i :: 0 < i < |text| && text[i - 1] == '\r' && text[i] == '\n'
  {
    if HasCrlf(text) {
      var i :| 0 <= i < |text| - 1 && text[i] == '\r' && text[i + 1] == '\n';
      assert text[i + 1 - 1] == '\r';
    }
    if i :| 0 < i < |text| && text[i - 1] == '\r' && text[i] == '\n' {
      var k := i - 1;
      assert text[k + 1] == '\n';
    }
    assert "\r\n" != "\n" by { assert |"\r\n"| == 2; }
  }

  // ------------------------------------------------------------ the patcher

  /** Every carriage return belongs to a CRLF, and no other character ends a line. */
  predicate LfCrlf(text: string) {
    && (forall i :: 0 <= i < |text| && text[i] == '\r' ==> i + 1 < |text| && text[i + 1] == '\n')
    && NoOtherBreak(text)
  }

  predicate Ended(line: string) { line != [] && (line[|line| - 1] == '\n' || line[|line| - 1] == '\r') }

  predicate HasCrlf(text: string) { exists i :: 0 <= i < |text| - 1 && text[i] == '\r' && text[i + 1] == '\n' }

  function NewlineOf(text: string): string { if HasCrlf(text) then "\r\n" else "\n" }

  function Without(lines: seq<string>, names: seq<string>): seq<string> {
    if lines == [] then []
    else (if IsManaged(lines[0], names) then [] else [lines[0]]) + Without(lines[1..], names)
  }

  /** Index of the first SAVE_CONFIG marker, or the end. */
  function Anchor(lines: seq<string>): (k: nat)
    ensures k <= |lines|
    ensures forall i :: 0 <= i < k ==> !IsSaveMarker(lines[i])
    ensures k < |lines| ==> IsSaveMarker(lines[k])
  {
    if lines == [] || IsSaveMarker(lines[0]) then 0 else 1 + Anchor(lines[1..])
  }

  /** The last line gets a line ending if it has none. */
  function Complete(lines: seq<string>, newline: string): seq<string> {
    if lines != [] && !Ended(lines[|lines| - 1])
    then lines[..|lines| - 1] + [lines[|lines| - 1] + newline] else lines
  }

  function IncludeLines(names: seq<string>, newline: string): seq<string> {
    seq(|names|, i requires 0 <= i < |names| => IncludeLine(names[i], newline))
  }

  /** The other lines in order, the managed includes right before the marker or at the end. */
  function Patched(lines: seq<string>, names: seq<string>, newline: string): seq<string> {
    var kept := Without(lines, names);
    Complete(kept[..Anchor(kept)], newline) + IncludeLines(names, newline) + kept[Anchor(kept)..]
  }

  predicate HasMacro(lines: seq<string>) { exists i :: 0 <= i < |lines| && IsInclude(lines[i], MACRO) }

  /** patch_core_printer_cfg and patch_runtime_printer_cfg, which differ in the names only. */
  method Patch(text: string, names: seq<string>) returns (r: Result<(string, bool)>)
    requires LfCrlf(text)
    ensures r.Raised? <==> !HasMacro(SplitLines(text, '\n'))
    ensures r.Ok? ==>
      && r.value.0 == Join(Patched(SplitLines(text, '\n'), names, NewlineOf(text)))
      && (r.value.1 <==> r.value.0 != text)
  {
    var lines := SplitLines(text, '\n');
    if !HasMacro(lines) { return Raised; }
    var filtered := Without(lines, names);
    var anchor := Anchor(filtered);
    var newline := NewlineOf(text);
    ghost var kept := filtered;
    if anchor > 0 && !Ended(filtered[anchor - 1]) {
      filtered := filtered[anchor - 1 := filtered[anchor - 1] + newline];
    }
    assert filtered[..anchor] == Complete(kept[..anchor], newline);
    assert filtered[anchor..] == kept[anchor..];
    filtered := filtered[..anchor] + IncludeLines(names, newline) + filtered[anchor..];
    var proposed := Join(filtered);
    r := Ok((proposed, proposed != text));
  }

  // ----------------------------------------------------------- its promises

  /** What patching needs of the managed names. */
  ghost predicate Managed(names: seq<string>) {
    && names != [] && (forall i :: 0 <= i < |names| ==> FileName(names[i]) && Lower(names[i]) != "macro.cfg")
    && (forall i, j :: 0 <= i < j < |names| ==> Lower(names[i]) != Lower(names[j]))
  }

  lemma CoreIsManaged()
    ensures Managed(CORE)
  {
    assert FileName("t300_core.cfg");
    assert |Lower("t300_core.cfg")| == 13;
  }

  lemma RuntimeIsManaged()
    ensures Managed(RUNTIME)
  {
    ClientIsFileName(RUNTIME[0]);
    MacrosAreFileName(RUNTIME[1]);
    assert |MACRO| == 9;
  }

  lemma ClientIsFileName(name: string)
    requires name == "mainsail_client.cfg"
    ensures FileName(name) && |Lower(name)| == 19
  {
  }

  lemma MacrosAreFileName(name: string)
    requires name == "t300_runtime.cfg"
    ensures FileName(name) && |Lower(name)| == 16
  {
  }

  lemma {:induction false} WithoutConcat(a: seq<string>, b: seq<string>, names: seq<string>)
    ensures Without(a + b, names) == Without(a, names) + Without(b, names)
  {
    if a == [] {
      assert a + b == b;
    } else {
      assert (a + b)[1..] == a[1..] + b;
      WithoutConcat(a[1..], b, names);
    }
  }

  predicate NoneManaged(lines: seq<string>, names: seq<string>) {
    forall l :: l in lines ==> !IsManaged(l, names)
  }

  lemma {:induction false} WithoutNone(lines: seq<string>, names: seq<string>)
    requires NoneManaged(lines, names)
    ensures Without(lines, names) == lines
  {
    if lines != [] {
      WithoutNone(lines[1..], names);
    }
  }

  lemma {:induction false} WithoutAll(lines: seq<string>, names: seq<string>)
    requires forall l :: l in lines ==> IsManaged(l, names)
    ensures Without(lines, names) == []
  {
    if lines != [] {
      WithoutAll(lines[1..], names);
    }
  }

  /** What is kept are unmanaged lines of the text; an unended one comes last. */
  lemma {:induction false} KeptLines(lines: seq<string>, names: seq<string>)
    requires AreLines(lines, '\n')
    ensures AreLines(Without(lines, names), '\n')
    ensures NoneManaged(Without(lines, names), names) && forall l :: l in Without(lines, names) ==> l in lines
    ensures forall l :: l in lines && !IsManaged(l, names) ==> l in Without(lines, names)
  {
    if lines != [] {
      var rest := lines[1..];
      forall i | 0 <= i < |rest| ensures IsLine(rest[i], i == |rest| - 1, '\n') {
        assert IsLine(lines[i + 1], i + 1 == |lines| - 1, '\n');
      }
      KeptLines(rest, names);
      var kept, tail := Without(lines, names), Without(rest, names);
      assert IsLine(lines[0], 0 == |lines| - 1, '\n');
      forall i | 0 <= i < |kept|
        ensures kept[i] in lines && !IsManaged(kept[i], names) && IsLine(kept[i], i == |kept| - 1, '\n')
      {
        if !IsManaged(lines[0], names) && i > 0 { assert kept[i] == tail[i - 1] && tail[i - 1] in rest; }
        if IsManaged(lines[0], names) { assert kept[i] == tail[i] && tail[i] in rest; }
      }
    }
  }

  lemma SplitIsLfCrlf(text: string, lines: seq<string>)
    requires LfCrlf(text) && lines == SplitLines(text, '\n')
    ensures forall l :: l in lines ==> LfCrlf(l)
    decreases |text|
  {
    if text != [] {
      var n := LineEnd(text, '\n');
      var rest := text[n..];
      assert forall i :: 0 <= i < |rest| ==> rest[i] == text[n + i];
      assert LfCrlf(rest);
      assert text[..n][n - 1] == text[n - 1];
      assert LfCrlf(text[..n]);
      SplitIsLfCrlf(rest, lines[1..]);
    }
  }

  lemma {:induction false} JoinIsLfCrlf(lines: seq<string>)
    requires forall l :: l in lines ==> LfCrlf(l)
    ensures LfCrlf(Join(lines))
    ensures '\r' in Join(lines) <==> exists l :: l in lines && '\r' in l
  {
    if lines != [] {
      assert lines[0] in lines && forall l :: l in lines[1..] ==> l in lines;
      JoinIsLfCrlf(lines[1..]);
      assert forall l :: l in lines ==> l == lines[0] || l in lines[1..];
      var a, b := lines[0], Join(lines[1..]);
      assert Join(lines) == a + b;
      forall i | 0 <= i < |a + b| && (a + b)[i] == '\r' ensures i + 1 < |a + b| && (a + b)[i + 1] == '\n' {
        if i < |a| { assert a[i] == '\r'; } else { assert b[i - |a|] == '\r'; }
      }
      assert '\r' in a + b <==> '\r' in a || '\r' in b;
    }
  }

  /** A line ending more or less changes nothing about what a line is. */
  lemma EndingIsNoMatter(line: string, newline: string)
    requires IsNewline(newline)
    ensures IsSaveMarker(line + newline) == IsSaveMarker(line)
    ensures forall name :: IsInclude(line + newline, name) == IsInclude(line, name)
    ensures forall names :: IsManaged(line + newline, names) == IsManaged(line, names)
  {
    BodyOfEnded(line, newline);
    assert forall name :: IsInclude(line + newline, name) == IsInclude(line, name);
  }

  lemma IncludesOnly(names: seq<string>, i: nat, j: nat, newline: string)
    requires Managed(names) && IsNewline(newline) && i < |names| && j < |names|
    ensures IsInclude(IncludeLine(names[i], newline), names[j]) <==> i == j
  {
    var line := IncludeLine(names[i], newline);
    IncludeLineIsInclude(names[i], newline);
    if IsInclude(line, names[j]) {
      OneName(Body(line), names[i], names[j]);
    }
  }

  lemma IncludeLinesAreManaged(names: seq<string>, newline: string)
    requires Managed(names) && IsNewline(newline)
    ensures forall l :: l in IncludeLines(names, newline) ==> IsManaged(l, names) && IsLine(l, false, '\n') && LfCrlf(l)
  {
    forall l | l in IncludeLines(names, newline)
      ensures IsManaged(l, names) && IsLine(l, false, '\n') && LfCrlf(l)
    {
      var i :| 0 <= i < |names| && l == IncludeLine(names[i], newline);
      IncludeLineIsInclude(names[i], newline);
      IncludeLineIsOneLine(names[i], newline);
    }
  }

  lemma IncludeLineIsOneLine(name: string, newline: string)
    requires FileName(name) && IsNewline(newline)
    ensures IsLine(IncludeLine(name, newline), false, '\n') && LfCrlf(IncludeLine(name, newline))
  {
    var line := IncludeLine(name, newline);
    var open, close := "[include ", "]" + newline;
    assert line == open + name + close;
    forall k | 0 <= k < |line| ensures line[k] == '\n' ==> k == |line| - 1
      ensures line[k] == '\r' ==> newline == "\r\n" && k == |line| - 2
    {
      if |open| <= k < |open| + |name| { assert line[k] == name[k - |open|] && name[k - |open|] in name; }
      if k >= |open| + |name| { assert line[k] == close[k - |open| - |name|]; }
    }
  }

  /** Lines that all end, so that more may follow. */
  ghost predicate AllEnd(lines: seq<string>) {
    forall l :: l in lines ==> IsLine(l, false, '\n') && LfCrlf(l)
  }

  lemma EndedThenMore(a: seq<string>, b: seq<string>)
    requires AllEnd(a) && AreLines(b, '\n') && forall l :: l in b ==> LfCrlf(l)
    ensures AreLines(a + b, '\n') && forall l :: l in a + b ==> LfCrlf(l)
  {
    var all := a + b;
    forall i | 0 <= i < |all| ensures IsLine(all[i], i == |all| - 1, '\n') {
      if i < |a| { assert all[i] == a[i] && a[i] in a; }
      else { assert all[i] == b[i - |a|] && IsLine(b[i - |a|], i - |a| == |b| - 1, '\n'); }
    }
  }

  lemma CompletedEnds(kept: seq<string>, k: nat, newline: string)
    requires AreLines(kept, '\n') && k <= |kept| && IsNewline(newline) && forall l :: l in kept ==> LfCrlf(l)
    ensures AllEnd(Complete(kept[..k], newline))
  {
    var all := Complete(kept[..k], newline);
    forall l | l in all ensures IsLine(l, false, '\n') && LfCrlf(l) {
      var i :| 0 <= i < |all| && all[i] == l;
      assert IsLine(kept[i], i == |kept| - 1, '\n') && kept[i] in kept;
      if i == k - 1 && !Ended(kept[i]) { CompletedLine(kept[i], newline); }
    }
  }

  /** Patching yields well-formed lines again. */
  lemma PatchedLines(lines: seq<string>, names: seq<string>, newline: string)
    requires AreLines(lines, '\n') && Managed(names) && IsNewline(newline) && forall l :: l in lines ==> LfCrlf(l)
    ensures AreLines(Patched(lines, names, newline), '\n')
    ensures forall l :: l in Patched(lines, names, newline) ==> LfCrlf(l)
  {
    KeptLines(lines, names);
    var kept := Without(lines, names);
    var k := Anchor(kept);
    IncludeLinesAreManaged(names, newline);
    CompletedEnds(kept, k, newline);
    forall i | 0 <= i < |kept[k..]| ensures IsLine(kept[k..][i], i == |kept[k..]| - 1, '\n') {
      assert IsLine(kept[k + i], k + i == |kept| - 1, '\n');
    }
    assert forall l :: l in kept[k..] ==> l in kept;
    EndedThenMore(Complete(kept[..k], newline) + IncludeLines(names, newline), kept[k..]);
  }

  lemma CompletedLine(line: string, newline: string)
    requires IsLine(line, true, '\n') && !Ended(line) && LfCrlf(line) && IsNewline(newline)
    ensures IsLine(line + newline, false, '\n') && LfCrlf(line + newline)
  {
    var l := line + newline;
    forall i | 0 <= i < |l| && l[i] == '\r' ensures i + 1 < |l| && l[i + 1] == '\n' {
      if i < |line| { assert line[i] == '\r'; }
    }
  }

  lemma CrlfIsCr(text: string)
    requires LfCrlf(text)
    ensures HasCrlf(text) <==> '\r' in text
  {
    if '\r' in text {
      var i :| 0 <= i < |text| && text[i] == '\r';
      assert text[i + 1] == '\n';
    }
  }

  /** The patched text keeps the kind of line ending that the next call will see. */
  lemma SameNewline(text: string, names: seq<string>)
    requires LfCrlf(text) && Managed(names)
    ensures
      var proposed := Join(Patched(SplitLines(text, '\n'), names, NewlineOf(text)));
      LfCrlf(proposed) && NewlineOf(proposed) == NewlineOf(text)
  {
    var lines, newline := SplitLines(text, '\n'), NewlineOf(text);
    var all := Patched(lines, names, newline);
    SplitLinesAreLines(text, '\n');
    SplitLinesJoin(text, '\n');
    SplitIsLfCrlf(text, lines);
    JoinIsLfCrlf(lines);
    PatchedLines(lines, names, newline);
    JoinIsLfCrlf(all);
    CrlfIsCr(text);
    CrlfIsCr(Join(all));
    if '\r' in text {
      FirstInclude(lines, names, newline);
    } else {
      NoCarriageReturns(lines, names);
    }
  }

  lemma FirstInclude(lines: seq<string>, names: seq<string>, newline: string)
    requires Managed(names) && newline == "\r\n"
    ensures exists l :: l in Patched(lines, names, newline) && '\r' in l
  {
    var l := IncludeLine(names[0], newline);
    assert l[|l| - 2] == '\r';
    assert l == IncludeLines(names, newline)[0];
    assert l in IncludeLines(names, newline);
    assert l in Patched(lines, names, newline);
  }

  lemma NoCarriageReturns(lines: seq<string>, names: seq<string>)
    requires Managed(names) && AreLines(lines, '\n') && forall l :: l in lines ==> '\r' !in l
    ensures forall l :: l in Patched(lines, names, "\n") ==> '\r' !in l
  {
    KeptLines(lines, names);
    var kept := Without(lines, names);
    var k := Anchor(kept);
    forall l | l in IncludeLines(names, "\n") ensures '\r' !in l {
      var i :| 0 <= i < |names| && l == IncludeLine(names[i], "\n");
      assert '\r' !in names[i];
    }
    forall l | l in Complete(kept[..k], "\n") ensures '\r' !in l {
      assert l in kept || l == kept[k - 1] + "\n";
    }
  }

  lemma FrontLine(kept: seq<string>, k: nat, i: nat, newline: string)
    requires i < k <= |kept| && IsNewline(newline)
    ensures
      var front := Complete(kept[..k], newline);
      && |front| == k && IsSaveMarker(front[i]) == IsSaveMarker(kept[i])
      && (forall name :: IsInclude(front[i], name) == IsInclude(kept[i], name))
      && (forall names :: IsManaged(front[i], names) == IsManaged(kept[i], names))
  {
    if i == k - 1 && !Ended(kept[i]) {
      EndingIsNoMatter(kept[i], newline);
      assert Complete(kept[..k], newline)[i] == kept[i] + newline;
    } else {
      assert Complete(kept[..k], newline)[i] == kept[i];
    }
  }

  lemma FrontKeeps(kept: seq<string>, k: nat, names: seq<string>, newline: string)
    requires k <= |kept| && IsNewline(newline) && NoneManaged(kept, names)
    requires forall i :: 0 <= i < k ==> !IsSaveMarker(kept[i])
    ensures
      var front := Complete(kept[..k], newline);
      |front| == k && NoneManaged(front, names) && forall i :: 0 <= i < k ==> !IsSaveMarker(front[i])
  {
    var front := Complete(kept[..k], newline);
    forall l | l in front ensures !IsManaged(l, names) {
      var i :| 0 <= i < |front| && front[i] == l;
      FrontLine(kept, k, i, newline);
      assert kept[i] in kept;
    }
    forall i | 0 <= i < k ensures !IsSaveMarker(front[i]) {
      FrontLine(kept, k, i, newline);
    }
  }

  lemma PartsKeep(front: seq<string>, includes: seq<string>, back: seq<string>, names: seq<string>)
    requires NoneManaged(front, names) && NoneManaged(back, names)
    requires forall l :: l in includes ==> IsManaged(l, names)
    ensures Without(front + includes + back, names) == front + back
  {
    assert Without(front + includes, names) == front by {
      WithoutConcat(front, includes, names);
      WithoutNone(front, names);
      WithoutAll(includes, names);
      assert front + [] == front;
    }
    assert Without(back, names) == back by { WithoutNone(back, names); }
    WithoutConcat(front + includes, back, names);
  }

  /** The unmanaged lines of a patched text, and where its anchor is. */
  lemma PatchedKeeps(lines: seq<string>, names: seq<string>, newline: string)
    requires AreLines(lines, '\n') && Managed(names) && IsNewline(newline)
    ensures
      var kept := Without(lines, names);
      var k := Anchor(kept);
      && Without(Patched(lines, names, newline), names) == Complete(kept[..k], newline) + kept[k..]
      && Anchor(Complete(kept[..k], newline) + kept[k..]) == k
  {
    KeptLines(lines, names);
    var kept := Without(lines, names);
    var k := Anchor(kept);
    var front, back := Complete(kept[..k], newline), kept[k..];
    FrontKeeps(kept, k, names, newline);
    AnchorIs(front + back, k);
    IncludeLinesAreManaged(names, newline);
    assert NoneManaged(back, names) by { assert forall l :: l in back ==> l in kept; }
    PartsKeep(front, IncludeLines(names, newline), back, names);
  }

  lemma {:induction false} AnchorIs(lines: seq<string>, k: nat)
    requires k <= |lines| && (forall i :: 0 <= i < k ==> !IsSaveMarker(lines[i]))
    requires k < |lines| ==> IsSaveMarker(lines[k])
    ensures Anchor(lines) == k
  {
    if k > 0 {
      AnchorIs(lines[1..], k - 1);
    }
  }

  /** Patching patched lines changes nothing. */
  lemma PatchedAgain(lines: seq<string>, names: seq<string>, newline: string)
    requires AreLines(lines, '\n') && Managed(names) && IsNewline(newline)
    ensures Patched(Patched(lines, names, newline), names, newline) == Patched(lines, names, newline)
  {
    PatchedKeeps(lines, names, newline);
    var kept := Without(lines, names);
    var k := Anchor(kept);
    var front := Complete(kept[..k], newline);
    assert (front + kept[k..])[..k] == front && (front + kept[k..])[k..] == kept[k..];
  }

  lemma MacroIsUnmanaged(line: string, names: seq<string>)
    requires Managed(names) && IsInclude(line, MACRO)
    ensures !IsManaged(line, names)
  {
    assert Lower(MACRO) == "macro.cfg";
    forall i | 0 <= i < |names| ensures !IsInclude(line, names[i]) {
      if Opens(Body(line), names[i]) { OneName(Body(line), MACRO, names[i]); }
    }
  }

  /** The Macro.cfg include survives, so the second call does not raise. */
  lemma MacroStays(lines: seq<string>, names: seq<string>, newline: string)
    requires AreLines(lines, '\n') && Managed(names) && IsNewline(newline) && HasMacro(lines)
    ensures HasMacro(Patched(lines, names, newline))
  {
    KeptLines(lines, names);
    var kept := Without(lines, names);
    var m :| 0 <= m < |lines| && IsInclude(lines[m], MACRO);
    MacroIsUnmanaged(lines[m], names);
    var j :| 0 <= j < |kept| && kept[j] == lines[m];
    KeptLineAt(lines, names, newline, j);
  }

  /** Where a kept line stands in the patched text. */
  lemma KeptLineAt(lines: seq<string>, names: seq<string>, newline: string, j: nat)
    requires j < |Without(lines, names)| && IsNewline(newline)
    ensures
      var kept := Without(lines, names);
      var all := Patched(lines, names, newline);
      var at := if j < Anchor(kept) then j else j + |names|;
      && |all| == |kept| + |names|
      && (forall name :: IsInclude(all[at], name) == IsInclude(kept[j], name))
      && (j >= Anchor(kept) ==> all[at] == kept[j])
  {
    var kept := Without(lines, names);
    var k := Anchor(kept);
    if j < k {
      FrontLine(kept, k, j, newline);
      assert Patched(lines, names, newline)[j] == Complete(kept[..k], newline)[j];
    } else if k > 0 {
      FrontLine(kept, k, 0, newline);
    }
  }

  /** The second call reports no change. */
  lemma PatchIsIdempotent(text: string, names: seq<string>)
    requires LfCrlf(text) && Managed(names) && HasMacro(SplitLines(text, '\n'))
    ensures
      var proposed := Join(Patched(SplitLines(text, '\n'), names, NewlineOf(text)));
      && LfCrlf(proposed) && HasMacro(SplitLines(proposed, '\n'))
      && Join(Patched(SplitLines(proposed, '\n'), names, NewlineOf(proposed))) == proposed
  {
    var lines, newline := SplitLines(text, '\n'), NewlineOf(text);
    SplitLinesAreLines(text, '\n');
    SplitIsLfCrlf(text, lines);
    PatchedLines(lines, names, newline);
    JoinSplits(Patched(lines, names, newline), '\n');
    SameNewline(text, names);
    MacroStays(lines, names, newline);
    PatchedAgain(lines, names, newline);
  }

  /** Where an include stands among lines that are none of the managed ones. */
  lemma IncludesAt(front: seq<string>, back: seq<string>, names: seq<string>, newline: string, i: nat, j: nat)
    requires Managed(names) && IsNewline(newline) && NoneManaged(front, names) && NoneManaged(back, names)
    requires i < |names| && j < |front| + |names| + |back|
    ensures IsInclude((front + IncludeLines(names, newline) + back)[j], names[i]) <==> j == |front| + i
  {
    if j < |front| {
      assert front[j] in front;
    } else if j < |front| + |names| {
      IncludesOnly(names, j - |front|, i, newline);
    } else {
      assert back[j - |front| - |names|] in back;
    }
  }

  /** The managed includes stand together, each once and in order, right before the marker or at
      the end. All other lines are the kept ones, in order. */
  lemma PatchedIncludes(lines: seq<string>, names: seq<string>, newline: string)
    requires AreLines(lines, '\n') && Managed(names) && IsNewline(newline)
    ensures IsPatched(Without(lines, names), Patched(lines, names, newline), names, newline)
  {
    KeptLines(lines, names);
    var kept := Without(lines, names);
    var k := Anchor(kept);
    var front, back := Complete(kept[..k], newline), kept[k..];
    FrontKeeps(kept, k, names, newline);
    assert NoneManaged(back, names) by { assert forall l :: l in back ==> l in kept; }
    var all := front + IncludeLines(names, newline) + back;
    forall i, j | 0 <= i < |names| && 0 <= j < |all| ensures IsInclude(all[j], names[i]) <==> j == k + i {
      IncludesAt(front, back, names, newline, i, j);
    }
  }

  /** All is kept with the managed includes put in before the first marker. */
  ghost predicate IsPatched(kept: seq<string>, all: seq<string>, names: seq<string>, newline: string) {
    var k := Anchor(kept);
    && |all| == |kept| + |names|
    && (forall i, j :: 0 <= i < |names| && 0 <= j < |all| ==> (IsInclude(all[j], names[i]) <==> j == k + i))
    && all[..k] == Complete(kept[..k], newline) && all[k + |names|..] == kept[k..]
  }

  /** Read back line by line, the patched text is that. */
  lemma EachIncludeOnce(text: string, names: seq<string>)
    requires LfCrlf(text) && Managed(names)
    ensures
      var proposed := Join(Patched(SplitLines(text, '\n'), names, NewlineOf(text)));
      IsPatched(Without(SplitLines(text, '\n'), names), SplitLines(proposed, '\n'), names, NewlineOf(text))
  {
    var lines, newline := SplitLines(text, '\n'), NewlineOf(text);
    SplitLinesAreLines(text, '\n');
    SplitIsLfCrlf(text, lines);
    PatchedLines(lines, names, newline);
    JoinSplits(Patched(lines, names, newline), '\n');
    PatchedIncludes(lines, names, newline);
  }

  // ------------------------------------------------------ patch_printer_cfg

  function EndingOf(line: string): string {
    if |line| > 1 && line[|line| - 2..] == "\r\n" then "\r\n" else "\n"
  }

  predicate HasInclude(lines: seq<string>, name: string) { exists i :: 0 <= i < |lines| && IsInclude(lines[i], name) }

  predicate IsFirstMacro(lines: seq<string>, m: nat) {
    m < |lines| && IsInclude(lines[m], MACRO) && forall i :: 0 <= i < m ==> !IsInclude(lines[i], MACRO)
  }

  /** The include put in after line m. */
  function Inserted(lines: seq<string>, m: nat, name: string): seq<string>
    requires m < |lines|
  {
    lines[..m + 1] + [IncludeLine(name, EndingOf(lines[m]))] + lines[m + 1..]
  }

  /** patch_printer_cfg: puts the include after the first Macro.cfg include, unless it is there. */
  method PatchPrinter(text: string, name: string) returns (r: Result<(string, bool)>)
    ensures HasInclude(SplitLines(text, '\n'), name) ==> r == Ok((text, false))
    ensures !HasInclude(SplitLines(text, '\n'), name) && !HasMacro(SplitLines(text, '\n')) ==> r == Raised
    ensures !HasInclude(SplitLines(text, '\n'), name) ==> forall m: nat :: IsFirstMacro(SplitLines(text, '\n'), m) ==>
      r == Ok((Join(Inserted(SplitLines(text, '\n'), m, name)), true))
  {
    var lines := SplitLines(text, '\n');
    if HasInclude(lines, name) { return Ok((text, false)); }
    for index := 0 to |lines|
      invariant forall i :: 0 <= i < index ==> !IsInclude(lines[i], MACRO)
    {
      if IsInclude(lines[index], MACRO) {
        return Ok((Join(Inserted(lines, index, name)), true));
      }
    }
    r := Raised;
  }

  lemma UnendedIsLast(lines: seq<string>, m: nat)
    requires AreLines(lines, '\n') && m < |lines| && !Ended(lines[m])
    ensures m == |lines| - 1
  {
    assert IsLine(lines[m], m == |lines| - 1, '\n');
  }

  /** An include written behind an unended Macro.cfg include is lost. */
  lemma GluedIsLost(line: string, name: string, newline: string)
    requires FileName(name) && Lower(name) != "macro.cfg" && IsNewline(newline)
    requires IsInclude(line, MACRO) && !Ended(line)
    ensures !IsInclude(line + IncludeLine(name, newline), name)
  {
    var s := "[include " + name + "]";
    BodyOfEnded(line + s, newline);
    assert line + IncludeLine(name, newline) == line + s + newline;
    assert Body(line + s) == line + s && Body(line) == line;
    OpensExtends(line, MACRO, s);
    assert Lower(MACRO) == "macro.cfg";
    if Opens(line + s, name) { OneName(line + s, MACRO, name); }
  }

  lemma GluedLines(lines: seq<string>, m: nat, name: string)
    requires AreLines(lines, '\n') && m < |lines| && !Ended(lines[m]) && FileName(name)
    ensures SplitLines(Join(Inserted(lines, m, name)), '\n') ==
            lines[..m] + [lines[m] + IncludeLine(name, EndingOf(lines[m]))]
  {
    UnendedIsLast(lines, m);
    var added := IncludeLine(name, EndingOf(lines[m]));
    var glued := lines[..m] + [lines[m] + added];
    assert Inserted(lines, m, name) == lines[..m] + [lines[m], added];
    JoinOfConcat(lines[..m], [lines[m], added]);
    JoinOfConcat(lines[..m], [lines[m] + added]);
    assert [lines[m], added][1..] == [added];
    assert Join([added]) == added && Join([lines[m] + added]) == lines[m] + added;
    IncludeLineIsOneLine(name, EndingOf(lines[m]));
    forall i | 0 <= i < |glued| ensures IsLine(glued[i], i == |glued| - 1, '\n') {
      assert IsLine(lines[i], i == |lines| - 1, '\n');
      if i == m { GluedIsOneLine(lines[m], added); }
    }
    JoinSplits(glued, '\n');
  }

  lemma GluedIsOneLine(a: string, b: string)
    requires IsLine(a, true, '\n') && !Ended(a) && IsLine(b, false, '\n')
    ensures IsLine(a + b, true, '\n')
  {
    forall k | 0 <= k < |a + b| - 1 ensures (a + b)[k] != '\n' {
      if k < |a| { assert a[k] != '\n'; } else { assert b[k - |a|] != '\n'; }
    }
  }

  lemma InsertedLines(lines: seq<string>, m: nat, name: string)
    requires AreLines(lines, '\n') && m < |lines| && Ended(lines[m]) && FileName(name)
    requires LfCrlf(lines[m])
    ensures SplitLines(Join(Inserted(lines, m, name)), '\n') == Inserted(lines, m, name)
  {
    var all := Inserted(lines, m, name);
    IncludeLineIsOneLine(name, EndingOf(lines[m]));
    forall i | 0 <= i < |all| ensures IsLine(all[i], i == |all| - 1, '\n') {
      if i <= m { assert IsLine(lines[i], i == |lines| - 1, '\n'); }
      if i > m + 1 { assert IsLine(lines[i - 1], i - 1 == |lines| - 1, '\n'); }
    }
    JoinSplits(all, '\n');
  }

  /** A second call finds the include, and so reports no change, exactly if the Macro.cfg include it
      was put behind had a line ending; otherwise the two end up on one line. */
  lemma SecondCallFindsIt(text: string, m: nat, name: string)
    requires LfCrlf(text) && FileName(name) && Lower(name) != "macro.cfg"
    requires !HasInclude(SplitLines(text, '\n'), name) && IsFirstMacro(SplitLines(text, '\n'), m)
    ensures
      var lines := SplitLines(text, '\n');
      HasInclude(SplitLines(Join(Inserted(lines, m, name)), '\n'), name) <==> Ended(lines[m])
  {
    var lines := SplitLines(text, '\n');
    SplitLinesAreLines(text, '\n');
    SplitIsLfCrlf(text, lines);
    var after := SplitLines(Join(Inserted(lines, m, name)), '\n');
    if Ended(lines[m]) {
      InsertedLines(lines, m, name);
      IncludeLineIsInclude(name, EndingOf(lines[m]));
      assert IsInclude(after[m + 1], name);
    } else {
      GluedLines(lines, m, name);
      GluedIsLost(lines[m], name, EndingOf(lines[m]));
      forall i | 0 <= i < |after| ensures !IsInclude(after[i], name) {
        if i < m { assert after[i] == lines[i]; }
      }
    }
  }

  /** An include on its own, without a line ending. */
  function Unended(name: string): string { "[include " + name + "]" }

  lemma UnendedIsInclude(name: string)
    requires FileName(name)
    ensures IsInclude(Unended(name), name) && Body(Unended(name)) == Unended(name) && !Ended(Unended(name))
  {
    IncludeLineIsInclude(name, "\n");
    assert IncludeLine(name, "\n") == Unended(name) + "\n";
    BodyOfEnded(Unended(name), "\n");
  }

  predicate OnlyPlain(s: string) { forall i :: 0 <= i < |s| ==> s[i] != '\n' && s[i] != '\r' && !IsOtherBreak(s[i]) }

  lemma UnendedIsOneLine(name: string)
    requires FileName(name)
    ensures SplitLines(Unended(name), '\n') == [Unended(name)] && LfCrlf(Unended(name))
  {
    var s := Unended(name);
    assert forall c :: c in "[include " ==> c != '\n' && c != '\r' && !IsOtherBreak(c);
    forall i | 0 <= i < |s| ensures s[i] != '\n' && s[i] != '\r' && !IsOtherBreak(s[i]) {
      assert i < 9 ==> s[i] == "[include "[i];
      assert 9 <= i < 9 + |name| ==> s[i] in name;
    }
    var none: seq<string> := [];
    assert Join([s]) == s by { assert [s][1..] == none; }
    JoinSplits([s], '\n');
  }

  /** A printer.cfg that is one unended Macro.cfg include: the first call reports a change, and the
      second does not find it. */
  lemma UnendedIsLost(macro: string, name: string)
    requires macro == MACRO && FileName(macro) && Lower(macro) == "macro.cfg"
    requires FileName(name) && Lower(name) != "macro.cfg"
    ensures
      var lines := SplitLines(Unended(macro), '\n');
      && IsFirstMacro(lines, 0) && !HasInclude(lines, name)
      && !HasInclude(SplitLines(Join(Inserted(lines, 0, name)), '\n'), name)
  {
    var s := Unended(macro);
    UnendedIsInclude(macro);
    UnendedIsOneLine(macro);
    if IsInclude(s, name) { OneName(Body(s), name, macro); }
    SecondCallFindsIt(s, 0, name);
  }

  const KNOB := "macro_z_tilt_via_knob.cfg"

  /** So it is for the macro file the patcher was written for. */
  lemma KnobIsLost()
    ensures
      var lines := SplitLines(Unended(MACRO), '\n');
      && IsFirstMacro(lines, 0) && !HasInclude(lines, KNOB)
      && !HasInclude(SplitLines(Join(Inserted(lines, 0, KNOB)), '\n'), KNOB)
  {
    KnobIsFileName(MACRO, KNOB);
    UnendedIsLost(MACRO, KNOB);
  }

  lemma KnobIsFileName(macro: string, knob: string)
    requires macro == MACRO && knob == KNOB
    ensures FileName(macro) && Lower(macro) == "macro.cfg" && FileName(knob) && Lower(knob) != "macro.cfg"
  {
    assert |Lower(knob)| == 25;
  }
}
