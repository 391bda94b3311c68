// The .metiche file (cli/internal/binding/binding.go): reading it, writing a
// fresh one, and changing only its team and project lines.
module Binding {
  import opened Editing
  import opened Entries
  import opened Model
  import opened Sorting
  import opened Text

  // ---------------------------------------------------------------- lines

  // The longest line the scanner hands over; a longer one ends the reading.
  const LONGEST := 65535

  // The lines of a text, without the newline that ends each.
  function Lines(text: string): (ls: seq<string>)
    ensures forall l :: l in ls ==> '\n' !in l
  {
    var parts := Split(text, '\n');
    if parts[|parts| - 1] == "" then parts[..|parts| - 1] else parts
  }

  function Unlines(ls: seq<string>): string {
    if ls == [] then "" else ls[0] + "\n" + Unlines(ls[1..])
  }

  ghost predicate NoBreaks(ls: seq<string>) {
    forall i :: 0 <= i < |ls| ==> '\n' !in ls[i]
  }

  lemma {:induction false} UnlinesConcat(a: seq<string>, b: seq<string>)
    ensures Unlines(a + b) == Unlines(a) + Unlines(b)
  {
    if a == [] {
      assert a + b == b;
    } else {
      assert (a + b)[1..] == a[1..] + b;
      UnlinesConcat(a[1..], b);
    }
  }

  lemma {:induction false} UnlinesJoin(ls: seq<string>)
    ensures Unlines(ls) == Join(ls + [""], '\n')
  {
    if ls != [] {
      assert (ls + [""])[1..] == ls[1..] + [""];
      UnlinesJoin(ls[1..]);
    }
  }

  // Lines undoes Unlines.
  lemma LinesBack(ls: seq<string>)
    requires NoBreaks(ls)
    ensures Lines(Unlines(ls)) == ls
  {
    UnlinesJoin(ls);
    SplitJoin(ls + [""], '\n');
  }

  lemma {:induction false} UnlinesEnd(ls: seq<string>, last: string)
    ensures Unlines(ls) + last == Join(ls + [last], '\n')
  {
    if ls == [] {
      assert [] + [last] == [last];
    } else {
      assert (ls + [last])[1..] == ls[1..] + [last];
      UnlinesEnd(ls[1..], last);
    }
  }

  // What follows the last newline is a line too, unless nothing does.
  lemma LinesOpen(ls: seq<string>, last: string)
    requires NoBreaks(ls) && '\n' !in last && last != ""
    ensures Lines(Unlines(ls) + last) == ls + [last]
  {
    UnlinesEnd(ls, last);
    SplitJoin(ls + [last], '\n');
  }

  // ---------------------------------------------------------------- one line

  function CutComment(line: string): string {
    var i := IndexOf(line, '#');
    if i < 0 then line else line[..i]
  }

  // The key and value of a line, if it has any.
  function SplitLine(line: string): Option<Entry> {
    EntryIn(CutComment(line))
  }

  function EntryIn(l: string): Option<Entry> {
    var i := IndexOf(l, '=');
    if i < 0 then None
    else
      var k := TrimSpace(l[..i]);
      if k == "" then None else Some(Entry(ToLower(k), TrimSpace(l[i + 1..])))
  }

  function DropCR(line: string): string {
    if HasSuffix(line, "\r") then line[..|line| - 1] else line
  }

  predicate Has(line: string, key: string) {
    SplitLine(line).Some? && SplitLine(line).value.key == key
  }

  function Written(key: string, value: string): string {
    key + " = " + value
  }

  // A value a line can carry: no comment sign and no white space around it.
  predicate Carried(value: string) {
    '#' !in value && NoOuterSpace(value)
  }

  predicate Legal(value: string) {
    value != "" && Carried(value) && '\n' !in value
  }

  // A key a line can name, in any letter case.
  predicate KeyText(key: string) {
    key != "" && NoOuterSpace(key) && '#' !in key && '=' !in key && '\n' !in key
  }

  lemma TrimIsShort(s: string)
    ensures |TrimSpace(s)| <= |s| && (TrimSpace(s) == s <==> NoOuterSpace(s))
  {
    if NoOuterSpace(s) { TrimSpaceKeeps(s); }
  }

  lemma CutWritten(key: string, value: string)
    requires KeyText(key)
    ensures CutComment(Written(key, value)) == Written(key, CutComment(value))
  {
    var pre := key + " = ";
    assert '#' !in pre;
    var line := pre + value;
    if '#' in value {
      var i := IndexOf(value, '#');
      assert value == value[..i] + ['#'] + value[i + 1..];
      assert line == (pre + value[..i]) + ['#'] + value[i + 1..];
      IndexOfAfter(pre + value[..i], '#', value[i + 1..]);
    }
  }

  lemma EqualsAt(key: string, value: string)
    requires '=' !in key
    ensures IndexOf(Written(key, value), '=') == |key| + 1
    ensures Written(key, value)[..|key| + 1] == key + " " && Written(key, value)[|key| + 2..] == " " + value
  {
    assert Written(key, value) == (key + " ") + ['='] + (" " + value);
    IndexOfAfter(key + " ", '=', " " + value);
  }

  lemma TrimKey(key: string)
    requires KeyText(key)
    ensures TrimSpace(key + " ") == key
  {
    TrimSpacePadded("", key, " ");
    assert "" + key + " " == key + " ";
  }

  lemma SplitWritten(key: string, value: string)
    requires KeyText(key) && '#' !in value
    ensures SplitLine(Written(key, value)) == Some(Entry(ToLower(key), TrimSpace(" " + value)))
  {
    CutWritten(key, value);
    EqualsAt(key, value);
    TrimKey(key);
  }

  lemma TrimLeading(value: string)
    ensures TrimSpace(" " + value) == TrimSpace(value)
  {
    assert (" " + value)[1..] == value;
  }

  // A line is read back as its key, in small letters, and its value if and only
  // if the value holds no comment sign and is not padded with white space.
  lemma WrittenReads(key: string, value: string)
    requires KeyText(key)
    ensures SplitLine(Written(key, value)) == Some(Entry(ToLower(key), value)) <==> Carried(value)
  {
    CutWritten(key, value);
    SplitWritten(key, CutComment(value));
    SplitCut(Written(key, value));
    TrimLeading(CutComment(value));
    TrimIsShort(CutComment(value));
  }

  // A comment never changes what a line says.
  lemma SplitCut(line: string)
    ensures SplitLine(CutComment(line)) == SplitLine(line) && '#' !in CutComment(line)
  {
    assert CutComment(CutComment(line)) == CutComment(line);
  }

  lemma {:induction false} TrimLeftAppend(s: string, c: char)
    requires IsSpace(c)
    ensures TrimLeft(s + [c]) == if TrimLeft(s) == "" then "" else TrimLeft(s) + [c]
  {
    if s == "" {
      assert s + [c] == [c];
      assert [c][1..] == "";
    } else if IsSpace(s[0]) {
      assert (s + [c])[1..] == s[1..] + [c];
      TrimLeftAppend(s[1..], c);
    }
  }

  lemma TrimAppend(s: string, c: char)
    requires IsSpace(c)
    ensures TrimSpace(s + [c]) == TrimSpace(s)
  {
    TrimLeftAppend(s, c);
    var t := TrimLeft(s);
    assert (t + [c])[..|t|] == t;
  }

  lemma IndexOfAppend(s: string, x: char, c: char)
    requires x != c
    ensures IndexOf(s + [c], x) == IndexOf(s, x)
  {
    if x in s {
      var i := IndexOf(s, x);
      assert s == s[..i] + [x] + s[i + 1..];
      assert s + [c] == s[..i] + [x] + (s[i + 1..] + [c]);
      IndexOfAfter(s[..i], x, s[i + 1..] + [c]);
    }
  }

  lemma EntryPadded(l: string, c: char)
    requires IsSpace(c)
    ensures EntryIn(l + [c]) == EntryIn(l)
  {
    var i := IndexOf(l, '=');
    IndexOfAppend(l, '=', c);
    if i >= 0 {
      assert (l + [c])[..i] == l[..i] && (l + [c])[i + 1..] == l[i + 1..] + [c];
      TrimAppend(l[i + 1..], c);
    }
  }

  // White space at the end of a line never changes what it says.
  lemma SplitPadded(line: string, c: char)
    requires IsSpace(c)
    ensures SplitLine(line + [c]) == SplitLine(line)
  {
    IndexOfAppend(line, '#', c);
    var i := IndexOf(line, '#');
    if i < 0 {
      EntryPadded(line, c);
    } else {
      assert (line + [c])[..i] == line[..i];
    }
  }

  // Nor does white space in front of it.
  lemma SplitIndented(c: char, line: string)
    requires IsSpace(c)
    ensures SplitLine([c] + line) == SplitLine(line)
  {
    var l := [c] + line;
    assert l[1..] == line;
    var i, k := IndexOf(line, '#'), IndexOf(l, '#');
    IndexAfter(c, line, '#');
    if i >= 0 { assert l[..i + 1] == [c] + line[..i]; }
    EntryIndented(c, CutComment(line));
  }

  lemma IndexAfter(c: char, s: string, x: char)
    requires c != x
    ensures IndexOf([c] + s, x) == if IndexOf(s, x) < 0 then -1 else IndexOf(s, x) + 1
  {
    assert ([c] + s)[1..] == s;
  }

  lemma EntryIndented(c: char, l: string)
    requires IsSpace(c)
    ensures EntryIn([c] + l) == EntryIn(l)
  {
    var i := IndexOf(l, '=');
    IndexAfter(c, l, '=');
    if i >= 0 {
      assert ([c] + l)[..i + 1] == [c] + l[..i] && ([c] + l)[i + 2..] == l[i + 1..];
      TrimIndent(c, l[..i]);
    }
  }

  lemma TrimIndent(c: char, s: string)
    requires IsSpace(c)
    ensures TrimSpace([c] + s) == TrimSpace(s)
  {
    assert ([c] + s)[1..] == s;
  }

  // A line without an equals sign before its comment, or without a key before
  // that, says nothing.
  lemma NothingSaid(line: string)
    ensures SplitLine(line).None? <==>
      '=' !in CutComment(line) || forall i :: 0 <= i < IndexOf(CutComment(line), '=') ==> IsSpace(line[i])
  {
    var l := CutComment(line);
    var i := IndexOf(l, '=');
    if i >= 0 {
      var k := l[..i];
      assert forall j :: 0 <= j < i ==> k[j] == line[j];
      if TrimSpace(k) == "" {
        AllSpace(k);
      } else {
        var t := TrimLeft(k);
        assert t != "";
        assert !IsSpace(line[|k| - |t|]);
      }
    }
  }

  lemma AllSpace(k: string)
    requires TrimSpace(k) == ""
    ensures forall j :: 0 <= j < |k| ==> IsSpace(k[j])
  {
    var t := TrimLeft(k);
    assert t == "";
  }

  lemma DropCRSays(line: string)
    ensures SplitLine(DropCR(line)) == SplitLine(line)
  {
    if HasSuffix(line, "\r") {
      assert line == DropCR(line) + ['\r'];
      SplitPadded(DropCR(line), '\r');
    }
  }

  // ---------------------------------------------------------------- parsing

  // What each line says.
  function Said(ls: seq<string>): seq<Option<Entry>> {
    Map(ls, SplitLine)
  }

  function Parsed(ls: seq<string>): File {
    ReadAll(Said(ls)).file
  }

  // The lines read: those before the first that is too long.
  function Scanned(ls: seq<string>): seq<string> {
    Cut(ls, Fits)
  }

  predicate Fits(l: string) {
    |l| <= LONGEST
  }

  function FileOf(text: string): File {
    Parsed(Scanned(Lines(text)))
  }

  lemma ScannedPrefix(ls: seq<string>, i: nat)
    requires i <= |ls| && forall j :: 0 <= j < i ==> |ls[j]| <= LONGEST
    ensures Scanned(ls) == ls[..i] + Scanned(ls[i..])
  {
    CutConcat(ls[..i], ls[i..], Fits);
    assert ls == ls[..i] + ls[i..];
  }

  lemma ScannedStops(ls: seq<string>, i: nat)
    requires i < |ls| && |ls[i]| > LONGEST && forall j :: 0 <= j < i ==> |ls[j]| <= LONGEST
    ensures Scanned(ls) == ls[..i]
  {
    ScannedPrefix(ls, i);
  }

  // One token of the scanner.
  method ReadLine(line: string) returns (entry: Option<Entry>)
    ensures entry == SplitLine(line)
  {
    DropCRSays(line);
    entry := SplitLine(DropCR(line));
  }

  method Take(r: Reading, e: Entry) returns (next: Reading)
    ensures next == After(r, Some(e))
  {
    var f := r.file;
    if e.key in r.seen {
      f := f.(duplicates := f.duplicates + [e.key]);
    }
    if e.key == TEAM {
      f := f.(team := e.value, hasTeam := e.value != "");
    } else if e.key == PROJECT {
      f := f.(project := e.value, hasProject := e.value != "");
    } else {
      f := f.(unknown := f.unknown + [e.key]);
    }
    next := Reading(f, r.seen + {e.key});
  }

  lemma SaidStep(ls: seq<string>, i: nat)
    requires i < |ls|
    ensures Said(ls[..i + 1]) == Said(ls[..i]) + [SplitLine(ls[i])]
  {
    MapAppend(ls[..i], ls[i], SplitLine);
    assert ls[..i + 1] == ls[..i] + [ls[i]];
  }

  lemma ReadStep(ls: seq<string>, i: nat)
    requires i < |ls|
    ensures ReadAll(Said(ls[..i + 1])) == After(ReadAll(Said(ls[..i])), SplitLine(ls[i]))
  {
    SaidStep(ls, i);
    ReadAppend(Said(ls[..i]), SplitLine(ls[i]));
  }

  // The body of the loop over the scanner's tokens.
  method TakeLine(r: Reading, line: string) returns (next: Reading)
    ensures next == After(r, SplitLine(line))
  {
    var entry := ReadLine(line);
    if entry.None? {
      return r;
    }
    next := Take(r, entry.value);
  }

  method ParseLines(lines: seq<string>) returns (r: Reading)
    ensures r == ReadAll(Said(Scanned(lines)))
  {
    r := NOTHING;
    for i := 0 to |lines|
      invariant forall j :: 0 <= j < i ==> |lines[j]| <= LONGEST
      invariant r == ReadAll(Said(lines[..i]))
    {
      if |lines[i]| > LONGEST {
        ScannedStops(lines, i);
        return;
      }
      ReadStep(lines, i);
      r := TakeLine(r, lines[i]);
    }
    ScannedPrefix(lines, |lines|);
    assert lines[..|lines|] == lines && Scanned(lines) == lines;
  }

  method Parse(raw: string) returns (f: File)
    ensures f == FileOf(raw)
  {
    var r := ParseLines(Lines(raw));
    f := r.file;
  }

  // ---------------------------------------------------------------- rewriting

  predicate IsTeam(l: string) { Has(l, TEAM) }

  predicate IsProject(l: string) { Has(l, PROJECT) }

  predicate IsOther(l: string) { !IsTeam(l) && !IsProject(l) }

  function TeamLine(team: string): Option<string> {
    Some(Written(TEAM, team))
  }

  // An empty project has no line.
  function ProjectLine(project: string): Option<string> {
    if project == "" then None else Some(Written(PROJECT, project))
  }

  // What one line becomes, given what was written before it.
  function OutFor(l: string, team: string, project: string, wroteTeam: bool, wroteProject: bool): seq<string> {
    EditedOne(l, IsTeam, IsProject, TeamLine(team), ProjectLine(project), wroteTeam, wroteProject)
  }

  // The lines written from here on.
  function Rest(ls: seq<string>, team: string, project: string, wroteTeam: bool, wroteProject: bool): seq<string> {
    Edited(ls, IsTeam, IsProject, TeamLine(team), ProjectLine(project), wroteTeam, wroteProject)
  }

  function Rewritten(text: string, team: string, project: string): string {
    Unlines(Rest(Lines(text), team, project, false, false))
  }

  // The text cut after each newline.
  function SplitAfter(text: string): seq<string> {
    var parts := Split(text, '\n');
    seq(|parts|, i requires 0 <= i < |parts| => if i < |parts| - 1 then parts[i] + "\n" else parts[i])
  }

  // A cut line says what the line does, and ends in its newline or in none.
  predicate CutFrom(cut: string, l: string) {
    cut == l + "\n" || (cut == l && l != "")
  }

  lemma CutsAreLines(text: string, i: nat)
    requires i < |SplitAfter(text)|
    ensures if i < |Lines(text)| then CutFrom(SplitAfter(text)[i], Lines(text)[i]) else SplitAfter(text)[i] == ""
    ensures |Lines(text)| <= |SplitAfter(text)|
  {
    var parts, cuts, lines := Split(text, '\n'), SplitAfter(text), Lines(text);
    var n := |parts| - 1;
    assert |cuts| == n + 1 && lines == if parts[n] == "" then parts[..n] else parts;
    if i < n {
      assert cuts[i] == parts[i] + "\n" && lines[i] == parts[i];
    } else {
      assert cuts[i] == parts[n];
    }
  }

  lemma NoBreakAtEnd(l: string)
    requires '\n' !in l
    ensures !HasSuffix(l, "\n")
  {
    if l != "" {
      assert l[|l| - 1..] == [l[|l| - 1]] && l[|l| - 1] in l;
    }
  }

  lemma CutSays(cut: string, l: string)
    requires CutFrom(cut, l) && '\n' !in l
    ensures cut != "" && SplitLine(cut) == SplitLine(l)
    ensures (if HasSuffix(cut, "\n") then cut else cut + "\n") == l + "\n"
  {
    NoBreakAtEnd(l);
    if cut == l + "\n" {
      SplitPadded(l, '\n');
      assert cut[|cut| - 1..] == "\n";
    }
  }

  // What splitLine says of a cut line.
  method Classify(cut: string, ghost l: string) returns (isTeam: bool, isProject: bool)
    requires CutFrom(cut, l) && '\n' !in l
    ensures isTeam == IsTeam(l) && isProject == IsProject(l)
  {
    CutSays(cut, l);
    var entry := SplitLine(cut);
    isTeam := entry.Some? && entry.value.key == TEAM;
    isProject := entry.Some? && entry.value.key == PROJECT;
  }

  lemma UnlinesOne(l: string)
    ensures Unlines([l]) == l + "\n"
  {
    assert [l][1..] == [];
    assert Unlines([]) == "";
  }

  // The body of the loop over the cut lines: what it writes, and which flag it
  // raises.
  method RewriteLine(cut: string, ghost l: string, team: string, project: string, wroteTeam: bool, wroteProject: bool)
    returns (more: string, isTeam: bool, isProject: bool)
    requires CutFrom(cut, l) && '\n' !in l
    ensures more == Unlines(OutFor(l, team, project, wroteTeam, wroteProject))
    ensures isTeam == IsTeam(l) && isProject == IsProject(l)
  {
    more := "";
    isTeam, isProject := Classify(cut, l);
    if isTeam {
      if !wroteTeam {
        UnlinesOne(Written(TEAM, team));
        more := Written(TEAM, team) + "\n";
      }
    } else if isProject {
      if !wroteProject && project != "" {
        UnlinesOne(Written(PROJECT, project));
        more := Written(PROJECT, project) + "\n";
      }
    } else {
      CutSays(cut, l);
      UnlinesOne(l);
      more := if HasSuffix(cut, "\n") then cut else cut + "\n";
    }
  }

  lemma OneClass(l: string)
    ensures !(IsTeam(l) && IsProject(l))
  {
    assert TEAM[0] != PROJECT[0];
  }

  // What is written after the last line.
  method RewriteEnd(team: string, project: string, wroteTeam: bool, wroteProject: bool) returns (more: string)
    ensures more == Unlines(Rest([], team, project, wroteTeam, wroteProject))
  {
    more := "";
    if !wroteTeam {
      UnlinesOne(Written(TEAM, team));
      more := more + (Written(TEAM, team) + "\n");
    }
    UnlinesConcat(Once(TeamLine(team), wroteTeam), Once(ProjectLine(project), wroteProject));
    if !wroteProject && project != "" {
      UnlinesOne(Written(PROJECT, project));
      more := more + (Written(PROJECT, project) + "\n");
    }
  }

  lemma RestStep(ls: seq<string>, k: nat, team: string, project: string, wroteTeam: bool, wroteProject: bool)
    requires k < |ls|
    ensures Rest(ls[k..], team, project, wroteTeam, wroteProject)
      == OutFor(ls[k], team, project, wroteTeam, wroteProject)
       + Rest(ls[k + 1..], team, project, wroteTeam || IsTeam(ls[k]), wroteProject || IsProject(ls[k]))
  {
    EditedStep(ls, k, IsTeam, IsProject, TeamLine(team), ProjectLine(project), wroteTeam, wroteProject);
  }

  // The lines out so far and those to come are the lines to be written.
  ghost predicate OnTheWay(done: seq<string>, ls: seq<string>, k: nat, team: string, project: string, wroteTeam: bool, wroteProject: bool) {
    k <= |ls| && done + Rest(ls[k..], team, project, wroteTeam, wroteProject) == Rest(ls, team, project, false, false)
  }

  lemma OneMore(done: seq<string>, ls: seq<string>, k: nat, team: string, project: string,
                wroteTeam: bool, wroteProject: bool, isTeam: bool, isProject: bool)
    requires OnTheWay(done, ls, k, team, project, wroteTeam, wroteProject) && k < |ls|
    requires isTeam == IsTeam(ls[k]) && isProject == IsProject(ls[k])
    ensures OnTheWay(done + OutFor(ls[k], team, project, wroteTeam, wroteProject), ls, k + 1, team, project,
                     wroteTeam || isTeam, wroteProject || isProject)
  {
    RestStep(ls, k, team, project, wroteTeam, wroteProject);
    Assoc(done, OutFor(ls[k], team, project, wroteTeam, wroteProject),
      Rest(ls[k + 1..], team, project, wroteTeam || isTeam, wroteProject || isProject));
  }

  lemma Assoc(a: seq<string>, b: seq<string>, c: seq<string>)
    ensures a + (b + c) == (a + b) + c
  {
  }

  method RewriteStep(cut: string, out0: string, ghost done0: seq<string>, ghost ls: seq<string>, ghost k: nat,
                     team: string, project: string, wroteTeam0: bool, wroteProject0: bool)
    returns (out: string, wroteTeam: bool, wroteProject: bool, ghost done: seq<string>)
    requires k < |ls| && CutFrom(cut, ls[k]) && '\n' !in ls[k]
    requires out0 == Unlines(done0) && OnTheWay(done0, ls, k, team, project, wroteTeam0, wroteProject0)
    ensures out == Unlines(done) && OnTheWay(done, ls, k + 1, team, project, wroteTeam, wroteProject)
  {
    ghost var lines := OutFor(ls[k], team, project, wroteTeam0, wroteProject0);
    var more, isTeam, isProject := RewriteLine(cut, ls[k], team, project, wroteTeam0, wroteProject0);
    OneMore(done0, ls, k, team, project, wroteTeam0, wroteProject0, isTeam, isProject);
    UnlinesConcat(done0, lines);
    done := done0 + lines;
    out := out0 + more;
    wroteTeam, wroteProject := wroteTeam0 || isTeam, wroteProject0 || isProject;
  }

  lemma NothingDone(ls: seq<string>, team: string, project: string)
    ensures OnTheWay([], ls, 0, team, project, false, false)
  {
    assert ls[0..] == ls;
  }

  method RewriteLines(lines: seq<string>, ghost ls: seq<string>, team: string, project: string)
    returns (out: string, wroteTeam: bool, wroteProject: bool, ghost done: seq<string>)
    requires |ls| <= |lines| && forall i :: 0 <= i < |ls| ==> CutFrom(lines[i], ls[i]) && '\n' !in ls[i]
    requires forall i :: |ls| <= i < |lines| ==> lines[i] == ""
    ensures out == Unlines(done) && OnTheWay(done, ls, |ls|, team, project, wroteTeam, wroteProject)
  {
    out, wroteTeam, wroteProject, done := "", false, false, [];
    ghost var k := 0;
    NothingDone(ls, team, project);
    for i := 0 to |lines|
      invariant k == if i < |ls| then i else |ls|
      invariant out == Unlines(done) && OnTheWay(done, ls, k, team, project, wroteTeam, wroteProject)
    {
      var line := lines[i];
      if line == "" {
        continue;
      }
      out, wroteTeam, wroteProject, done := RewriteStep(line, out, done, ls, k, team, project, wroteTeam, wroteProject);
      k := k + 1;
    }
  }

  method Rewrite(existing: string, team: string, project: string) returns (out: string)
    ensures out == Rewritten(existing, team, project)
  {
    var lines := SplitAfter(existing);
    ghost var ls := Lines(existing);
    LinesFit(existing);
    forall i | 0 <= i < |lines| ensures if i < |ls| then CutFrom(lines[i], ls[i]) && '\n' !in ls[i] else lines[i] == "" {
      CutsAreLines(existing, i);
      if i < |ls| { assert ls[i] in ls; }
    }
    var wroteTeam, wroteProject;
    ghost var done;
    out, wroteTeam, wroteProject, done := RewriteLines(lines, ls, team, project);
    assert ls[|ls|..] == [];
    var more := RewriteEnd(team, project, wroteTeam, wroteProject);
    UnlinesConcat(done, Rest([], team, project, wroteTeam, wroteProject));
    out := out + more;
  }

  lemma LinesFit(text: string)
    ensures |Lines(text)| <= |SplitAfter(text)|
  {
  }

  // ---------------------------------------------------------------- what a rewrite changes

  ghost predicate LegalPair(team: string, project: string) {
    Legal(team) && (project != "" ==> Legal(project))
  }

  lemma WrittenIs(key: string, value: string)
    requires (key == TEAM || key == PROJECT) && Legal(value)
    ensures SplitLine(Written(key, value)) == Some(Entry(key, value)) && Has(Written(key, value), key)
  {
    assert KeyText(key) && ToLower(key) == key;
    WrittenReads(key, value);
  }

  lemma TeamLineIs(team: string)
    requires Legal(team)
    ensures IsTeam(Written(TEAM, team))
  {
    WrittenIs(TEAM, team);
  }

  lemma ProjectLineIs(project: string)
    requires Legal(project)
    ensures IsProject(Written(PROJECT, project))
  {
    WrittenIs(PROJECT, project);
  }

  lemma LinesApart(team: string, project: string)
    requires LegalPair(team, project)
    ensures Apart(IsTeam, IsProject, IsOther, TeamLine(team), ProjectLine(project))
  {
    forall l ensures !(IsTeam(l) && IsProject(l)) {
      OneClass(l);
    }
    TeamLineIs(team);
    if project != "" { ProjectLineIs(project); }
  }

  lemma {:induction false} EditedUnbroken(ls: seq<string>, a: Option<string>, b: Option<string>, wroteA: bool, wroteB: bool,
                                          isA: string -> bool, isB: string -> bool)
    requires NoBreaks(ls) && (a.Some? ==> '\n' !in a.value) && (b.Some? ==> '\n' !in b.value)
    ensures NoBreaks(Edited(ls, isA, isB, a, b, wroteA, wroteB))
  {
    if ls != [] {
      EditedUnbroken(ls[1..], a, b, wroteA || isA(ls[0]), wroteB || isB(ls[0]), isA, isB);
    }
  }

  lemma RewrittenLines(text: string, team: string, project: string)
    requires LegalPair(team, project)
    ensures Lines(Rewritten(text, team, project)) == Rest(Lines(text), team, project, false, false)
  {
    var ls := Lines(text);
    forall i | 0 <= i < |ls| ensures '\n' !in ls[i] {
      assert ls[i] in ls;
    }
    EditedUnbroken(ls, TeamLine(team), ProjectLine(project), false, false, IsTeam, IsProject);
    LinesBack(Rest(ls, team, project, false, false));
  }

  // For any text, a rewrite writes its team line once and its project line once
  // (or not at all), keeps every other line in order, and a second rewrite
  // changes nothing.
  lemma RewriteChanges(text: string, team: string, project: string)
    requires LegalPair(team, project)
    ensures var out := Rewritten(text, team, project);
      && Only(Lines(out), IsTeam) == [Written(TEAM, team)]
      && Only(Lines(out), IsProject) == (if project == "" then [] else [Written(PROJECT, project)])
      && Only(Lines(out), IsOther) == Only(Lines(text), IsOther)
      && Rewritten(out, team, project) == out
  {
    RewrittenLines(text, team, project);
    LinesApart(team, project);
    EditedClasses(Lines(text), IsTeam, IsProject, IsOther, TeamLine(team), ProjectLine(project), false, false);
    EditedFixed(Rest(Lines(text), team, project, false, false), IsTeam, IsProject, IsOther,
      TeamLine(team), ProjectLine(project), false, false);
  }

  // ---------------------------------------------------------------- reading what was written

  lemma SaidClasses(ls: seq<string>)
    ensures Only(Said(ls), ForTeam) == Said(Only(ls, IsTeam))
    ensures Only(Said(ls), ForProject) == Said(Only(ls, IsProject))
    ensures Only(Said(ls), ForOther) == Said(Only(ls, IsOther))
  {
    MapOnly(ls, SplitLine, IsTeam, ForTeam);
    MapOnly(ls, SplitLine, IsProject, ForProject);
    MapOnly(ls, SplitLine, IsOther, ForOther);
  }

  // No line outruns the scanner.
  ghost predicate AllShort(ls: seq<string>) {
    forall l :: l in ls ==> |l| <= LONGEST
  }

  lemma ShortAreScanned(ls: seq<string>)
    requires AllShort(ls)
    ensures Scanned(ls) == ls
  {
    forall i | 0 <= i < |ls| ensures |ls[i]| <= LONGEST {
      assert ls[i] in ls;
    }
    ScannedPrefix(ls, |ls|);
    assert ls[..|ls|] == ls && ls[|ls|..] == [];
  }

  ghost predicate FitsLine(team: string, project: string) {
    |Written(TEAM, team)| <= LONGEST && |Written(PROJECT, project)| <= LONGEST
  }

  lemma RewrittenShort(text: string, team: string, project: string)
    requires LegalPair(team, project) && FitsLine(team, project) && AllShort(Only(Lines(text), IsOther))
    ensures AllShort(Lines(Rewritten(text, team, project)))
  {
    RewriteChanges(text, team, project);
    var out := Lines(Rewritten(text, team, project));
    OnlyMembers(out, IsTeam);
    OnlyMembers(out, IsProject);
    OnlyMembers(out, IsOther);
    forall l | l in out ensures |l| <= LONGEST {
      assert l in Only(out, IsTeam) || l in Only(out, IsProject) || l in Only(out, IsOther);
    }
  }

  lemma SaidOne(l: string)
    ensures Said([l]) == [SplitLine(l)] && Said([]) == []
  {
    MapAppend([], l, SplitLine);
    assert [] + [l] == [l];
  }

  // Reading a rewritten file gives exactly the team and the project, neither of
  // them twice, and of every other key what it gave before.
  lemma RewriteReads(text: string, team: string, project: string)
    requires LegalPair(team, project) && FitsLine(team, project) && AllShort(Only(Lines(text), IsOther))
    ensures var f := FileOf(Rewritten(text, team, project)); var before := Parsed(Lines(text));
      && f.team == team && f.hasTeam && f.project == project && (f.hasProject <==> project != "")
      && TEAM !in f.duplicates && PROJECT !in f.duplicates
      && f.unknown == before.unknown && Only(f.duplicates, Foreign) == Only(before.duplicates, Foreign)
  {
    var ls, out := Lines(text), Lines(Rewritten(text, team, project));
    RewrittenShort(text, team, project);
    ShortAreScanned(out);
    RewriteChanges(text, team, project);
    SaidClasses(ls);
    SaidClasses(out);
    SaidOne(Written(TEAM, team));
    SaidOne(Written(PROJECT, project));
    WrittenIs(TEAM, team);
    if project != "" { WrittenIs(PROJECT, project); }
    OneOfEach(Said(out), team, project, Said(ls));
  }

  // A rewritten file is read to have a team if and only if no other line too
  // long for the scanner stands before its first team line, or anywhere in a
  // file that had none. Then the team is the one written.
  lemma TeamSurvives(text: string, team: string, project: string)
    requires LegalPair(team, project) && FitsLine(team, project)
    ensures FileOf(Rewritten(text, team, project)).hasTeam <==> Reaches(Lines(text), IsTeam, IsProject, Fits)
    ensures FileOf(Rewritten(text, team, project)).hasTeam ==> FileOf(Rewritten(text, team, project)).team == team
  {
    var ls, out := Lines(text), Lines(Rewritten(text, team, project));
    RewrittenLines(text, team, project);
    LinesApart(team, project);
    ReadsNew(ls, IsTeam, IsProject, IsOther, Fits, TeamLine(team), ProjectLine(project), false);
    TeamOfFile(Scanned(out), team);
  }

  lemma TeamOfFile(ls: seq<string>, team: string)
    requires Legal(team) && (Only(ls, IsTeam) == [] || Only(ls, IsTeam) == [Written(TEAM, team)])
    ensures Parsed(ls).hasTeam <==> Only(ls, IsTeam) != []
    ensures Parsed(ls).hasTeam ==> Parsed(ls).team == team
  {
    var line := Written(TEAM, team);
    assert Only(Said(ls), ForTeam) == Said(Only(ls, IsTeam)) by {
      SaidClasses(ls);
    }
    assert Said([line]) == [Some(Entry(TEAM, team))] && Said([]) == [] by {
      SaidOne(line);
      WrittenIs(TEAM, team);
    }
    TeamIsRead(Said(ls));
  }

  // One long comment in front of the team line is enough to lose it.
  lemma LongCommentHidesTeam(comment: string, team: string)
    requires Legal(team) && FitsLine(team, "") && |comment| > LONGEST && comment[0] == '#' && '\n' !in comment
    ensures !FileOf(Rewritten(Unlines([comment]), team, "")).hasTeam
  {
    CommentSays(comment);
    LinesBack([comment]);
    TeamSurvives(Unlines([comment]), team, "");
  }

  lemma CommentSays(l: string)
    requires l != "" && l[0] == '#'
    ensures SplitLine(l) == None
  {
    IndexOfFirst(l, '#', 0);
    assert CutComment(l) == "";
  }

  // ---------------------------------------------------------------- a fresh file

  // The two comment lines of a fresh file, by their first words.
  const HEADER_TEAM := "# metiche"
  const HEADER_SAFE := "# Safe to commit"

  method Render(team: string, project: string) returns (b: string)
    ensures b == Unlines(RenderedLines(team, project))
  {
    b := HEADER_TEAM + "\n" + HEADER_SAFE + "\n";
    b := b + (Written(TEAM, team) + "\n");
    RenderText(team, project);
    if project != "" {
      b := b + (Written(PROJECT, project) + "\n");
    }
  }

  function RenderedLines(team: string, project: string): seq<string> {
    [HEADER_TEAM, HEADER_SAFE] + Once(TeamLine(team), false) + Once(ProjectLine(project), false)
  }

  lemma RenderText(team: string, project: string)
    ensures Unlines(RenderedLines(team, project))
      == HEADER_TEAM + "\n" + HEADER_SAFE + "\n" + (Written(TEAM, team) + "\n")
       + if project == "" then "" else Written(PROJECT, project) + "\n"
  {
    UnlinesOne(HEADER_TEAM);
    UnlinesOne(HEADER_SAFE);
    UnlinesOne(Written(TEAM, team));
    UnlinesOne(Written(PROJECT, project));
    UnlinesConcat([HEADER_TEAM], [HEADER_SAFE]);
    assert [HEADER_TEAM] + [HEADER_SAFE] == [HEADER_TEAM, HEADER_SAFE];
    UnlinesConcat([HEADER_TEAM, HEADER_SAFE], Once(TeamLine(team), false));
    UnlinesConcat([HEADER_TEAM, HEADER_SAFE] + Once(TeamLine(team), false), Once(ProjectLine(project), false));
  }

  lemma HeaderLines()
    ensures HEADER_TEAM[0] == '#' && HEADER_SAFE[0] == '#' && '\n' !in HEADER_TEAM && '\n' !in HEADER_SAFE
    ensures |HEADER_TEAM| <= LONGEST && |HEADER_SAFE| <= LONGEST
  {
  }

  lemma SaidRendered(team: string, project: string)
    requires LegalPair(team, project)
    ensures Said(RenderedLines(team, project))
      == [None, None, Some(Entry(TEAM, team))] + if project == "" then [] else [Some(Entry(PROJECT, project))]
  {
    HeaderLines();
    CommentSays(HEADER_TEAM);
    CommentSays(HEADER_SAFE);
    WrittenIs(TEAM, team);
    if project != "" { WrittenIs(PROJECT, project); }
    SaidFour(HEADER_TEAM, HEADER_SAFE, Written(TEAM, team), ProjectLine(project));
  }

  lemma SaidFour(a: string, b: string, c: string, d: Option<string>)
    ensures Said([a, b] + [c] + Once(d, false))
      == [SplitLine(a), SplitLine(b), SplitLine(c)] + if d.None? then [] else [SplitLine(d.value)]
  {
    assert [a, b] + [c] == [a, b, c];
    assert Said([a, b, c]) == [SplitLine(a), SplitLine(b), SplitLine(c)];
    if d.Some? {
      MapAppend([a, b, c], d.value, SplitLine);
    } else {
      assert [a, b, c] + [] == [a, b, c];
    }
  }

  lemma ReadTwoNone(none: seq<Option<Entry>>)
    requires none == []
    ensures ReadAll([None, None]) == NOTHING
  {
    ReadAppend(none, None);
    ReadAppend(none + [None], None);
    assert none + [None] + [None] == [None, None];
  }

  lemma ReadRendered(team: string, project: string)
    requires team != ""
    ensures ReadAll([None, None, Some(Entry(TEAM, team))] + if project == "" then [] else [Some(Entry(PROJECT, project))]).file
      == File(team, project, true, project != "", [], [])
  {
    KeysDiffer();
    var three := [None, None, Some(Entry(TEAM, team))];
    ReadTwoNone([]);
    ReadAppend([None, None], Some(Entry(TEAM, team)));
    assert [None, None] + [Some(Entry(TEAM, team))] == three;
    assert ReadAll(three) == Reading(File(team, "", true, false, [], []), {TEAM});
    ReadAppend(three, Some(Entry(PROJECT, project)));
    assert three + [] == three;
  }

  // Reading a fresh file gives back the team and project it was made of, and
  // nothing else.
  lemma RenderReads(team: string, project: string)
    requires LegalPair(team, project) && FitsLine(team, project)
    ensures FileOf(Unlines(RenderedLines(team, project))) == File(team, project, true, project != "", [], [])
  {
    var ls := RenderedLines(team, project);
    HeaderLines();
    forall i | 0 <= i < |ls| ensures '\n' !in ls[i] && |ls[i]| <= LONGEST {
      assert ls[i] == HEADER_TEAM || ls[i] == HEADER_SAFE || ls[i] == Written(TEAM, team) || ls[i] == Written(PROJECT, project);
    }
    LinesBack(ls);
    ShortAreScanned(ls);
    SaidRendered(team, project);
    ReadRendered(team, project);
  }

  // ---------------------------------------------------------------- which file counts

  // A file found on the way up from a directory, nearest first.
  datatype Found = Found(path: string, dir: string, notRegular: bool, file: File)

  datatype Effective = Effective(team: string, teamPath: string, project: string, projectPath: string, ignored: seq<Found>)

  predicate NamesTeam(f: Found) { !f.notRegular && f.file.hasTeam }

  // A project counts outside a repository, or from a file within it.
  predicate Counts(f: Found, gitRoot: string, within: (string, string) -> bool) {
    !f.notRegular && f.file.hasProject && (gitRoot == "" || within(f.dir, gitRoot))
  }

  predicate Ignored(f: Found, gitRoot: string, within: (string, string) -> bool) {
    !f.notRegular && f.file.hasProject && !(gitRoot == "" || within(f.dir, gitRoot))
  }

  // What one file of the chain does to the binding.
  method Consider(e: Effective, f: Found, gitRoot: string, within: (string, string) -> bool) returns (g: Effective)
    ensures Considered(e, f, g, gitRoot, within)
  {
    g := e;
    if f.notRegular {
      return;
    }
    if g.teamPath == "" && f.file.hasTeam {
      g := g.(team := f.file.team, teamPath := f.path);
    }
    if f.file.hasProject {
      if gitRoot == "" || within(f.dir, gitRoot) {
        if g.projectPath == "" {
          g := g.(project := f.file.project, projectPath := f.path);
        }
      } else {
        g := g.(ignored := g.ignored + [f]);
      }
    }
  }

  // The nearest file that names a team gives the team; the nearest whose project
  // counts gives the project; the others that set one are ignored, in order.
  ghost predicate NearestWins(e: Effective, chain: seq<Found>, gitRoot: string, within: (string, string) -> bool) {
    && IsNearest(e.teamPath, e.team, chain, NamesTeam, TeamIn)
    && IsNearest(e.projectPath, e.project, chain, Counting(gitRoot, within), ProjectIn)
    && e.ignored == Only(chain, Ignoring(gitRoot, within))
  }

  function TeamIn(f: Found): string { f.file.team }

  function ProjectIn(f: Found): string { f.file.project }

  function Counting(gitRoot: string, within: (string, string) -> bool): Found -> bool {
    (f: Found) => Counts(f, gitRoot, within)
  }

  function Ignoring(gitRoot: string, within: (string, string) -> bool): Found -> bool {
    (f: Found) => Ignored(f, gitRoot, within)
  }

  // The path and the text of the first file that will do, if any does.
  ghost predicate IsNearest(path: string, text: string, chain: seq<Found>, p: Found -> bool, value: Found -> string) {
    match First(chain, p)
    case Some(f) => path == f.path && text == value(f)
    case None => path == "" && text == ""
  }

  // g is what Consider makes of e and one more file.
  ghost predicate Considered(e: Effective, f: Found, g: Effective, gitRoot: string, within: (string, string) -> bool) {
    && g.ignored == e.ignored + When(Ignored(f, gitRoot, within), f)
    && (if e.teamPath == "" && NamesTeam(f) then g.team == f.file.team && g.teamPath == f.path
        else g.team == e.team && g.teamPath == e.teamPath)
    && (if e.projectPath == "" && Counts(f, gitRoot, within) then g.project == f.file.project && g.projectPath == f.path
        else g.project == e.project && g.projectPath == e.projectPath)
  }

  method Resolve(chain: seq<Found>, gitRoot: string, within: (string, string) -> bool) returns (e: Effective)
    requires forall f :: f in chain ==> f.path != ""
    ensures NearestWins(e, chain, gitRoot, within)
  {
    e := Effective("", "", "", "", []);
    for i := 0 to |chain|
      invariant NearestWins(e, chain[..i], gitRoot, within)
    {
      var g := Consider(e, chain[i], gitRoot, within);
      NearestStep(e, g, chain, i, gitRoot, within);
      e := g;
    }
    assert chain[..|chain|] == chain;
  }

  lemma NearestStep(e: Effective, g: Effective, chain: seq<Found>, i: nat, gitRoot: string, within: (string, string) -> bool)
    requires i < |chain| && (forall f :: f in chain ==> f.path != "")
    requires NearestWins(e, chain[..i], gitRoot, within) && Considered(e, chain[i], g, gitRoot, within)
    ensures NearestWins(g, chain[..i + 1], gitRoot, within)
  {
    NearestNext(e.teamPath, e.team, g.teamPath, g.team, chain, i, NamesTeam, TeamIn);
    NearestNext(e.projectPath, e.project, g.projectPath, g.project, chain, i, Counting(gitRoot, within), ProjectIn);
    OnlyStep(chain[..i], chain[i], Ignoring(gitRoot, within));
    assert chain[..i + 1] == chain[..i] + [chain[i]];
  }

  lemma NearestNext(path: string, text: string, path': string, text': string, chain: seq<Found>, i: nat,
                    p: Found -> bool, value: Found -> string)
    requires i < |chain| && (forall f :: f in chain ==> f.path != "") && IsNearest(path, text, chain[..i], p, value)
    requires if path == "" && p(chain[i]) then text' == value(chain[i]) && path' == chain[i].path
             else text' == text && path' == path
    ensures IsNearest(path', text', chain[..i + 1], p, value)
  {
    FirstStep(chain, i, p);
  }

  ghost predicate FirstAt(chain: seq<Found>, p: Found -> bool, i: int) {
    0 <= i < |chain| && p(chain[i]) && forall j :: 0 <= j < i ==> !p(chain[j])
  }

  lemma FirstOnce(chain: seq<Found>, p: Found -> bool, i: int, k: int)
    requires FirstAt(chain, p, i) && FirstAt(chain, p, k)
    ensures i == k
  {
  }

  lemma FirstTells(chain: seq<Found>, p: Found -> bool, value: Found -> string, path: string, text: string, i: nat)
    requires IsNearest(path, text, chain, p, value)
    ensures FirstAt(chain, p, i) ==> path == chain[i].path && text == value(chain[i])
  {
    if FirstAt(chain, p, i) {
      var k := FirstIsFirst(chain, p);
      FirstOnce(chain, p, i, k);
    }
  }

  // Of the regular files on the way up, the first that names a team gives it; the
  // first that names a project, in the repository if there is one, gives that; and
  // those that name one outside it are ignored.
  lemma ResolvedIs(e: Effective, chain: seq<Found>, gitRoot: string, within: (string, string) -> bool, i: nat)
    requires NearestWins(e, chain, gitRoot, within) && i < |chain|
    ensures !chain[i].notRegular && chain[i].file.hasTeam && (forall j :: 0 <= j < i ==> chain[j].notRegular || !chain[j].file.hasTeam)
      ==> e.teamPath == chain[i].path && e.team == chain[i].file.team
    ensures Bound(chain[i]) && (gitRoot == "" || within(chain[i].dir, gitRoot))
        && (forall j :: 0 <= j < i && Bound(chain[j]) ==> gitRoot != "" && !within(chain[j].dir, gitRoot))
      ==> e.projectPath == chain[i].path && e.project == chain[i].file.project
    ensures (forall f :: f in chain ==> f.notRegular || !f.file.hasTeam) ==> e.teamPath == "" && e.team == ""
    ensures (forall f :: f in chain && Bound(f) ==> gitRoot != "" && !within(f.dir, gitRoot)) ==> e.projectPath == "" && e.project == ""
    ensures chain[i] in e.ignored <==> Bound(chain[i]) && gitRoot != "" && !within(chain[i].dir, gitRoot)
  {
    FirstTells(chain, NamesTeam, TeamIn, e.teamPath, e.team, i);
    FirstTells(chain, Counting(gitRoot, within), ProjectIn, e.projectPath, e.project, i);
    OnlyMembers(chain, Ignoring(gitRoot, within));
    assert chain[i] in chain;
  }

  predicate Bound(f: Found) { !f.notRegular && f.file.hasProject }
}
