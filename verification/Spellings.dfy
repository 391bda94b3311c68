// The spellings of a repository (cli/internal/gitx/gitx.go): which texts the
// parser reads as one repository, and which it loses.
module Spellings {
  import opened Model
  import opened RepoUrl
  import opened Text

  // ---------------------------------------------------------------- spellings

  // What a repository is: a dotted host and the parts of its path, in the
  // letter case its host keeps them.
  datatype Identity = Identity(host: string, parts: seq<string>)
  {
    ghost predicate Valid() {
      && DottedHost(host) && ToLower(host) == host
      && |parts| > 0 && CleanSegments(parts, Caseless(host)) && parts[|parts| - 1] != "."
    }

    function Text(): string { host + "/" + Join(parts, '/') }
  }

  // A character of a host or a port.
  predicate PartChar(c: char) {
    c != '/' && c != ':' && c != '@' && ClearChar(c)
  }

  predicate ClearChar(c: char) {
    !IsSpace(c) && c != '?' && c != '#' && c != '\\'
  }

  predicate PartText(s: string) {
    forall i :: 0 <= i < |s| ==> PartChar(s[i])
  }

  // A piece of a path: anything but a slash and what is cut off or trimmed.
  predicate PieceText(s: string) {
    forall i :: 0 <= i < |s| ==> s[i] != '/' && ClearChar(s[i])
  }

  predicate LetterOrDigit(c: char) {
    'a' <= c <= 'z' || 'A' <= c <= 'Z' || '0' <= c <= '9'
  }

  predicate DottedHost(h: string) {
    NoOuterDots(h) && LooksLikeHost(h) && PartText(h)
  }

  // A host is told by a dot that does not end it, and by starting with a letter
  // or a digit.
  lemma HostIs(h: string)
    requires PartText(h)
    ensures DottedHost(h) <==> h != "" && '.' in h && h[|h| - 1] != '.' && LetterOrDigit(h[0])
  {
  }

  // The ways to write a remote.
  datatype Form =
    | Url(scheme: string, port: Option<string>)  // scheme://host:port/path
    | Scp                                        // host:path
    | HostPath                                   // host/path

  // One spelling: a form, perhaps user information, the host and the pieces
  // between the slashes of the path.
  datatype Spelling = Spelling(form: Form, user: Option<string>, host: string, pieces: seq<string>)

  function Before(user: Option<string>): string {
    if user.None? then "" else user.value + "@"
  }

  function HostPort(s: Spelling): string {
    if s.form.Url? && s.form.port.Some? then s.host + ":" + s.form.port.value else s.host
  }

  function PathOf(s: Spelling): string {
    Join(s.pieces, '/')
  }

  // The path with what separates it from the host.
  function SeparatedPath(s: Spelling): string {
    (if s.form.Scp? then ":" else "/") + PathOf(s)
  }

  function Printed(s: Spelling): string {
    match s.form
    case Url(scheme, port) => scheme + "://" + (Before(s.user) + (HostPort(s) + SeparatedPath(s)))
    case Scp => Before(s.user) + (s.host + SeparatedPath(s))
    case HostPath => Before(s.user) + (s.host + SeparatedPath(s))
  }

  // No at sign stands after the user information and, in the forms without a
  // scheme, no "://" after the host.
  predicate Readable(s: Spelling) {
    '@' !in PathOf(s) && (s.form.Url? || !ContainsText(SeparatedPath(s), "://"))
  }

  // A run of .git endings, in any letter case.
  predicate GitRun(t: string)
    decreases |t|
  {
    t == "" || (|t| >= |GIT| && EqualFold(t[|t| - |GIT|..], GIT) && GitRun(t[..|t| - |GIT|]))
  }

  // The pieces name these parts: the same but for empty and "." pieces, letter
  // case where the host ignores it, and .git endings on the last.
  ghost predicate Names(pieces: seq<string>, parts: seq<string>, fold: bool)
  {
    var kept := Kept(pieces);
    && |kept| == |parts| && |parts| > 0
    && (forall i :: 0 <= i < |parts| - 1 ==> Folded(kept[i], fold) == parts[i])
    && var last, name := kept[|parts| - 1], parts[|parts| - 1];
      |name| <= |last| && Folded(last[..|name|], fold) == name && GitRun(last[|name|..])
  }

  // User information and a scheme may hold what the parser cuts them off by.
  predicate UserText(user: string) {
    forall i :: 0 <= i < |user| ==> user[i] != '/' && ClearChar(user[i])
  }

  predicate SchemeText(scheme: string) {
    forall i :: 0 <= i < |scheme| ==> scheme[i] != ':' && ClearChar(scheme[i])
  }

  ghost predicate Spells(s: Spelling, id: Identity) {
    && ToLower(s.host) == id.host && DottedHost(s.host)
    && (s.user.Some? ==> UserText(s.user.value))
    && (forall p :: p in s.pieces ==> PieceText(p))
    && Names(s.pieces, id.parts, Caseless(id.host))
    && match s.form
       case Url(scheme, port) => SchemeText(scheme) && ToLower(scheme) != "file" && (port.Some? ==> PartText(port.value))
       case Scp => true
       case HostPath => true
  }

  lemma ReducedOnce(base: seq<string>, last: string)
    requires EndsInGit(last)
    ensures Reduced(base + [last]) == Reduced(base + [last[..|last| - |GIT|]])
  {
    var kept := base + [last];
    assert kept[|kept| - 1] == last && kept[..|kept| - 1] == base;
  }

  lemma ReducedStops(base: seq<string>, last: string)
    requires !EqualFold(last, GIT) && !EndsInGit(last)
    ensures Reduced(base + [last]) == base + [last]
  {
    var kept := base + [last];
    assert kept[|kept| - 1] == last;
  }

  lemma {:induction false} GitRunReduced(base: seq<string>, name: string, run: string)
    requires name != "" && !EqualFold(name, GIT) && !EndsInGit(name) && GitRun(run)
    ensures Reduced(base + [name + run]) == base + [name]
    decreases |run|
  {
    if run == "" {
      assert name + run == name;
      ReducedStops(base, name);
    } else {
      var last := name + run;
      var cut := run[..|run| - |GIT|];
      assert last[|last| - |GIT|..] == run[|run| - |GIT|..];
      assert last[..|last| - |GIT|] == name + cut;
      ReducedOnce(base, last);
      GitRunReduced(base, name, cut);
    }
  }

  // The last piece is reduced to the part it names.
  lemma LastReduced(base: seq<string>, last: string, name: string, fold: bool)
    requires |name| <= |last| && Folded(last[..|name|], fold) == name && GitRun(last[|name|..])
    requires name != "" && !EqualFold(name, GIT) && !EndsInGit(name)
    ensures Reduced(base + [last]) == base + [last[..|name|]]
  {
    WrittenName(last[..|name|], name, fold);
    GitRunReduced(base, last[..|name|], last[|name|..]);
    assert last == last[..|name|] + last[|name|..];
  }

  lemma WrittenName(written: string, name: string, fold: bool)
    requires Folded(written, fold) == name && name != "" && !EqualFold(name, GIT) && !EndsInGit(name)
    ensures written != "" && !EqualFold(written, GIT) && !EndsInGit(written)
  {
    LowerSegment(written);
  }

  lemma NamesReduced(kept: seq<string>, parts: seq<string>, pieces: seq<string>, fold: bool) returns (out: seq<string>)
    requires kept == Kept(pieces) && Names(pieces, parts, fold) && CleanSegments(parts, fold)
    ensures Reduced(kept) == out && |out| == |parts| && forall i :: 0 <= i < |out| ==> Folded(out[i], fold) == parts[i]
  {
    var n := |parts| - 1;
    var base, last := kept[..n], kept[n];
    LastReduced(base, last, parts[n], fold);
    assert kept == base + [last];
    out := base + [last[..|parts[n]|]];
  }

  // A path written with these pieces is cleaned to these parts.
  lemma NamedPath(p: string, pieces: seq<string>, parts: seq<string>, fold: bool)
    requires Kept(Split(p, '/')) == Kept(pieces) && Names(pieces, parts, fold) && CleanSegments(parts, fold)
    ensures CleanPath(p, fold, false) == Join(parts, '/')
  {
    var out := NamesReduced(Kept(pieces), parts, pieces, fold);
    CleanedFrom(p, fold, Kept(pieces));
    if fold {
      LowerJoin(out);
      assert Lowered(out) == parts;
    } else {
      assert out == parts;
    }
  }

  lemma PiecesSplit(pieces: seq<string>, parts: seq<string>, fold: bool)
    requires Names(pieces, parts, fold) && forall p :: p in pieces ==> PieceText(p)
    ensures Split(Join(pieces, '/'), '/') == pieces
  {
    forall p | p in pieces ensures '/' !in p {
    }
    SplitJoin(pieces, '/');
  }

  // ---------------------------------------------------------------- cutting a spelling

  predicate Clear(s: string) {
    forall i :: 0 <= i < |s| ==> ClearChar(s[i])
  }

  lemma ClearConcat(a: string, b: string)
    requires Clear(a) && Clear(b)
    ensures Clear(a + b)
  {
  }

  // The pieces with their slashes hold nothing that is cut off or trimmed.
  lemma {:induction false} PiecesJoined(pieces: seq<string>)
    requires forall p :: p in pieces ==> PieceText(p)
    ensures Clear(Join(pieces, '/'))
  {
    if |pieces| == 1 {
      assert PieceText(pieces[0]);
    } else if |pieces| > 1 {
      assert PieceText(pieces[0]);
      PiecesJoined(pieces[1..]);
    }
  }

  lemma ClearIsTrimmed(t: string)
    requires Clear(t)
    ensures TrimSpace(t) == t
  {
    TrimSpaceKeeps(t);
  }

  lemma ClearIsUncut(t: string)
    requires Clear(t)
    ensures '?' !in t && '#' !in t && Slashed(t) == t
  {
  }

  lemma ClearStays(t: string)
    requires Clear(t)
    ensures TrimSpace(t) == t && Slashed(CutQuery(t)) == t
  {
    ClearIsTrimmed(t);
    ClearIsUncut(t);
  }

  lemma UserinfoGone(user: Option<string>, tail: string)
    requires '@' !in tail
    ensures StripUserinfo(Before(user) + tail) == tail
  {
    var s := Before(user) + tail;
    if user.Some? {
      var at := |user.value|;
      assert s[at] == '@' && s[at + 1..] == tail;
      LastIndexOfLast(s, '@', at);
    } else {
      assert s == tail;
    }
  }

  lemma LastIndexOfLast(s: string, c: char, i: nat)
    requires i < |s| && s[i] == c && c !in s[i + 1..]
    ensures LastIndexOf(s, c) == i
  {
    var k := LastIndexOf(s, c);
    assert s[k] == c;
    assert forall j :: i < j < |s| ==> s[i + 1..][j - i - 1] == s[j];
    assert forall j :: k < j < |s| ==> s[k + 1..][j - k - 1] == s[j];
  }

  lemma NoScheme(t: string)
    requires forall i :: 0 <= i < |t| - 2 && t[i] == ':' ==> t[i + 1] != '/' || t[i + 2] != '/'
    ensures SchemeEnd(t) < 0
  {
    forall i | 0 <= i && i + 3 <= |t| ensures !OccursAt(t, "://", i) {
      assert t[i..i + 3] == [t[i], t[i + 1], t[i + 2]];
    }
  }

  lemma PrintedIsClear(s: Spelling, id: Identity)
    requires Spells(s, id)
    ensures Clear(Printed(s)) && Printed(s) != ""
  {
    PiecesJoined(s.pieces);
    assert Clear("/") && Clear("://") && Clear(":") && Clear("@");
    ClearConcat(if s.form.Scp? then ":" else "/", PathOf(s));
    assert Clear(Before(s.user));
    assert Clear(HostPort(s));
    ClearConcat(HostPort(s), SeparatedPath(s));
    ClearConcat(s.host, SeparatedPath(s));
    match s.form
    case Url(scheme, port) =>
      var tail := HostPort(s) + SeparatedPath(s);
      ClearConcat(Before(s.user), tail);
      ClearConcat(scheme + "://", Before(s.user) + tail);
    case _ => ClearConcat(Before(s.user), s.host + SeparatedPath(s));
  }

  lemma PortGone(host: string, port: string)
    requires PartText(host) && host != "" && host[0] != '[' && PartText(port)
    ensures StripPort(host + ":" + port) == host
  {
    var b := host + ":" + port;
    assert b[0] == host[0];
    assert b[|host|] == ':' && b[|host| + 1..] == port;
    LastIndexOfLast(b, ':', |host|);
    NotPrefixOf(b, "[");
  }

  lemma NoPort(host: string)
    requires PartText(host) && host != "" && host[0] != '['
    ensures StripPort(host) == host
  {
    NotPrefixOf(host, "[");
  }

  lemma PortSlash(host: string, form: Form)
    requires PartText(host) && (form.Url? && form.port.Some? ==> PartText(form.port.value))
    ensures '/' !in host && '@' !in host
    ensures form.Url? && form.port.Some? ==> '/' !in form.port.value && '@' !in form.port.value
  {
  }

  lemma CutPort(s: Spelling, id: Identity)
    requires Spells(s, id)
    ensures StripPort(HostPort(s)) == s.host && '/' !in HostPort(s) && '@' !in HostPort(s)
  {
    PortSlash(s.host, s.form);
    if s.form.Url? && s.form.port.Some? {
      PortGone(s.host, s.form.port.value);
    } else {
      NoPort(s.host);
    }
  }

  lemma CutAtScheme(t: string, scheme: string, rest: string, tail: string)
    requires t == scheme + "://" + rest && SchemeText(scheme) && StripUserinfo(rest) == tail
    ensures CutText(t) == CutUrl(ToLower(scheme), tail)
  {
    SchemeEndAfter(scheme, rest);
    assert t[..|scheme|] == scheme && t[|scheme| + 3..] == rest;
  }

  lemma CutUrlText(scheme: string, user: Option<string>, b: string, path: string)
    requires SchemeText(scheme) && ToLower(scheme) != "file" && '/' !in b && '@' !in b && '@' !in path
    ensures CutText(scheme + "://" + (Before(user) + (b + ("/" + path)))) == Named(StripPort(b), "/" + path)
  {
    var tail := b + ("/" + path);
    var rest := Before(user) + tail;
    UserinfoGone(user, tail);
    CutAtScheme(scheme + "://" + rest, scheme, rest, tail);
    CutTail(ToLower(scheme), b, path);
  }

  lemma CutUrlSpelling(s: Spelling, id: Identity)
    requires Spells(s, id) && s.form.Url? && Readable(s)
    ensures CutText(Printed(s)) == Named(s.host, "/" + PathOf(s))
  {
    CutPort(s, id);
    CutUrlText(s.form.scheme, s.user, HostPort(s), PathOf(s));
  }

  lemma ColonAfterSlash(host: string, path: string)
    requires ':' !in host
    ensures IndexOf(host + ("/" + path), ':') < 0 || IndexOf(host + ("/" + path), ':') > |host|
  {
    var rest := host + ("/" + path);
    assert forall i :: 0 <= i < |host| ==> rest[i] == host[i];
    assert rest[|host|] == '/';
  }

  lemma CutHostPath(host: string, path: string)
    requires DottedHost(host)
    ensures CutBare(host + ("/" + path)) == Named(host, "/" + path)
  {
    ColonAfterSlash(host, path);
    CutHostTail(host, "/" + path);
  }

  lemma CutHostTail(host: string, tail: string)
    requires DottedHost(host) && tail != "" && tail[0] == '/'
    requires IndexOf(host + tail, ':') < 0 || IndexOf(host + tail, ':') > |host|
    ensures CutBare(host + tail) == Named(host, tail)
  {
    var rest := host + tail;
    DottedIsLong(host);
    assert rest[0] == host[0];
    CutSlash(host, tail);
    NotPrefixOf(rest, "[");
  }

  lemma DottedIsLong(host: string)
    requires DottedHost(host)
    ensures |host| > 1 && '/' !in host && ':' !in host && host[0] != '['
  {
  }

  lemma SlashAfterColon(host: string, path: string)
    requires '/' !in host
    ensures IndexOf(host + ":" + path, '/') < 0 || IndexOf(host + ":" + path, '/') > |host|
  {
    var rest := host + ":" + path;
    assert forall i :: 0 <= i < |host| ==> rest[i] == host[i];
    assert rest[|host|] == ':';
  }

  lemma CutScp(host: string, path: string)
    requires DottedHost(host)
    ensures CutBare(host + (":" + path)) == Named(host, path)
  {
    var rest := host + ":" + path;
    DottedIsLong(host);
    SlashAfterColon(host, path);
    assert rest[0] == host[0];
    NotPrefixOf(rest, "[");
    IndexOfAfter(host, ':', path);
    assert rest == host + [':'] + path == host + (":" + path);
    assert rest[..|host|] == host && rest[|host| + 1..] == path;
  }

  lemma CutOtherSpelling(s: Spelling, id: Identity)
    requires Spells(s, id) && !s.form.Url? && Readable(s)
    ensures CutText(Printed(s)) == Named(s.host, if s.form.Scp? then PathOf(s) else "/" + PathOf(s))
  {
    var tail := s.host + SeparatedPath(s);
    UserinfoGone(s.user, tail);
    SchemeOnlyInPath(s, id);
    if s.form.Scp? { CutScp(s.host, PathOf(s)); } else { CutHostPath(s.host, PathOf(s)); }
  }

  // No "://" begins in this text, whatever follows it.
  predicate Unmarked(pre: string) {
    forall j :: 0 <= j < |pre| && pre[j] == ':' ==> j + 1 < |pre| && pre[j + 1] != '/'
  }

  lemma BeforePathUnmarked(user: Option<string>, host: string)
    requires (user.Some? ==> UserText(user.value)) && DottedHost(host)
    ensures Unmarked(Before(user) + host)
  {
    var b, pre := Before(user), Before(user) + host;
    assert forall j :: |b| <= j < |pre| ==> pre[j] == host[j - |b|];
    forall j | 0 <= j < |pre| && pre[j] == ':' ensures j + 1 < |pre| && pre[j + 1] != '/' {
      assert pre[j] == b[j];
      assert j + 1 < |b| && pre[j + 1] == b[j + 1];
    }
  }

  lemma MarkInTail(pre: string, u: string, mark: string, i: nat)
    requires mark == "://" && Unmarked(pre) && OccursAt(pre + u, mark, i)
    ensures i >= |pre| && OccursAt(u, mark, i - |pre|)
  {
    var t := pre + u;
    forall j | 0 <= j < |pre| && j + 1 < |t| ensures !(t[j] == ':' && t[j + 1] == '/') {
      assert t[j] == pre[j];
      if pre[j] == ':' { assert t[j + 1] == pre[j + 1]; }
    }
    assert t[i] == t[i..i + 3][0] && t[i + 1] == t[i..i + 3][1];
    var k := i - |pre|;
    assert u[k..k + 3] == t[i..i + 3];
  }

  lemma MarkMoves(pre: string, u: string, mark: string, k: nat)
    requires OccursAt(u, mark, k)
    ensures OccursAt(pre + u, mark, |pre| + k)
  {
    assert (pre + u)[|pre| + k..|pre| + k + |mark|] == u[k..k + |mark|];
  }

  // A mark is first found in the tail, if anywhere.
  lemma MarkFirst(pre: string, u: string, mark: string)
    requires mark == "://" && Unmarked(pre)
    ensures var k := IndexOfText(u, mark); IndexOfText(pre + u, mark) == if k < 0 then -1 else |pre| + k
  {
    var i, k := IndexOfText(pre + u, mark), IndexOfText(u, mark);
    if i >= 0 {
      MarkInTail(pre, u, mark, i);
      assert 0 <= k <= i - |pre|;
    }
    if k >= 0 {
      MarkMoves(pre, u, mark, k);
      assert 0 <= i <= |pre| + k;
    }
  }

  // Where the text has a scheme's end, if anywhere: past the host.
  lemma SchemeOnlyInPath(s: Spelling, id: Identity)
    requires Spells(s, id) && !s.form.Url?
    ensures Printed(s) == (Before(s.user) + s.host) + SeparatedPath(s)
    ensures SchemeEnd(Printed(s)) == var k := IndexOfText(SeparatedPath(s), "://");
      if k < 0 then -1 else |Before(s.user) + s.host| + k
  {
    BeforePathUnmarked(s.user, s.host);
    Regroup(Before(s.user), s.host, SeparatedPath(s));
    MarkFirst(Before(s.user) + s.host, SeparatedPath(s), "://");
  }

  lemma Regroup(a: string, b: string, c: string)
    ensures a + (b + c) == (a + b) + c
  {
  }

  // What the path of a spelling starts with, after the host.
  function PathText(s: Spelling): string {
    if s.form.Scp? then PathOf(s) else "/" + PathOf(s)
  }

  lemma ReadSpelling(s: Spelling, id: Identity)
    requires Spells(s, id) && Readable(s)
    ensures Parse(Printed(s)) == Finish(s.host, PathText(s))
  {
    PrintedIsClear(s, id);
    ClearStays(Printed(s));
    if s.form.Url? { CutUrlSpelling(s, id); } else { CutOtherSpelling(s, id); }
    ParseCut(Printed(s), s.host, PathText(s));
  }

  lemma ParseCut(t: string, host: string, path: string)
    requires TrimSpace(t) == t && Slashed(CutQuery(t)) == t && t != "" && CutText(t) == Named(host, path)
    ensures Parse(t) == Finish(host, path)
  {
  }

  lemma PathOfSpelling(s: Spelling, id: Identity)
    requires id.Valid() && Spells(s, id)
    ensures CleanPath(PathText(s), Caseless(id.host), false) == Join(id.parts, '/')
  {
    PiecesSplit(s.pieces, id.parts, Caseless(id.host));
    LeadingSlash(Join(s.pieces, '/'));
    NamedPath(PathText(s), s.pieces, id.parts, Caseless(id.host));
  }

  lemma ReadableIsRead(s: Spelling, id: Identity)
    requires id.Valid() && Spells(s, id) && Readable(s)
    ensures Parse(Printed(s)) == Repo(id.host, Join(id.parts, '/'))
    ensures Normalize(Printed(s)) == id.Text()
  {
    ReadSpelling(s, id);
    PathOfSpelling(s, id);
    FinishedAs(s.host, PathText(s), id.host, Join(id.parts, '/'));
    JoinNotEmpty(id.parts);
  }

  lemma FinishedAs(host: string, path: string, h: string, p: string)
    requires NoOuterDots(host) && ToLower(host) == h && h != "" && CleanPath(path, Caseless(h), false) == p
    ensures Finish(host, path) == Repo(h, p)
  {
  }

  lemma JoinNotEmpty(parts: seq<string>)
    requires |parts| > 0 && parts[0] != ""
    ensures Join(parts, '/') != ""
  {
  }

  lemma TailTells(h: string, t: string, h': string, t': string)
    requires '/' !in h && t != "" && t[0] == '/' && '/' !in h' && t' != "" && t'[0] == '/' && h + t == h' + t'
    ensures h == h' && t == t'
  {
    CutSlash(h, t);
    CutSlash(h', t');
  }

  lemma SlashTells(h: string, p: string, h': string, p': string)
    requires '/' !in h && '/' !in h' && h + ("/" + p) == h' + ("/" + p')
    ensures h == h' && p == p'
  {
    var t, t' := "/" + p, "/" + p';
    TailTells(h, t, h', t');
    assert p == t[1..] && p' == t'[1..];
  }

  lemma JoinTells(parts: seq<string>, parts': seq<string>)
    requires |parts| > 0 && (forall i :: 0 <= i < |parts| ==> '/' !in parts[i])
    requires |parts'| > 0 && (forall i :: 0 <= i < |parts'| ==> '/' !in parts'[i])
    requires Join(parts, '/') == Join(parts', '/')
    ensures parts == parts'
  {
    SplitJoin(parts, '/');
    SplitJoin(parts', '/');
  }

  lemma ValidText(id: Identity)
    requires id.Valid()
    ensures '/' !in id.host && |id.parts| > 0 && forall i :: 0 <= i < |id.parts| ==> '/' !in id.parts[i]
    ensures id.Text() == id.host + ("/" + Join(id.parts, '/'))
  {
  }

  lemma TextTells(id: Identity, id': Identity)
    requires id.Valid() && id'.Valid() && id.Text() == id'.Text()
    ensures id == id'
  {
    ValidText(id);
    ValidText(id');
    SlashTells(id.host, Join(id.parts, '/'), id'.host, Join(id'.parts, '/'));
    JoinTells(id.parts, id'.parts);
  }

  // ---------------------------------------------------------------- an at sign in the path

  lemma FoldedGitHasNoAt(t: string, git: string)
    requires '@' !in git && EqualFold(t, git) && |t| == |git|
    ensures '@' !in t
  {
    forall i | 0 <= i < |t| ensures t[i] != '@' {
      assert ToLower(t)[i] == ToLower(git)[i];
      assert git[i] != '@';
    }
  }

  lemma {:induction false} GitRunHasNoAt(t: string)
    requires GitRun(t)
    ensures '@' !in t
    decreases |t|
  {
    if t != "" {
      var n := |t| - |GIT|;
      GitRunHasNoAt(t[..n]);
      FoldedGitHasNoAt(t[n..], GIT);
      assert t == t[..n] + t[n..];
    }
  }

  lemma {:induction false} JoinHas(parts: seq<string>, c: char)
    requires c != '/'
    ensures c in Join(parts, '/') <==> exists k :: 0 <= k < |parts| && c in parts[k]
  {
    if |parts| == 1 {
      assert parts[0] == Join(parts, '/');
    } else if |parts| > 1 {
      JoinHas(parts[1..], c);
      assert Join(parts, '/') == parts[0] + ['/'] + Join(parts[1..], '/');
      if k :| 0 <= k < |parts| && c in parts[k] {
        if k > 0 { assert parts[1..][k - 1] == parts[k]; }
      }
    }
  }

  lemma {:induction false} KeptHas(pieces: seq<string>, k: nat)
    requires k < |pieces| && !Blank(pieces[k])
    ensures pieces[k] in Kept(pieces)
  {
    if k > 0 {
      KeptHas(pieces[1..], k - 1);
    }
  }

  lemma FoldedHasAt(s: string, fold: bool)
    requires '@' in s
    ensures '@' in Folded(s, fold)
  {
    var i :| 0 <= i < |s| && s[i] == '@';
    assert ToLower(s)[i] == '@';
  }

  lemma PartHasAt(kept: seq<string>, parts: seq<string>, pieces: seq<string>, fold: bool, k: nat)
    requires kept == Kept(pieces) && Names(pieces, parts, fold) && k < |kept| && '@' in kept[k]
    ensures '@' in parts[k]
  {
    if k < |parts| - 1 {
      FoldedHasAt(kept[k], fold);
    } else {
      var last, name := kept[k], parts[k];
      assert last == last[..|name|] + last[|name|..];
      GitRunHasNoAt(last[|name|..]);
      FoldedHasAt(last[..|name|], fold);
    }
  }

  // What the pieces name keeps an at sign.
  lemma NamesKeepAt(pieces: seq<string>, parts: seq<string>, fold: bool)
    requires Names(pieces, parts, fold) && '@' in Join(pieces, '/')
    ensures '@' in Join(parts, '/')
  {
    JoinHas(pieces, '@');
    var k :| 0 <= k < |pieces| && '@' in pieces[k];
    KeptHas(pieces, k);
    var kept := Kept(pieces);
    var j :| 0 <= j < |kept| && kept[j] == pieces[k];
    PartHasAt(kept, parts, pieces, fold, j);
    JoinHas(parts, '@');
  }

  lemma PlainRooted(p: string, fold: bool, keepRoot: bool)
    requires Plain(p)
    ensures Plain(CleanPath(p, fold, keepRoot))
  {
    PlainCleaned(p, fold);
    PlainConcat("/", CleanPath(p, fold, false));
  }

  lemma PlainFinish(host: string, path: string)
    requires Plain(host) && Plain(path)
    ensures Plain(Finish(host, path).host) && Plain(Finish(host, path).path)
  {
    PlainLower(TrimDots(host));
    PlainRooted(path, false, true);
    PlainRooted(path, Caseless(ToLower(TrimDots(host))), false);
  }

  lemma BareLocal(rest: string)
    requires CutBare(rest).Local?
    ensures CutBare(rest).path == rest
  {
  }

  lemma UrlLocal(scheme: string, rest: string)
    requires CutUrl(scheme, rest).Local?
    ensures CutUrl(scheme, rest).path == rest
  {
  }

  lemma CutRest(t: string)
    requires Unquoted(t) && CutText(t).Local?
    ensures Plain(CutText(t).path)
  {
    var i := SchemeEnd(t);
    if i < 0 {
      BareLocal(StripUserinfo(t));
      RestIsPlain(t, 0);
      assert t[0..] == t;
    } else {
      UrlLocal(ToLower(t[..i]), StripUserinfo(t[i + 3..]));
      RestIsPlain(t, i + 3);
    }
  }

  // No identity holds an at sign.
  lemma NoAtLeft(raw: string)
    ensures '@' !in Normalize(raw)
  {
    var r := Parse(raw);
    if TrimSpace(raw) != "" {
      var text := Slashed(CutQuery(TrimSpace(raw)));
      SlashedUnquoted(TrimSpace(raw));
      var c := CutText(text);
      match c
      case Local(path) =>
        CutRest(text);
        PlainRooted(path, false, true);
      case Named(host, path) =>
        CutIsPlain(text);
        PlainFinish(host, path);
      PlainConcat(r.host, "/");
      PlainConcat(r.host + "/", r.path);
    }
  }

  // ---------------------------------------------------------------- a scheme in the path

  // How many parts a path has before the .git endings come off.
  function Count(p: string): nat {
    |Kept(Split(p, '/'))|
  }

  lemma {:induction false} ReducedIsFewer(kept: seq<string>)
    ensures |Reduced(kept)| <= |kept|
    decreases |kept|, if kept == [] then 0 else |kept[|kept| - 1]|
  {
    if kept != [] {
      var n := |kept| - 1;
      if EqualFold(kept[n], GIT) {
        ReducedIsFewer(kept[..n]);
      } else if EndsInGit(kept[n]) {
        ReducedIsFewer(kept[..n] + [kept[n][..|kept[n]| - |GIT|]]);
      }
    }
  }

  lemma CleanedIsFewer(p: string, fold: bool)
    ensures |Segments(CleanPath(p, fold, false))| <= Count(p)
  {
    var kept := Kept(Split(p, '/'));
    var reduced := Reduced(kept);
    ReducedIsFewer(kept);
    forall i | 0 <= i < |kept| ensures !Blank(kept[i]) && '/' !in kept[i] {
      assert kept[i] in kept;
    }
    ReducedIsClean(kept);
    var segs := if fold then Lowered(reduced) else reduced;
    if fold { LowerClean(reduced); LowerJoin(reduced); }
    SegmentsOfJoin(segs, fold);
  }

  lemma CountAfter(a: string, q: string, t: string)
    requires t == a + ['/'] + q
    ensures Count(t) == Count(a) + Count(q)
  {
    SplitAt(a, q, '/');
    KeptConcat(Split(a, '/'), Split(q, '/'));
  }

  lemma CountOne(a: string)
    requires '/' !in a
    ensures Count(a) == if Blank(a) then 0 else 1
  {
    assert Split(a, '/') == [a];
    assert [a][1..] == [];
    assert Kept([]) == [];
  }

  lemma CountLeading(q: string, t: string)
    requires t == ['/'] + q
    ensures Count(t) == Count(q)
  {
    CountAfter("", q, t);
    CountOne("");
  }

  // What follows two slashes has no more parts than the whole.
  lemma CountPast(x: string, rest: string, path: string)
    requires path == x + ['/', '/'] + rest
    ensures Count(rest) <= Count(path)
  {
    var more := ['/'] + rest;
    assert path == x + ['/'] + more;
    CountAfter(x, more, path);
    CountLeading(rest, more);
  }

  // What follows "://" has no more parts than the path it stands in.
  lemma RestHasFewer(sep: char, path: string, k: nat, mark: string)
    requires mark == "://" && OccursAt([sep] + path, mark, k)
    ensures Count(([sep] + path)[k + 3..]) <= Count(path)
  {
    var u := [sep] + path;
    var rest := u[k + 3..];
    assert u[k + 1] == u[k..k + 3][1] && u[k + 2] == u[k..k + 3][2];
    assert path == path[..k] + ['/', '/'] + rest;
    CountPast(path[..k], rest, path);
  }

  lemma BlankHost(hp: string)
    requires Blank(hp)
    ensures HostOf(hp) == ""
  {
    if hp != "" {
      assert hp == ['.'] && hp[1..] == "";
      NotPrefixOf(hp, "[");
    }
  }

  lemma SlashCut(rest: string, slash: int)
    requires slash == IndexOf(rest, '/') && slash >= 0
    ensures rest == rest[..slash] + ['/'] + rest[slash + 1..] && rest[slash..] == ['/'] + rest[slash + 1..]
    ensures '/' !in rest[..slash]
  {
  }

  lemma UrlParts(scheme: string, rest: string, hp: string, q: string)
    requires scheme != "file" && hp == (if IndexOf(rest, '/') < 0 then rest else rest[..IndexOf(rest, '/')])
    requires q == if IndexOf(rest, '/') < 0 then "" else rest[IndexOf(rest, '/')..]
    ensures Cleaned(CutUrl(scheme, rest)) == Finish(StripPort(hp), q)
  {
  }

  lemma FinishParts(hp: string, q: string)
    requires Finish(StripPort(hp), q).host != ""
    ensures Finish(StripPort(hp), q) == Repo(HostOf(hp), CleanPath(q, Caseless(HostOf(hp)), false))
  {
  }

  lemma RestCount(rest: string, hp: string, q: string)
    requires hp == (if IndexOf(rest, '/') < 0 then rest else rest[..IndexOf(rest, '/')]) && !Blank(hp)
    requires q == if IndexOf(rest, '/') < 0 then "" else rest[IndexOf(rest, '/')..]
    ensures '/' !in hp && Count(q) < Count(rest)
  {
    var slash := IndexOf(rest, '/');
    if slash < 0 {
      CountOne(rest);
      CountOne("");
    } else {
      SlashCut(rest, slash);
      CountOne(hp);
      CountAfter(hp, rest[slash + 1..], rest);
      CountLeading(rest[slash + 1..], q);
    }
  }

  // Read as a URL, what follows "://" gives a host and fewer parts than it has.
  lemma UrlHasFewer(scheme: string, rest: string)
    requires scheme != "file" && Cleaned(CutUrl(scheme, rest)).host != ""
    ensures var r := Cleaned(CutUrl(scheme, rest)); '/' !in r.host && |Segments(r.path)| < Count(rest)
  {
    var slash := IndexOf(rest, '/');
    var hp := if slash < 0 then rest else rest[..slash];
    var q := if slash < 0 then "" else rest[slash..];
    UrlParts(scheme, rest, hp, q);
    FinishParts(hp, q);
    HostOfShorter(hp);
    if Blank(hp) { BlankHost(hp); }
    RestCount(rest, hp, q);
    CleanedIsFewer(q, Caseless(HostOf(hp)));
  }

  lemma UrlWithoutHost(scheme: string, rest: string)
    requires scheme != "file" && Cleaned(CutUrl(scheme, rest)).host == ""
    ensures var r := Cleaned(CutUrl(scheme, rest)); r.path == "" || r.path[0] == '/'
  {
    if IndexOf(rest, '/') < 0 {
      assert CleanPath("", false, true) == "" by { NoRootedPath(); }
    }
  }

  lemma NoRootedPath()
    ensures CleanPath("", false, true) == ""
  {
    assert Split("", '/') == [""];
    assert [""][1..] == [];
  }

  lemma FewerTells(r: Repo, id: Identity)
    requires id.Valid() && '/' !in r.host && r.host != "" && |Segments(r.path)| < |id.parts|
    ensures (if r.path == "" then r.host else r.host + "/" + r.path) != id.Text()
  {
    ValidText(id);
    if r.path == "" {
      assert id.Text()[|id.host|] == '/';
    } else if r.host + "/" + r.path == id.Text() {
      assert r.host + "/" + r.path == r.host + ("/" + r.path);
      SlashTells(r.host, r.path, id.host, Join(id.parts, '/'));
      SplitJoin(id.parts, '/');
      assert false;
    }
  }

  lemma DottedIsNoScheme(pre: string, host: string, more: string)
    requires DottedHost(host)
    ensures ToLower(pre + host + more) != "file"
  {
    var t := pre + host + more;
    var i :| 0 <= i < |host| && host[i] == '.';
    assert t[|pre| + i] == '.' && ToLower(t)[|pre| + i] == '.';
  }

  lemma PathCount(s: Spelling, id: Identity)
    requires Spells(s, id)
    ensures Count(PathOf(s)) == |id.parts|
  {
    PiecesSplit(s.pieces, id.parts, Caseless(id.host));
  }

  lemma TextCut(t: string, i: nat, scheme: string, rest: string)
    requires SchemeEnd(t) == i && scheme == ToLower(t[..i]) && rest == t[i + 3..] && '@' !in rest
    ensures CutText(t) == CutUrl(scheme, rest)
  {
    UserinfoGone(None, rest);
    assert Before(None) + rest == rest;
  }

  lemma ParseClear(t: string)
    requires Clear(t) && t != ""
    ensures Parse(t) == Cleaned(CutText(t))
  {
    ClearStays(t);
  }

  lemma DropTail(pre: string, u: string, k: nat)
    requires k + 3 <= |u|
    ensures (pre + u)[|pre| + k + 3..] == u[k + 3..] && (pre + u)[..|pre| + k] == pre + u[..k]
  {
  }

  lemma SchemeCut(s: Spelling, id: Identity, k: nat) returns (scheme: string, rest: string)
    requires Spells(s, id) && !s.form.Url? && k == IndexOfText(SeparatedPath(s), "://") && '@' !in PathOf(s)
    ensures k + 3 <= |SeparatedPath(s)| && rest == SeparatedPath(s)[k + 3..]
    ensures scheme != "file" && Parse(Printed(s)) == Cleaned(CutUrl(scheme, rest))
  {
    var t, pre, u := Printed(s), Before(s.user) + s.host, SeparatedPath(s);
    assert OccursAt(u, "://", k);
    SchemeOnlyInPath(s, id);
    DropTail(pre, u, k);
    scheme, rest := ToLower(t[..|pre| + k]), u[k + 3..];
    TextCut(t, |pre| + k, scheme, rest);
    PrintedIsClear(s, id);
    ParseClear(t);
    DottedIsNoScheme(Before(s.user), s.host, u[..k]);
  }

  lemma SchemeIsNotRead(s: Spelling, id: Identity)
    requires id.Valid() && Spells(s, id) && !s.form.Url? && ContainsText(SeparatedPath(s), "://") && '@' !in PathOf(s)
    ensures Normalize(Printed(s)) != id.Text()
  {
    var k := IndexOfText(SeparatedPath(s), "://");
    var scheme, rest := SchemeCut(s, id, k);
    var r := Parse(Printed(s));
    if r.host == "" {
      UrlWithoutHost(scheme, rest);
      ValidText(id);
    } else {
      UrlHasFewer(scheme, rest);
      RestHasFewer(if s.form.Scp? then ':' else '/', PathOf(s), k, "://");
      PathCount(s, id);
      FewerTells(r, id);
    }
  }

  // Every spelling of a repository, whatever the form, the user information, the
  // port, the extra slashes, the .git endings and, where the host ignores it,
  // the case, is read as its host and path and has its identity, if and only if
  // no at sign stands after the user information and no scheme's end in a text
  // without a scheme.
  lemma OneIdentity(s: Spelling, id: Identity)
    requires id.Valid() && Spells(s, id)
    ensures Parse(Printed(s)) == Repo(id.host, Join(id.parts, '/')) <==> Readable(s)
    ensures Normalize(Printed(s)) == id.Text() <==> Readable(s)
  {
    JoinNotEmpty(id.parts);
    if Readable(s) {
      ReadableIsRead(s, id);
    } else if '@' in PathOf(s) {
      NamesKeepAt(s.pieces, id.parts, Caseless(id.host));
      NoAtLeft(Printed(s));
      JoinInText(id);
    } else {
      SchemeIsNotRead(s, id);
    }
  }

  lemma JoinInText(id: Identity)
    requires '@' in Join(id.parts, '/')
    ensures '@' in id.Text()
  {
  }

  // Two such spellings have one identity exactly when they name one repository.
  lemma IdentityTells(s: Spelling, id: Identity, s': Spelling, id': Identity)
    requires id.Valid() && Spells(s, id) && Readable(s) && id'.Valid() && Spells(s', id') && Readable(s')
    ensures Normalize(Printed(s)) == Normalize(Printed(s')) <==> id == id'
  {
    OneIdentity(s, id);
    OneIdentity(s', id');
    if id.Text() == id'.Text() {
      TextTells(id, id');
    }
  }

  // A path of one part, that does not end in .git in any letter case.
  predicate NameText(name: string) {
    PieceText(name) && '@' !in name && name != "" && name != "." && !HasSuffix(ToLower(name), ".git")
  }

  lemma GitEnds(s: string)
    ensures HasSuffix(ToLower(s), ".git") <==> EqualFold(s, GIT) || EndsInGit(s)
  {
    var l := ToLower(s);
    assert ToLower(GIT) == GIT;
    if |s| >= |GIT| {
      assert l[|l| - |GIT|..] == ToLower(s[|s| - |GIT|..]);
      if |s| == |GIT| { assert s[0..] == s && l[0..] == l; }
    }
  }

  lemma OneName(name: string, fold: bool)
    requires NameText(name)
    ensures CleanSegments([Folded(name, fold)], fold) && Folded(name, fold) != "." && Names([name], [Folded(name, fold)], fold)
  {
    LowerSegment(name);
    GitEnds(name);
    if fold { ToLowerTwice(name); }
    assert Kept([name]) == [name] by { assert [name][1..] == []; }
    assert name[..|name|] == name && name[|name|..] == "";
  }

  lemma OneNamePrinted(scheme: string, host: string, name: string, s: Spelling)
    requires s == Spelling(Url(scheme, None), None, host, [name])
    ensures Printed(s) == scheme + "://" + (host + ("/" + name)) && PathOf(s) == name
  {
    assert Join([name], '/') == name;
    assert Before(None) + (host + ("/" + name)) == host + ("/" + name);
  }

  lemma OneNameSpells(scheme: string, host: string, name: string, kept: string, s: Spelling, id: Identity)
    requires SchemeText(scheme) && ToLower(scheme) != "file" && DottedHost(host) && ToLower(host) == host && NameText(name)
    requires s == Spelling(Url(scheme, None), None, host, [name]) && id == Identity(host, [kept])
    requires kept == Folded(name, Caseless(host))
    ensures id.Valid() && Spells(s, id)
  {
    OneName(name, Caseless(host));
  }

  lemma OneNameRead(s: Spelling, id: Identity, host: string, kept: string)
    requires id == Identity(host, [kept]) && id.Valid() && Spells(s, id) && Readable(s)
    ensures Normalize(Printed(s)) == host + "/" + kept
  {
    OneIdentity(s, id);
    assert Join([kept], '/') == kept;
  }

  // Letter case in a path is dropped at three hosts and kept at every other.
  lemma LetterCase(scheme: string, host: string, name: string)
    requires SchemeText(scheme) && ToLower(scheme) != "file" && DottedHost(host) && ToLower(host) == host && NameText(name)
    ensures Normalize(scheme + "://" + (host + ("/" + name))) == host + "/" + KeptAt(host, name)
  {
    var kept := KeptAt(host, name);
    var s, id := Spelling(Url(scheme, None), None, host, [name]), Identity(host, [kept]);
    OneNameSpells(scheme, host, name, kept, s, id);
    OneNamePrinted(scheme, host, name, s);
    OneNameRead(s, id, host, kept);
  }

  function KeptAt(host: string, name: string): string {
    if host == "github.com" || host == "gitlab.com" || host == "bitbucket.org" then ToLower(name) else name
  }

  // ---------------------------------------------------------------- local paths

  // A text that is read as a path on this machine, and has no host.
  ghost predicate IsLocal(t: string) {
    Parse(t) == Repo("", CleanPath(t, false, true))
  }

  ghost predicate BareText(t: string) {
    Clear(t) && t != "" && '@' !in t && !ContainsText(t, "://")
  }

  lemma ReadLocal(t: string)
    requires BareText(t) && CutBare(t) == Local(t)
    ensures IsLocal(t)
  {
    ParseClear(t);
    UserinfoGone(None, t);
    assert Before(None) + t == t;
  }

  lemma NoBracket(t: string)
    requires t != "" && t[0] != '['
    ensures BracketEnd(t) == -1
  {
    assert t[..1] == [t[0]];
  }

  lemma FirstSlash(t: string, first: string)
    requires '/' !in first && first <= t && (|first| < |t| ==> t[|first|] == '/')
    ensures IndexOf(t, '/') == (if |first| == |t| then -1 else |first|) && t[..|first|] == first
  {
    if |first| == |t| {
      assert t == first;
    } else {
      assert t == first + ['/'] + t[|first| + 1..];
      IndexOfAfter(first, '/', t[|first| + 1..]);
    }
  }

  // A text that starts with a slash is a local path.
  lemma RootedIsLocal(t: string)
    requires BareText(t) && t[0] == '/'
    ensures IsLocal(t)
  {
    NoBracket(t);
    FirstSlash(t, "");
    ReadLocal(t);
  }

  // So is one with a colon second and a slash third, as on a drive.
  lemma DriveIsLocal(t: string)
    requires BareText(t) && |t| > 2 && t[0] != '[' && t[0] != '/' && t[1] == ':' && t[2] == '/'
    ensures IsLocal(t)
  {
    NoBracket(t);
    FirstSlash(t, [t[0], ':']);
    IndexOfFirst(t, ':', 1);
    assert !LooksLikeHost([t[0], ':']);
    ReadLocal(t);
  }

  // So is one that has no colon before its first slash, and no dotted host there.
  lemma UndottedIsLocal(t: string, first: string)
    requires BareText(t) && '/' !in first && first <= t && (|first| < |t| ==> t[|first|] == '/')
    requires t[0] != '[' && ':' !in first
    requires |first| == |t| || '.' !in first || !LetterOrDigit(first[0])
    ensures IsLocal(t)
  {
    NoBracket(t);
    FirstSlash(t, first);
    ColonAfter(t, first);
    ReadLocal(t);
  }

  lemma ColonAfter(t: string, first: string)
    requires first <= t && ':' !in first
    ensures IndexOf(t, ':') < 0 || IndexOf(t, ':') >= |first|
  {
    forall j | 0 <= j < |first| ensures t[j] != ':' {
      assert first[j] == t[j] && first[j] in first;
    }
  }

  // A text without a scheme has a host, dotted or not, in front of a colon that is
  // neither first nor second and before any slash.
  lemma AliasIsHost(host: string, path: string)
    requires PartText(host) && |host| > 1 && host[0] != '[' && NoOuterDots(host) && BareText(host + ":" + path)
    ensures Parse(host + ":" + path) == Finish(host, path)
  {
    var t := host + ":" + path;
    assert t == host + [':'] + path;
    NoBracket(t);
    assert ':' !in host by { forall i | 0 <= i < |host| ensures host[i] != ':' { } }
    IndexOfAfter(host, ':', path);
    forall i | 0 <= i < |host| ensures t[i] != '/' {
      assert t[i] == host[i];
    }
    assert CutBare(t) == Named(host, path);
    ParseClear(t);
    UserinfoGone(None, t);
    assert Before(None) + t == t;
  }

  // ---------------------------------------------------------------- two repositories, one identity

  // A part of a path that can be printed as it is.
  ghost predicate Printable(parts: seq<string>) {
    forall p :: p in parts ==> PieceText(p)
  }

  lemma PlainSpelling(scheme: string, id: Identity)
    requires id.Valid() && Printable(id.parts) && SchemeText(scheme) && ToLower(scheme) != "file"
    ensures Spells(Spelling(Url(scheme, None), None, id.host, id.parts), id)
  {
    var fold := Caseless(id.host);
    AllKept(id.parts, fold);
    forall i | 0 <= i < |id.parts| ensures Folded(id.parts[i], fold) == id.parts[i] {
    }
    var last := id.parts[|id.parts| - 1];
    assert last[..|last|] == last && last[|last|..] == "";
  }

  // The repository at another host whose path starts with an at sign, this
  // host's name, and this repository's path.
  function Behind(host: string, id: Identity): Identity {
    Identity(host, ["@" + id.host] + id.parts)
  }

  function AsUrl(scheme: string, id: Identity): Spelling {
    Spelling(Url(scheme, None), None, id.host, id.parts)
  }

  // An at sign in front of a host in somebody else's path: the path's owner is
  // read as that host's.
  lemma AtTakesIdentity(scheme: string, host: string, id: Identity)
    requires id.Valid() && Printable(id.parts) && '@' !in Join(id.parts, '/')
    requires SchemeText(scheme) && ToLower(scheme) != "file"
    requires DottedHost(host) && ToLower(host) == host && !Caseless(host)
    ensures var other := Behind(host, id);
      && other.Valid() && other != id && Spells(AsUrl(scheme, id), id) && Spells(AsUrl(scheme, other), other)
      && Normalize(Printed(AsUrl(scheme, other))) == Normalize(Printed(AsUrl(scheme, id))) == id.Text()
  {
    var other := Behind(host, id);
    WithAtIsValid(host, "@" + id.host, id);
    PlainSpelling(scheme, id);
    PrintableBehind(host, id);
    PlainSpelling(scheme, other);
    ReadableIsRead(AsUrl(scheme, id), id);
    PrintedIsClear(AsUrl(scheme, other), other);
    AtCuts(scheme, host, id);
  }

  lemma PrintableBehind(host: string, id: Identity)
    requires id.Valid() && Printable(id.parts)
    ensures Printable(Behind(host, id).parts)
  {
    forall p | p in Behind(host, id).parts ensures PieceText(p) {
      assert p == "@" + id.host || p in id.parts;
    }
  }

  lemma WithAtIsValid(host: string, at: string, id: Identity)
    requires id.Valid() && at == "@" + id.host
    requires DottedHost(host) && ToLower(host) == host && !Caseless(host)
    ensures Identity(host, [at] + id.parts).Valid() && [at] + id.parts != id.parts
  {
    var parts := [at] + id.parts;
    forall i | 0 <= i < |parts| ensures parts[i] != "" && '/' !in parts[i] {
      assert i > 0 ==> parts[i] == id.parts[i - 1];
    }
    forall i | 0 <= i < |parts| - 1 ensures parts[i] != "." {
      if i > 0 { assert parts[i] == id.parts[i - 1]; } else { assert |at| > 1; }
    }
    assert parts[|parts| - 1] == id.parts[|id.parts| - 1];
  }

  lemma PrintedUrl(scheme: string, id: Identity)
    ensures Printed(AsUrl(scheme, id)) == scheme + "://" + (Before(None) + (id.host + ("/" + Join(id.parts, '/'))))
  {
  }

  lemma BehindText(host: string, id: Identity, tail: string)
    requires tail == id.host + ("/" + Join(id.parts, '/')) && id.parts != []
    ensures host + ("/" + Join(Behind(host, id).parts, '/')) == (host + "/") + "@" + tail
  {
    var at, parts := "@" + id.host, Behind(host, id).parts;
    assert parts[1..] == id.parts;
    assert Join(parts, '/') == at + ['/'] + Join(id.parts, '/');
    assert at + ['/'] + Join(id.parts, '/') == "@" + tail;
  }

  lemma PrintedBehind(scheme: string, host: string, id: Identity, tail: string)
    requires tail == id.host + ("/" + Join(id.parts, '/')) && id.parts != []
    ensures Printed(AsUrl(scheme, Behind(host, id))) == scheme + "://" + (Before(Some(host + "/")) + tail)
  {
    PrintedUrl(scheme, Behind(host, id));
    BehindText(host, id, tail);
  }

  lemma AtCuts(scheme: string, host: string, id: Identity)
    requires id.Valid() && '@' !in Join(id.parts, '/') && SchemeText(scheme)
    requires Clear(Printed(AsUrl(scheme, Behind(host, id)))) && Spells(AsUrl(scheme, id), id)
    ensures Parse(Printed(AsUrl(scheme, Behind(host, id)))) == Parse(Printed(AsUrl(scheme, id)))
  {
    var tail := id.host + ("/" + Join(id.parts, '/'));
    var s, t := Printed(AsUrl(scheme, id)), Printed(AsUrl(scheme, Behind(host, id)));
    PrintedUrl(scheme, id);
    PrintedBehind(scheme, host, id, tail);
    UserinfoGone(None, tail);
    UserinfoGone(Some(host + "/"), tail);
    CutAtScheme(s, scheme, Before(None) + tail, tail);
    CutAtScheme(t, scheme, Before(Some(host + "/")) + tail, tail);
    PrintedIsClear(AsUrl(scheme, id), id);
    ParseClear(s);
    assert t != "" by { assert |t| >= |scheme + "://"| > 0; }
    ParseClear(t);
  }

  // An scp-style path after two more slashes is read as a URL without user
  // information, its host a scheme: never as what it names.
  lemma SlashesMakeAScheme(id: Identity)
    requires id.Valid() && Printable(id.parts)
    ensures var s := Spelling(Scp, None, id.host, ["", ""] + id.parts);
      Spells(s, id) && Normalize(Printed(s)) != id.Text()
  {
    var s := Spelling(Scp, None, id.host, ["", ""] + id.parts);
    PlainSpelling("https", id);
    KeptConcat(["", ""], id.parts);
    assert Kept(["", ""]) == [] by { assert ["", ""][1..] == [""] && [""][1..] == []; }
    assert Kept(s.pieces) == Kept(id.parts);
    forall p | p in s.pieces ensures PieceText(p) {
      assert p == "" || p in id.parts;
    }
    TwoSlashes(id.parts, s);
    OneIdentity(s, id);
  }

  lemma JoinBlank(rest: seq<string>, pieces: seq<string>)
    requires rest != [] && pieces == [""] + rest
    ensures Join(pieces, '/') == ['/'] + Join(rest, '/')
  {
    assert pieces[1..] == rest;
    assert Join(pieces, '/') == pieces[0] + ['/'] + Join(rest, '/');
  }

  lemma TwoSlashes(parts: seq<string>, s: Spelling)
    requires s.form.Scp? && s.pieces == ["", ""] + parts && parts != []
    ensures !Readable(s)
  {
    var rest := s.pieces[1..];
    assert rest == [""] + parts && rest[1..] == parts;
    JoinBlank(parts, rest);
    JoinBlank(rest, s.pieces);
    var u := SeparatedPath(s);
    assert u[0..3] == [u[0], u[1], u[2]] == "://";
    assert OccursAt(u, "://", 0);
  }

  // ---------------------------------------------------------------- stored spellings

  lemma WrittenEndsInNoSpace(last: string, name: string, fold: bool)
    requires PieceText(last) && 0 < |name| <= |last| && Folded(last[..|name|], fold) == name
    ensures !IsSpace(name[|name| - 1])
  {
    var written := last[..|name|];
    var k := |name| - 1;
    assert name[k] == LowerChar(written[k]) || name[k] == written[k];
    assert ClearChar(last[k]) && written[k] == last[k];
  }

  lemma LastNamed(pieces: seq<string>, parts: seq<string>, fold: bool) returns (last: string, name: string)
    requires Names(pieces, parts, fold) && forall p :: p in pieces ==> PieceText(p)
    ensures PieceText(last) && name == parts[|parts| - 1] && |name| <= |last| && Folded(last[..|name|], fold) == name
  {
    var kept := Kept(pieces);
    last, name := kept[|parts| - 1], parts[|parts| - 1];
    assert last in kept;
  }

  lemma NamesEndInNoSpace(pieces: seq<string>, parts: seq<string>, fold: bool)
    requires Names(pieces, parts, fold) && parts[|parts| - 1] != "" && forall p :: p in pieces ==> PieceText(p)
    ensures !EndsInSpace(Join(parts, '/'))
  {
    var last, name := LastNamed(pieces, parts, fold);
    WrittenEndsInNoSpace(last, name, fold);
    JoinEnds(parts);
  }

  lemma NameEndsInNoSpace(s: Spelling, id: Identity)
    requires id.Valid() && Spells(s, id)
    ensures !EndsInSpace(Join(id.parts, '/'))
  {
    NamesEndInNoSpace(s.pieces, id.parts, Caseless(id.host));
  }

  lemma {:induction false} JoinEnds(parts: seq<string>)
    requires parts != [] && parts[|parts| - 1] != ""
    ensures var j, last := Join(parts, '/'), parts[|parts| - 1]; j != "" && j[|j| - 1] == last[|last| - 1]
  {
    if |parts| > 1 {
      JoinEnds(parts[1..]);
    }
  }

  // Every such spelling can be stored and read back.
  lemma SpellingsRestore(s: Spelling, id: Identity)
    requires id.Valid() && Spells(s, id) && Readable(s)
    ensures Parse(Canonical(Printed(s))) == Parse(Printed(s))
  {
    NameEndsInNoSpace(s, id);
    OneIdentity(s, id);
    RoundTrip(Printed(s));
    IdentityRestorable(id);
  }

  lemma IdentityRestorable(id: Identity)
    requires id.Valid() && !EndsInSpace(Join(id.parts, '/'))
    ensures Restorable(Repo(id.host, Join(id.parts, '/')))
  {
    EndsInDotLast(id.parts);
    JoinNotEmpty(id.parts);
    NotPrefixOf(id.host, "[");
    SpaceEndsPath(Repo(id.host, Join(id.parts, '/')));
  }

  // ---------------------------------------------------------------- what is lost

  lemma Lost(raw: string, r: Repo)
    requires Parse(raw) == r && r.host != "" && !Restorable(r)
    ensures Parse(Canonical(raw)) != Parse(raw)
  {
    RoundTrip(raw);
  }

  lemma ReadBare(t: string, host: string, path: string)
    requires Clear(t) && t != "" && '@' !in t && CutBare(t) == Named(host, path)
    requires forall i :: 0 <= i < |t| - 2 && t[i] == ':' ==> t[i + 1] != '/'
    ensures Parse(t) == Finish(host, path)
  {
    ClearStays(t);
    NoScheme(t);
    UserinfoGone(None, t);
    assert Before(None) + t == t;
    ParseCut(t, host, path);
  }

  lemma DotRead(host: string, dots: string)
    requires DottedHost(host) && ToLower(host) == host && dots == "..git"
    ensures Parse(host + ("/" + dots)) == Repo(host, ".")
  {
    DottedIsLong(host);
    DotText(host, dots);
    CutHostPath(host, dots);
    ReadBare(host + ("/" + dots), host, "/" + dots);
    DotPath(dots, Caseless(host));
    FinishedAs(host, "/" + dots, host, ".");
  }

  lemma DotText(host: string, dots: string)
    requires DottedHost(host) && dots == "..git"
    ensures Clear(host + ("/" + dots)) && '@' !in host + ("/" + dots) && ':' !in host + ("/" + dots)
  {
    assert Clear(host) && Clear("/") && Clear(dots);
    ClearConcat("/", dots);
    ClearConcat(host, "/" + dots);
  }

  // On any host, a path "..git" is cleaned to ".", which the next reading drops.
  lemma TrailingDotIsLost(host: string, dots: string)
    requires DottedHost(host) && ToLower(host) == host && dots == "..git"
    ensures Parse(Canonical(host + ("/" + dots))) != Parse(host + ("/" + dots)) == Repo(host, ".")
  {
    DotRead(host, dots);
    Lost(host + ("/" + dots), Repo(host, "."));
  }

  lemma DotPath(dots: string, fold: bool)
    requires dots == "..git"
    ensures CleanPath("/" + dots, fold, false) == "."
  {
    LeadingSlash(dots);
    assert '/' !in dots;
    assert Split(dots, '/') == [dots] && Kept([dots]) == [dots];
    DotReduced(dots);
    CleanedFrom("/" + dots, fold, [dots]);
  }

  lemma DotReduced(dots: string)
    requires dots == "..git"
    ensures Reduced([dots]) == ["."]
  {
    assert dots[1..] == GIT && dots[..1] == ".";
    ReducedOnce([], dots);
    ReducedStops([], dots[..1]);
    assert [] + [dots] == [dots] && [] + [dots[..1]] == [dots[..1]];
  }

  ghost predicate SlashedHost(host: string) {
    && Clear(host) && ToLower(host) == host && NoOuterDots(host)
    && '/' in host && ':' !in host && '@' !in host && ']' !in host
  }

  lemma BracketedText(host: string)
    requires SlashedHost(host)
    ensures Clear("[" + host + "]:") && '@' !in "[" + host + "]:"
    ensures forall i :: 0 <= i < |host| + 1 ==> ("[" + host + "]:")[i] != ':'
  {
    assert Clear("[") && Clear("]:");
    ClearConcat("[", host);
    ClearConcat("[" + host, "]:");
  }

  lemma BracketedRead(host: string)
    requires SlashedHost(host)
    ensures Parse("[" + host + "]:") == Repo(host, "")
  {
    BracketedText(host);
    BracketEndAt("[" + host + "]:", host);
    ReadBare("[" + host + "]:", host, "");
    NoPath(Caseless(host));
    FinishedAs(host, "", host, "");
  }

  lemma NoPath(fold: bool)
    ensures CleanPath("", fold, false) == ""
  {
  }

  // A slash inside a bracketed host is taken for the end of the host.
  lemma BracketedSlashIsLost(host: string)
    requires SlashedHost(host)
    ensures Parse(Canonical("[" + host + "]:")) != Parse("[" + host + "]:") == Repo(host, "")
  {
    BracketedRead(host);
    Lost("[" + host + "]:", Repo(host, ""));
  }

  lemma BracketEndAt(t: string, host: string)
    requires t == "[" + host + "]:" && ']' !in host
    ensures CutBare(t) == Named(host, "")
  {
    var k := |host| + 1;
    assert t[k..k + 2] == "]:" && OccursAt(t, "]:", k);
    var i := IndexOfText(t, "]:");
    assert OccursAt(t, "]:", i);
    assert t[i] == t[i..i + 2][0] == ']';
    assert forall j :: 0 <= j < |host| ==> t[j + 1] == host[j];
    assert t[1..k] == host && t[k + 2..] == "";
    assert t[..1] == "[";
  }
}