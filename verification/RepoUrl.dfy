// Repository URLs (cli/internal/gitx/gitx.go): many spellings, one identity.
module RepoUrl {
  import opened Model
  import opened Text

  // A parsed repository URL. A local path has no host.
  datatype Repo = Repo(host: string, path: string)

  // A text cut in two, before either half is cleaned.
  datatype Cut = Local(path: string) | Named(host: string, path: string)

  const GIT := ".git"

  predicate Caseless(host: string) {
    host == "github.com" || host == "gitlab.com" || host == "bitbucket.org"
  }

  // ---------------------------------------------------------------- paths

  predicate Blank(part: string) {
    part == "" || part == "."
  }

  function Kept(parts: seq<string>): (kept: seq<string>)
    ensures forall p :: p in kept ==> p in parts && !Blank(p)
  {
    if parts == [] then []
    else if Blank(parts[0]) then Kept(parts[1..])
    else [parts[0]] + Kept(parts[1..])
  }

  predicate EndsInGit(last: string) {
    |last| > |GIT| && EqualFold(last[|last| - |GIT|..], GIT)
  }

  // The parts without the .git endings of the last one.
  function Reduced(kept: seq<string>): seq<string>
    decreases |kept|, if kept == [] then 0 else |kept[|kept| - 1]|
  {
    if kept == [] then []
    else
      var n := |kept| - 1;
      if EqualFold(kept[n], GIT) then Reduced(kept[..n])
      else if EndsInGit(kept[n]) then Reduced(kept[..n] + [kept[n][..|kept[n]| - |GIT|]])
      else kept
  }

  function Folded(s: string, fold: bool): string {
    if fold then ToLower(s) else s
  }

  function CleanPath(p: string, fold: bool, keepRoot: bool): string {
    var out := Folded(Join(Reduced(Kept(Split(p, '/'))), '/'), fold);
    if keepRoot && HasPrefix(p, "/") && out != "" then "/" + out else out
  }

  // The first loop of cleanRepoPath.
  method KeepParts(parts: seq<string>) returns (kept: seq<string>)
    ensures kept == Kept(parts)
  {
    kept := [];
    for i := 0 to |parts|
      invariant kept == Kept(parts[..i])
    {
      KeptConcat(parts[..i], [parts[i]]);
      assert parts[..i + 1] == parts[..i] + [parts[i]];
      if parts[i] == "" || parts[i] == "." {
        continue;
      }
      kept := kept + [parts[i]];
    }
    assert parts[..|parts|] == parts;
  }

  // The second loop of cleanRepoPath.
  method StripGit(parts: seq<string>) returns (kept: seq<string>)
    ensures kept == Reduced(parts)
  {
    kept := parts;
    while |kept| > 0
      invariant Reduced(kept) == Reduced(parts)
      decreases |kept|, if kept == [] then 0 else |kept[|kept| - 1]|
    {
      var last := kept[|kept| - 1];
      if EqualFold(last, GIT) {
        kept := kept[..|kept| - 1];
        continue;
      }
      if |last| > |GIT| && EqualFold(last[|last| - |GIT|..], GIT) {
        kept := kept[..|kept| - 1] + [last[..|last| - |GIT|]];
        continue;
      }
      break;
    }
  }

  method CleanRepoPath(p: string, fold: bool, keepRoot: bool) returns (out: string)
    ensures out == CleanPath(p, fold, keepRoot)
  {
    var rooted := keepRoot && HasPrefix(p, "/");
    var kept := KeepParts(Split(p, '/'));
    kept := StripGit(kept);
    out := Join(kept, '/');
    if fold {
      out := ToLower(out);
    }
    if rooted && out != "" {
      out := "/" + out;
    }
  }

  lemma {:induction false} KeptConcat(x: seq<string>, y: seq<string>)
    ensures Kept(x + y) == Kept(x) + Kept(y)
  {
    if x == [] {
      assert x + y == y;
    } else {
      assert (x + y)[1..] == x[1..] + y;
      KeptConcat(x[1..], y);
    }
  }

  // Of the parts, those that are neither empty nor "." are kept, in order.
  lemma KeptMore(parts: seq<string>, p: string)
    ensures Kept([]) == [] && Kept(parts + [p]) == Kept(parts) + if p == "" || p == "." then [] else [p]
  {
    KeptConcat(parts, [p]);
    assert [p][1..] == [];
  }

  // ---------------------------------------------------------------- parsing

  function CutQuery(s: string): (r: string)
    ensures r <= s && '?' !in r && '#' !in r
    ensures r < s ==> s[|r|] == '?' || s[|r|] == '#'
  {
    if s == "" || s[0] == '?' || s[0] == '#' then ""
    else
      var r := CutQuery(s[1..]);
      assert r == s[1..][..|r|];
      [s[0]] + r
  }

  function Slashed(s: string): string {
    seq(|s|, i requires 0 <= i < |s| => if s[i] == '\\' then '/' else s[i])
  }

  function StripUserinfo(s: string): string {
    s[LastIndexOf(s, '@') + 1..]
  }

  function StripPort(host: string): (h: string)
    ensures |h| <= |host| && forall c :: c in h ==> c in host
  {
    if HasPrefix(host, "[") then
      if ']' in host then host[1..IndexOf(host, ']')] else host
    else if ':' in host then host[..LastIndexOf(host, ':')]
    else host
  }

  predicate LooksLikeHost(seg: string) {
    seg != "" && '.' in seg && ('a' <= seg[0] <= 'z' || 'A' <= seg[0] <= 'Z' || '0' <= seg[0] <= '9')
  }

  predicate NoOuterDots(h: string) {
    h == "" || (h[0] != '.' && h[|h| - 1] != '.')
  }

  function TrimDots(h: string): (r: string)
    ensures |r| <= |h| && (forall c :: c in r ==> c in h)
    ensures NoOuterDots(r)
    ensures NoOuterDots(h) ==> r == h
  {
    if h == "" then h
    else if h[0] == '.' then TrimDots(h[1..])
    else if h[|h| - 1] == '.' then TrimDots(h[..|h| - 1])
    else h
  }

  function Finish(host: string, path: string): Repo {
    var h := ToLower(TrimDots(host));
    if h == "" then Repo("", CleanPath(path, false, true))
    else Repo(h, CleanPath(path, Caseless(h), false))
  }

  // The text after a scheme.
  function CutUrl(scheme: string, rest: string): Cut {
    if scheme == "file" then Local(rest)
    else
      var slash := IndexOf(rest, '/');
      if slash < 0 then Named(StripPort(rest), "") else Named(StripPort(rest[..slash]), rest[slash..])
  }

  // Where "]:" ends a bracketed host, or -1.
  function BracketEnd(rest: string): (end: int)
    ensures end == -1 || 1 <= end <= |rest| - 2
  {
    if HasPrefix(rest, "[") && ContainsText(rest, "]:") then
      assert OccursAt(rest, "]:", IndexOfText(rest, "]:"));
      NotPrefixOf(rest, "]:");
      IndexOfText(rest, "]:")
    else -1
  }

  // A text without a scheme.
  function CutBare(rest: string): Cut {
    var slash, colon, end := IndexOf(rest, '/'), IndexOf(rest, ':'), BracketEnd(rest);
    if end >= 0 then Named(rest[1..end], rest[end + 2..])
    else if colon > 1 && (slash < 0 || colon < slash) then Named(rest[..colon], rest[colon + 1..])
    else if slash > 0 && LooksLikeHost(rest[..slash]) then Named(rest[..slash], rest[slash..])
    else Local(rest)
  }

  // Where "://" ends a scheme, or -1.
  function SchemeEnd(s: string): (i: int)
    ensures i == -1 || 0 <= i <= |s| - 3
  {
    var i := IndexOfText(s, "://");
    assert i >= 0 ==> OccursAt(s, "://", i);
    i
  }

  function CutText(s: string): Cut {
    var i := SchemeEnd(s);
    if i < 0 then CutBare(StripUserinfo(s)) else CutUrl(ToLower(s[..i]), StripUserinfo(s[i + 3..]))
  }

  function Cleaned(c: Cut): Repo {
    match c
    case Local(path) => Repo("", CleanPath(path, false, true))
    case Named(host, path) => Finish(host, path)
  }

  function Parse(raw: string): Repo {
    var s := TrimSpace(raw);
    if s == "" then Repo("", "") else Cleaned(CutText(Slashed(CutQuery(s))))
  }

  // The switch over a text without a scheme.
  method SplitBare(rest: string) returns (local: bool, host: string, path: string)
    ensures CutBare(rest) == if local then Local(path) else Named(host, path)
  {
    local, host := false, "";
    var slash, colon, end := IndexOf(rest, '/'), IndexOf(rest, ':'), BracketEnd(rest);
    if end >= 0 {
      host, path := rest[1..end], rest[end + 2..];
    } else if colon > 1 && (slash < 0 || colon < slash) {
      host, path := rest[..colon], rest[colon + 1..];
    } else if slash > 0 && LooksLikeHost(rest[..slash]) {
      host, path := rest[..slash], rest[slash..];
    } else {
      local, path := true, rest;
    }
  }

  method ParseRepoURL(raw: string) returns (host: string, path: string)
    ensures Repo(host, path) == Parse(raw)
  {
    host, path := "", "";
    var s := TrimSpace(raw);
    if s == "" {
      return;
    }
    s := Slashed(CutQuery(s));
    var local := false;
    var i := SchemeEnd(s);
    if i >= 0 {
      var scheme, rest := ToLower(s[..i]), StripUserinfo(s[i + 3..]);
      if scheme == "file" {
        path := CleanRepoPath(rest, false, true);
        return;
      }
      host := rest;
      var slash := IndexOf(rest, '/');
      if slash >= 0 {
        host, path := rest[..slash], rest[slash..];
      }
      host := StripPort(host);
    } else {
      local, host, path := SplitBare(StripUserinfo(s));
      if local {
        path := CleanRepoPath(path, false, true);
        return "", path;
      }
    }
    host := ToLower(TrimDots(host));
    if host == "" {
      path := CleanRepoPath(path, false, true);
      return;
    }
    path := CleanRepoPath(path, Caseless(host), false);
  }

  function Normalize(raw: string): string {
    var r := Parse(raw);
    if r.host == "" then r.path else if r.path == "" then r.host else r.host + "/" + r.path
  }

  function Bracketed(host: string): string {
    if ':' in host then "[" + host + "]" else host
  }

  // What follows https:// in the stored form.
  function Location(r: Repo): string {
    if r.path == "" then Bracketed(r.host) else Bracketed(r.host) + "/" + r.path
  }

  function Canonical(raw: string): string {
    var r := Parse(raw);
    if r.host == "" then "" else "https://" + Location(r)
  }

  // ---------------------------------------------------------------- what does not matter

  predicate CutsOff(c: char) { c == '?' || c == '#' }

  lemma QueryCut(s: string, c: char, tail: string)
    requires CutsOff(c) && '?' !in s && '#' !in s
    ensures CutQuery(s + [c] + tail) == s
  {
    var t, r := s + [c] + tail, CutQuery(s + [c] + tail);
    assert t[|s|] == c && forall i :: 0 <= i < |s| ==> t[i] == s[i];
    assert forall i :: 0 <= i < |r| ==> r[i] == t[i] && r[i] in r;
    assert |r| <= |s|;
    assert |r| >= |s|;
    assert t[..|s|] == s;
  }

  lemma TailTrims(s: string, more: string)
    requires s != "" && !IsSpace(s[0]) && !IsSpace(s[|s| - 1])
    ensures TrimSpace(s + more) == s + TrimRight(more)
  {
    TrimRightAfter(s, more);
    assert TrimLeft(s + more) == s + more;
  }

  lemma ParseUpTo(raw: string, t: string, s: string)
    requires TrimSpace(raw) == t && t != "" && CutQuery(t) == s
    ensures Parse(raw) == Cleaned(CutText(Slashed(s)))
  {
  }

  lemma NoQueryCut(s: string)
    requires '?' !in s && '#' !in s
    ensures CutQuery(s) == s
  {
  }

  // A query or a fragment changes nothing.
  lemma TailIsCut(s: string, c: char, tail: string)
    requires s != "" && NoOuterSpace(s) && '?' !in s && '#' !in s && CutsOff(c)
    ensures Parse(s + ([c] + tail)) == Parse(s)
  {
    var u := s + [c];
    assert u + tail == s + ([c] + tail) && u + TrimRight(tail) == s + [c] + TrimRight(tail);
    TailTrims(u, tail);
    QueryCut(s, c, TrimRight(tail));
    ParseUpTo(u + tail, u + TrimRight(tail), s);
    TrimSpaceKeeps(s);
    NoQueryCut(s);
    ParseUpTo(s, s, s);
  }

  // Two texts that differ in which way their slashes lean.
  predicate Leans(s: string, t: string) {
    |s| == |t| && forall i :: 0 <= i < |s| ==> s[i] == t[i] || (Slash(s[i]) && Slash(t[i]))
  }

  predicate Slash(c: char) { c == '/' || c == '\\' }

  lemma {:induction false} LeftLeans(s: string, t: string)
    requires Leans(s, t)
    ensures Leans(TrimLeft(s), TrimLeft(t))
  {
    if s != "" && IsSpace(s[0]) { LeftLeans(s[1..], t[1..]); }
  }

  lemma {:induction false} RightLeans(s: string, t: string)
    requires Leans(s, t)
    ensures Leans(TrimRight(s), TrimRight(t))
  {
    if s != "" && IsSpace(s[|s| - 1]) { RightLeans(s[..|s| - 1], t[..|t| - 1]); }
  }

  lemma {:induction false} QueryLeans(s: string, t: string)
    requires Leans(s, t)
    ensures Leans(CutQuery(s), CutQuery(t))
  {
    if s != "" { QueryLeans(s[1..], t[1..]); }
  }

  lemma LeaningSlashes(s: string, t: string)
    requires Leans(s, t)
    ensures Slashed(s) == Slashed(t)
  {
  }

  // A backslash is a slash.
  lemma BackslashIsSlash(s: string, t: string)
    requires Leans(s, t)
    ensures Parse(s) == Parse(t)
  {
    LeftLeans(s, t);
    RightLeans(TrimLeft(s), TrimLeft(t));
    var s', t' := TrimSpace(s), TrimSpace(t);
    QueryLeans(s', t');
    LeaningSlashes(CutQuery(s'), CutQuery(t'));
  }

  // White space around a URL changes nothing.
  lemma OuterSpaceGoes(raw: string)
    ensures Parse(TrimSpace(raw)) == Parse(raw)
  {
    TrimSpaceKeeps(TrimSpace(raw));
  }

  // ---------------------------------------------------------------- the shape of a parsed URL

  predicate Plain(s: string) {
    '?' !in s && '#' !in s && '\\' !in s && '@' !in s
  }

  // The parts of a cleaned path. Only the last may be ".", left by "..git".
  ghost predicate CleanSegments(segs: seq<string>, fold: bool) {
    && (forall i :: 0 <= i < |segs| ==> segs[i] != "" && '/' !in segs[i] && Folded(segs[i], fold) == segs[i])
    && (forall i :: 0 <= i < |segs| - 1 ==> segs[i] != ".")
    && (segs != [] ==> !EqualFold(segs[|segs| - 1], GIT) && !EndsInGit(segs[|segs| - 1]))
  }

  function Segments(path: string): seq<string> {
    if path == "" then [] else Split(path, '/')
  }

  ghost predicate Shaped(r: Repo) {
    && r.host != "" && ToLower(r.host) == r.host && NoOuterDots(r.host) && Plain(r.host)
    && Plain(r.path) && CleanSegments(Segments(r.path), Caseless(r.host))
  }

  lemma WithoutGit(kept: seq<string>, shorter: seq<string>)
    requires kept != [] && EndsInGit(kept[|kept| - 1])
    requires forall i :: 0 <= i < |kept| ==> kept[i] != "" && '/' !in kept[i]
    requires forall i :: 0 <= i < |kept| - 1 ==> kept[i] != "."
    requires shorter == kept[..|kept| - 1] + [kept[|kept| - 1][..|kept[|kept| - 1]| - |GIT|]]
    ensures forall i :: 0 <= i < |shorter| ==> shorter[i] != "" && '/' !in shorter[i]
    ensures forall i :: 0 <= i < |shorter| - 1 ==> shorter[i] != "."
  {
    var n := |kept| - 1;
    assert forall c :: c in shorter[n] ==> c in kept[n];
    assert forall i :: 0 <= i < n ==> shorter[i] == kept[i];
  }

  lemma {:induction false} ReducedIsClean(kept: seq<string>)
    requires forall i :: 0 <= i < |kept| ==> kept[i] != "" && '/' !in kept[i]
    requires forall i :: 0 <= i < |kept| - 1 ==> kept[i] != "."
    ensures CleanSegments(Reduced(kept), false)
    decreases |kept|, if kept == [] then 0 else |kept[|kept| - 1]|
  {
    if kept != [] {
      var n := |kept| - 1;
      if EqualFold(kept[n], GIT) {
        ReducedIsClean(kept[..n]);
      } else if EndsInGit(kept[n]) {
        var shorter := kept[..n] + [kept[n][..|kept[n]| - |GIT|]];
        WithoutGit(kept, shorter);
        ReducedIsClean(shorter);
      } else {
        assert Reduced(kept) == kept;
      }
    }
  }

  function Lowered(parts: seq<string>): seq<string> {
    seq(|parts|, i requires 0 <= i < |parts| => ToLower(parts[i]))
  }

  lemma {:induction false} LowerJoin(parts: seq<string>)
    ensures ToLower(Join(parts, '/')) == Join(Lowered(parts), '/')
  {
    if |parts| > 1 {
      LowerJoin(parts[1..]);
      assert Lowered(parts)[1..] == Lowered(parts[1..]);
      ToLowerConcat(parts[0] + ['/'], Join(parts[1..], '/'));
      ToLowerConcat(parts[0], ['/']);
      assert ToLower(['/']) == ['/'];
    }
  }

  // Lowering a text keeps what makes it a clean segment.
  lemma LowerSegment(s: string)
    ensures ToLower(s) == "" <==> s == ""
    ensures ToLower(s) == "." <==> s == "."
    ensures '/' in ToLower(s) <==> '/' in s
    ensures EqualFold(ToLower(s), GIT) <==> EqualFold(s, GIT)
    ensures EndsInGit(ToLower(s)) <==> EndsInGit(s)
  {
    ToLowerTwice(s);
    if s == "." { assert ToLower(s) == "."; }
    if ToLower(s) == "." { assert LowerChar(s[0]) == ToLower(s)[0]; assert s == "."; }
    if '/' in s {
      var i :| 0 <= i < |s| && s[i] == '/';
      assert ToLower(s)[i] == '/';
    }
    if |s| > |GIT| {
      var tail := s[|s| - |GIT|..];
      assert ToLower(s)[|s| - |GIT|..] == ToLower(tail);
      ToLowerTwice(tail);
    }
  }

  lemma LowerClean(segs: seq<string>)
    requires CleanSegments(segs, false)
    ensures CleanSegments(Lowered(segs), true)
  {
    var lower := Lowered(segs);
    forall i | 0 <= i < |lower|
      ensures lower[i] != "" && '/' !in lower[i] && Folded(lower[i], true) == lower[i]
    {
      LowerSegment(segs[i]);
      ToLowerTwice(segs[i]);
    }
    forall i | 0 <= i < |lower| - 1 ensures lower[i] != "." {
      LowerSegment(segs[i]);
    }
    if segs != [] { LowerSegment(segs[|segs| - 1]); }
  }

  lemma CleanedIsClean(p: string, fold: bool)
    ensures CleanSegments(Segments(CleanPath(p, fold, false)), fold)
  {
    var kept := Kept(Split(p, '/'));
    var reduced := Reduced(kept);
    forall i | 0 <= i < |kept| ensures !Blank(kept[i]) && '/' !in kept[i] {
      assert kept[i] in kept;
    }
    ReducedIsClean(kept);
    var segs := if fold then Lowered(reduced) else reduced;
    if fold { LowerClean(reduced); LowerJoin(reduced); }
    assert CleanPath(p, fold, false) == Join(segs, '/');
    SegmentsOfJoin(segs, fold);
  }

  lemma SegmentsOfJoin(segs: seq<string>, fold: bool)
    requires CleanSegments(segs, fold)
    ensures Segments(Join(segs, '/')) == segs
  {
    if segs != [] {
      SplitJoin(segs, '/');
      assert Join(segs, '/') != "" by { assert segs[0] != ""; }
    }
  }

  lemma {:induction false} PlainJoin(parts: seq<string>)
    ensures Plain(Join(parts, '/')) <==> forall p :: p in parts ==> Plain(p)
  {
    if |parts| > 1 {
      PlainJoin(parts[1..]);
      assert parts == [parts[0]] + parts[1..];
      PlainConcat(parts[0] + ['/'], Join(parts[1..], '/'));
      PlainConcat(parts[0], ['/']);
    }
  }

  lemma PlainConcat(a: string, b: string)
    ensures Plain(a + b) <==> Plain(a) && Plain(b)
  {
  }

  lemma {:induction false} PlainReduced(kept: seq<string>)
    requires forall p :: p in kept ==> Plain(p)
    ensures forall p :: p in Reduced(kept) ==> Plain(p)
    decreases |kept|, if kept == [] then 0 else |kept[|kept| - 1]|
  {
    if kept != [] {
      var n := |kept| - 1;
      assert Plain(kept[n]);
      if EqualFold(kept[n], GIT) {
        PlainReduced(kept[..n]);
      } else if EndsInGit(kept[n]) {
        PlainReduced(kept[..n] + [kept[n][..|kept[n]| - |GIT|]]);
      }
    }
  }

  lemma PlainLower(s: string)
    requires Plain(s)
    ensures Plain(ToLower(s))
  {
  }

  lemma PlainCleaned(p: string, fold: bool)
    requires Plain(p)
    ensures Plain(CleanPath(p, fold, false))
  {
    PlainJoin(Split(p, '/'));
    PlainReduced(Kept(Split(p, '/')));
    var out := Join(Reduced(Kept(Split(p, '/'))), '/');
    PlainJoin(Reduced(Kept(Split(p, '/'))));
    PlainLower(out);
  }

  lemma FinishIsShaped(host: string, path: string)
    requires Plain(host) && Plain(path) && Finish(host, path).host != ""
    ensures Shaped(Finish(host, path))
  {
    var h := ToLower(TrimDots(host));
    ToLowerTwice(TrimDots(host));
    PlainLower(TrimDots(host));
    PlainCleaned(path, Caseless(h));
    CleanedIsClean(path, Caseless(h));
  }

  predicate Unquoted(s: string) {
    '?' !in s && '#' !in s && '\\' !in s
  }

  lemma SlashedUnquoted(s: string)
    ensures Unquoted(Slashed(CutQuery(s)))
  {
  }

  lemma ParsedIsShaped(raw: string)
    requires Parse(raw).host != ""
    ensures Shaped(Parse(raw))
  {
    var text := Slashed(CutQuery(TrimSpace(raw)));
    SlashedUnquoted(TrimSpace(raw));
    CutIsPlain(text);
    FinishIsShaped(CutText(text).host, CutText(text).path);
  }

  lemma RestIsPlain(s: string, start: nat)
    requires Unquoted(s) && start <= |s|
    ensures Plain(StripUserinfo(s[start..]))
  {
  }

  lemma CutIsPlain(s: string)
    requires Unquoted(s) && CutText(s).Named?
    ensures Plain(CutText(s).host) && Plain(CutText(s).path)
  {
    var i := SchemeEnd(s);
    if i < 0 {
      BareRest(s, StripUserinfo(s));
    } else {
      RestIsPlain(s, i + 3);
      CutUrlIsPlain(ToLower(s[..i]), StripUserinfo(s[i + 3..]));
    }
  }

  lemma BareRest(s: string, rest: string)
    requires Unquoted(s) && rest == StripUserinfo(s) && CutBare(rest).Named?
    ensures Plain(CutBare(rest).host) && Plain(CutBare(rest).path)
  {
    RestIsPlain(s, 0);
    assert s[0..] == s;
    CutBareIsPlain(rest);
  }

  lemma CutBareIsPlain(rest: string)
    requires Plain(rest) && CutBare(rest).Named?
    ensures Plain(CutBare(rest).host) && Plain(CutBare(rest).path)
  {
    var slash, colon, end := IndexOf(rest, '/'), IndexOf(rest, ':'), BracketEnd(rest);
    if end >= 0 {
      PlainPiece(rest, 1, end);
      PlainPiece(rest, end + 2, |rest|);
    } else if colon > 1 && (slash < 0 || colon < slash) {
      PlainPiece(rest, 0, colon);
      PlainPiece(rest, colon + 1, |rest|);
    } else {
      PlainPiece(rest, 0, slash);
      PlainPiece(rest, slash, |rest|);
    }
  }

  lemma PlainPiece(s: string, i: nat, j: nat)
    requires Plain(s) && i <= j <= |s|
    ensures Plain(s[i..j]) && (i == 0 ==> s[..j] == s[i..j]) && (j == |s| ==> s[i..] == s[i..j])
  {
    assert forall c :: c in s[i..j] ==> c in s;
  }

  lemma CutUrlIsPlain(scheme: string, rest: string)
    requires Plain(rest) && CutUrl(scheme, rest).Named?
    ensures Plain(CutUrl(scheme, rest).host) && Plain(CutUrl(scheme, rest).path)
  {
  }

  // ---------------------------------------------------------------- reading the stored form

  lemma {:induction false} TrimRightAfter(pre: string, s: string)
    requires pre != "" && !IsSpace(pre[|pre| - 1])
    ensures TrimRight(pre + s) == pre + TrimRight(s)
  {
    if s == "" || !IsSpace(s[|s| - 1]) {
      assert pre + s == pre || (pre + s)[|pre + s| - 1] == s[|s| - 1];
    } else {
      assert (pre + s)[..|pre + s| - 1] == pre + s[..|s| - 1];
      TrimRightAfter(pre, s[..|s| - 1]);
    }
  }

  lemma SchemeEndAfter(scheme: string, rest: string)
    requires ':' !in scheme
    ensures SchemeEnd(scheme + "://" + rest) == |scheme|
  {
    var s := scheme + "://" + rest;
    assert s[|scheme|..|scheme| + 3] == "://";
    assert OccursAt(s, "://", |scheme|);
    assert forall k :: 0 <= k < |scheme| ==> s[k] == scheme[k];
    var i := SchemeEnd(s);
    assert OccursAt(s, "://", i);
    assert s[i] == s[i..i + 3][0] == ':';
  }

  lemma PlainStays(s: string)
    requires Plain(s)
    ensures Slashed(CutQuery(s)) == s && StripUserinfo(s) == s
  {
    assert CutQuery(s) == s;
    SlashedStays(s);
    assert LastIndexOf(s, '@') == -1 && s[0..] == s;
  }

  lemma SlashedStays(s: string)
    requires '\\' !in s
    ensures Slashed(s) == s
  {
    forall i | 0 <= i < |s| ensures Slashed(s)[i] == s[i] {
      assert s[i] in s;
    }
  }

  lemma CutStored(rest: string)
    requires Plain(rest)
    ensures CutText("https://" + rest) == CutUrl("https", rest)
  {
    var t := "https://" + rest;
    SchemeEndAfter("https", rest);
    assert t == "https" + "://" + rest;
    assert t[..5] == "https" && t[5 + 3..] == rest;
    assert ToLower("https") == "https";
    PlainStays(rest);
  }

  lemma ParseTrimmed(raw: string, t: string)
    requires TrimSpace(raw) == t && t != "" && Plain(t)
    ensures Parse(raw) == Cleaned(CutText(t))
  {
    PlainStays(t);
  }

  lemma TrimStored(rest: string)
    ensures TrimSpace("https://" + rest) == "https://" + TrimRight(rest)
  {
    TrimRightAfter("https://", rest);
  }

  lemma PlainStored(rest: string)
    requires Plain(rest)
    ensures Plain(TrimRight(rest)) && Plain("https://" + TrimRight(rest)) && "https://" + TrimRight(rest) != ""
  {
    assert Plain("https://");
    PlainConcat("https://", TrimRight(rest));
  }

  // A stored URL is read as what follows its scheme, less trailing space.
  lemma ParseStored(rest: string)
    requires Plain(rest)
    ensures Parse("https://" + rest) == Cleaned(CutUrl("https", TrimRight(rest)))
  {
    TrimStored(rest);
    PlainStored(rest);
    ParseTrimmed("https://" + rest, "https://" + TrimRight(rest));
    CutStored(TrimRight(rest));
  }

  lemma FileCut(scheme: string, p: string, t: string)
    requires ToLower(scheme) == "file" && Plain(p) && t == scheme + "://" + p
    ensures CutText(t) == Local(p)
  {
    FileScheme(scheme);
    SchemeEndAfter(scheme, p);
    assert t[..|scheme|] == scheme && t[|scheme| + 3..] == p;
    PlainStays(p);
  }

  lemma FileClear(scheme: string, p: string, t: string)
    requires ToLower(scheme) == "file" && Plain(p) && Plain(scheme) && !EndsInSpace(p) && t == scheme + "://" + p
    ensures Plain(t) && NoOuterSpace(t) && t != ""
  {
    FileScheme(scheme);
    assert Plain("://");
    PlainConcat(scheme, "://");
    PlainConcat(scheme + "://", p);
    assert t[0] == scheme[0] && t[|t| - 1] == if p == "" then '/' else p[|p| - 1];
  }

  // A file URL names no host: its path is cleaned in its own letter case.
  lemma FileIsLocal(scheme: string, p: string)
    requires ToLower(scheme) == "file" && Plain(p) && Plain(scheme) && !EndsInSpace(p)
    ensures Parse(scheme + "://" + p) == Repo("", CleanPath(p, false, true))
  {
    var t := scheme + "://" + p;
    FileClear(scheme, p, t);
    FileCut(scheme, p, t);
    TrimSpaceKeeps(t);
    ParseTrimmed(t, t);
  }

  lemma FileScheme(scheme: string)
    requires ToLower(scheme) == "file"
    ensures |scheme| == 4 && ':' !in scheme && !IsSpace(scheme[0])
  {
    var l := ToLower(scheme);
    assert l[0] == 'f' && l[1] == 'i' && l[2] == 'l' && l[3] == 'e';
    assert scheme == [scheme[0], scheme[1], scheme[2], scheme[3]];
  }

  // A local path keeps its root, and is else cleaned like any other.
  lemma RootKept(p: string)
    ensures var q, bare := CleanPath(p, false, true), CleanPath(p, false, false);
      q == if HasPrefix(p, "/") && bare != "" then "/" + bare else bare
    ensures !HasPrefix(CleanPath(p, false, false), "/")
  {
    CleanedIsClean(p, false);
    var kept := Reduced(Kept(Split(p, '/')));
    if kept != [] { assert HasPrefix(Join(kept, '/'), kept[0]); }
  }

  // ---------------------------------------------------------------- the host comes back

  predicate BracketsMatch(host: string) {
    if ':' in host then ']' !in host else !(HasPrefix(host, "[") && ']' in host)
  }

  function HostOf(raw: string): string {
    ToLower(TrimDots(StripPort(raw)))
  }

  lemma HostOfShorter(raw: string)
    ensures |HostOf(raw)| <= |StripPort(raw)| && ('/' in HostOf(raw) ==> '/' in raw)
  {
    LowerSegment(TrimDots(StripPort(raw)));
  }

  lemma HostBack(host: string)
    requires host != "" && ToLower(host) == host && NoOuterDots(host)
    ensures HostOf(Bracketed(host)) == host <==> BracketsMatch(host)
  {
    var b := Bracketed(host);
    HostOfShorter(b);
    if ':' in host {
      IndexOfBracket(host);
    } else if HasPrefix(host, "[") && ']' in host {
      assert |StripPort(host)| < |host|;
    }
  }

  lemma BracketInside(host: string, i: nat)
    requires i < |host| && host[i] == ']'
    ensures |StripPort("[" + host + "]")| < |host|
  {
    var b := "[" + host + "]";
    assert b[i + 1] == ']';
    IndexOfFirst(b, ']', i + 1);
    PrefixOf("[", host + "]");
    assert b == "[" + (host + "]");
  }

  lemma BracketsOff(host: string)
    requires ']' !in host
    ensures StripPort("[" + host + "]") == host
  {
    var b := "[" + host + "]";
    assert b == ("[" + host) + [']'] + "";
    IndexOfAfter("[" + host, ']', "");
    assert b[1..|host| + 1] == host;
    assert b[|host| + 1] == ']';
  }

  // Brackets come off at the first closing one.
  lemma IndexOfBracket(host: string)
    ensures StripPort("[" + host + "]") == host <==> ']' !in host
    ensures ']' in host ==> |StripPort("[" + host + "]")| < |host|
  {
    if ']' in host {
      var i :| 0 <= i < |host| && host[i] == ']';
      BracketInside(host, i);
    } else {
      BracketsOff(host);
    }
  }

  // ---------------------------------------------------------------- the path comes back

  // The parts' lengths, one more each for the slash that ends it.
  function Weight(parts: seq<string>): nat {
    if parts == [] then 0 else |parts[0]| + 1 + Weight(parts[1..])
  }

  lemma {:induction false} WeightConcat(x: seq<string>, y: seq<string>)
    ensures Weight(x + y) == Weight(x) + Weight(y)
  {
    if x == [] {
      assert x + y == y;
    } else {
      assert (x + y)[1..] == x[1..] + y;
      WeightConcat(x[1..], y);
    }
  }

  lemma {:induction false} WeightOfJoin(parts: seq<string>)
    requires parts != []
    ensures |Join(parts, '/')| + 1 == Weight(parts)
  {
    if |parts| > 1 {
      WeightOfJoin(parts[1..]);
    }
  }

  lemma {:induction false} KeptWeighsLess(parts: seq<string>)
    ensures Weight(Kept(parts)) <= Weight(parts)
  {
    if parts != [] {
      KeptWeighsLess(parts[1..]);
      assert parts == [parts[0]] + parts[1..];
      WeightConcat([parts[0]], Kept(parts[1..]));
    }
  }

  lemma {:induction false} ReducedWeighsLess(kept: seq<string>)
    ensures Weight(Reduced(kept)) <= Weight(kept)
    decreases |kept|, if kept == [] then 0 else |kept[|kept| - 1]|
  {
    if kept != [] {
      var n := |kept| - 1;
      assert kept == kept[..n] + [kept[n]];
      WeightConcat(kept[..n], [kept[n]]);
      if EqualFold(kept[n], GIT) {
        ReducedWeighsLess(kept[..n]);
      } else if EndsInGit(kept[n]) {
        var cut := kept[n][..|kept[n]| - |GIT|];
        WeightConcat(kept[..n], [cut]);
        ReducedWeighsLess(kept[..n] + [cut]);
      }
    }
  }

  // Cleaning a path never makes it longer than its parts were.
  lemma CleanedIsShort(p: string, fold: bool, parts: seq<string>)
    requires Kept(Split(p, '/')) == Kept(parts)
    ensures |CleanPath(p, fold, false)| <= Weight(parts) && (parts != [] ==> |CleanPath(p, fold, false)| < Weight(parts))
  {
    var reduced := Reduced(Kept(parts));
    KeptWeighsLess(parts);
    ReducedWeighsLess(Kept(parts));
    if reduced != [] { WeightOfJoin(reduced); }
  }

  lemma LeadingSlash(q: string)
    ensures Kept(Split("/" + q, '/')) == Kept(Split(q, '/'))
  {
    SplitLeading(q, '/');
    assert ([""] + Split(q, '/'))[1..] == Split(q, '/');
  }

  lemma PathShrinks(q: string, fold: bool)
    ensures |CleanPath("/" + q, fold, false)| <= |q|
  {
    LeadingSlash(q);
    CleanedIsShort("/" + q, fold, Split(q, '/'));
    WeightOfJoin(Split(q, '/'));
  }

  predicate EndsInDot(path: string) {
    path == "." || HasSuffix(path, "/.")
  }

  lemma DotAfterSlash(front: string, last: string)
    requires '/' !in last
    ensures EndsInDot(front + ['/'] + last) <==> last == "."
  {
    var path := front + ['/'] + last;
    assert path[|front|] == '/';
    if |path| >= 2 {
      var tail := path[|path| - 2..];
      assert tail == [path[|path| - 2], path[|path| - 1]];
      if |last| >= 2 { assert path[|path| - 2] == last[|last| - 2]; }
    }
  }

  lemma EndsInDotLast(segs: seq<string>)
    requires segs != [] && forall i :: 0 <= i < |segs| ==> '/' !in segs[i]
    ensures EndsInDot(Join(segs, '/')) <==> segs[|segs| - 1] == "."
  {
    var n := |segs| - 1;
    if n == 0 {
      if |segs[0]| >= 2 { assert segs[0][|segs[0]| - 2..][0] == segs[0][|segs[0]| - 2]; }
    } else {
      assert segs == segs[..n] + [segs[n]];
      JoinConcat(segs[..n], [segs[n]], '/');
      DotAfterSlash(Join(segs[..n], '/'), segs[n]);
    }
  }

  lemma {:induction false} KeptAll(parts: seq<string>)
    requires forall i :: 0 <= i < |parts| ==> !Blank(parts[i])
    ensures Kept(parts) == parts
  {
    if parts != [] {
      KeptAll(parts[1..]);
    }
  }

  lemma CleanedFrom(p: string, fold: bool, kept: seq<string>)
    requires Kept(Split(p, '/')) == kept
    ensures CleanPath(p, fold, false) == Folded(Join(Reduced(kept), '/'), fold)
  {
  }

  lemma KeptButDot(segs: seq<string>)
    requires segs != [] && segs[|segs| - 1] == "."
    ensures Kept(segs) == Kept(segs[..|segs| - 1]) && Weight(segs) == Weight(segs[..|segs| - 1]) + 2
  {
    var n := |segs| - 1;
    assert segs == segs[..n] + [segs[n]];
    KeptConcat(segs[..n], [segs[n]]);
    WeightConcat(segs[..n], [segs[n]]);
  }

  lemma PathWithDot(path: string, segs: seq<string>, fold: bool)
    requires segs != [] && path == Join(segs, '/') && Split(path, '/') == segs && segs[|segs| - 1] == "."
    ensures |CleanPath("/" + path, fold, false)| < |path|
  {
    LeadingSlash(path);
    KeptButDot(segs);
    CleanedIsShort("/" + path, fold, segs[..|segs| - 1]);
    WeightOfJoin(segs);
  }

  lemma AllKept(segs: seq<string>, fold: bool)
    requires CleanSegments(segs, fold) && segs != [] && segs[|segs| - 1] != "."
    ensures Kept(segs) == segs && Reduced(segs) == segs && Folded(Join(segs, '/'), fold) == Join(segs, '/')
  {
    forall i | 0 <= i < |segs| ensures !Blank(segs[i]) && Folded(segs[i], fold) == segs[i] {
    }
    KeptAll(segs);
    FoldedJoin(segs, fold);
  }

  lemma PathWithoutDot(path: string, segs: seq<string>, fold: bool)
    requires segs != [] && path == Join(segs, '/') && Split(path, '/') == segs && segs[|segs| - 1] != "."
    requires CleanSegments(segs, fold)
    ensures CleanPath("/" + path, fold, false) == path
  {
    LeadingSlash(path);
    AllKept(segs, fold);
    CleanedFrom("/" + path, fold, segs);
  }

  // A cleaned path is cleaned to itself, unless its last part is ".".
  lemma PathBack(path: string, fold: bool)
    requires CleanSegments(Segments(path), fold)
    ensures CleanPath("/" + path, fold, false) == path <==> !EndsInDot(path)
  {
    var segs := Segments(path);
    if segs == [] {
      PathShrinks(path, fold);
    } else {
      EndsInDotLast(segs);
      if segs[|segs| - 1] == "." {
        PathWithDot(path, segs, fold);
      } else {
        PathWithoutDot(path, segs, fold);
      }
    }
  }

  lemma FoldedJoin(segs: seq<string>, fold: bool)
    requires forall i :: 0 <= i < |segs| ==> Folded(segs[i], fold) == segs[i]
    ensures Folded(Join(segs, '/'), fold) == Join(segs, '/')
  {
    if fold {
      LowerJoin(segs);
      assert Lowered(segs) == segs;
    }
  }

  // ---------------------------------------------------------------- round trip

  predicate EndsInSpace(s: string) {
    s != "" && IsSpace(s[|s| - 1])
  }

  // The parsed repositories the stored form loses nothing of.
  predicate Restorable(r: Repo) {
    '/' !in r.host && BracketsMatch(r.host) && !EndsInDot(r.path) && !EndsInSpace(Location(r))
  }

  // What a stored location is read as.
  function Reread(r: Repo): Repo {
    Cleaned(CutUrl("https", TrimRight(Location(r))))
  }

  lemma RereadHost(rest: string)
    ensures '/' !in Cleaned(CutUrl("https", rest)).host
  {
    var slash := IndexOf(rest, '/');
    var host := if slash < 0 then rest else rest[..slash];
    assert '/' !in host;
    HostOfShorter(host);
  }

  lemma BracketedSlash(host: string)
    ensures '/' in Bracketed(host) <==> '/' in host
  {
  }

  lemma RereadNamed(r: Repo, h: string)
    requires CutUrl("https", TrimRight(Location(r))) == Named(h, "")
    ensures Reread(r) == Repo(ToLower(TrimDots(h)), "")
  {
    assert forall fold, keep :: CleanPath("", fold, keep) == "";
  }

  // With no path, the location is the host alone.
  lemma RereadBare(r: Repo)
    requires Shaped(r) && r.path == "" && '/' !in r.host
    ensures Reread(r) == r <==> Restorable(r)
  {
    var b := Bracketed(r.host);
    var t := TrimRight(b);
    BracketedSlash(r.host);
    assert '/' !in t;
    RereadNamed(r, StripPort(t));
    if EndsInSpace(b) {
      assert ':' !in r.host;
      HostOfShorter(t);
    } else {
      assert t == b;
      HostBack(r.host);
    }
  }

  lemma CutSlash(b: string, tail: string)
    requires '/' !in b && tail != "" && tail[0] == '/'
    ensures IndexOf(b + tail, '/') == |b| && (b + tail)[..|b|] == b && (b + tail)[|b|..] == tail
  {
    var t := b + tail;
    forall j | 0 <= j < |b| ensures t[j] != '/' {
      assert t[j] == b[j] && b[j] in b;
    }
    assert t[|b|] == '/';
    IndexOfFirst(t, '/', |b|);
  }

  lemma CutTail(scheme: string, b: string, path: string)
    requires scheme != "file" && '/' !in b
    ensures CutUrl(scheme, b + ("/" + path)) == Named(StripPort(b), "/" + path)
  {
    CutSlash(b, "/" + path);
  }

  // With a path, host and path come back each by itself.
  lemma RereadCut(r: Repo)
    requires Shaped(r) && r.path != "" && '/' !in r.host
    ensures CutUrl("https", TrimRight(Location(r))) == Named(StripPort(Bracketed(r.host)), "/" + TrimRight(r.path))
  {
    BracketedSlash(r.host);
    TrimLocation(Bracketed(r.host), r.path);
    CutTail("https", Bracketed(r.host), TrimRight(r.path));
  }

  lemma TrimLocation(b: string, path: string)
    ensures TrimRight(b + "/" + path) == b + ("/" + TrimRight(path))
  {
    TrimRightAfter(b + "/", path);
    assert (b + "/") + TrimRight(path) == b + ("/" + TrimRight(path));
  }

  lemma SpaceEndsPath(r: Repo)
    requires r.path != ""
    ensures EndsInSpace(Location(r)) <==> |TrimRight(r.path)| < |r.path|
  {
    var l := Location(r);
    assert l[|l| - 1] == r.path[|r.path| - 1];
  }

  lemma RereadFull(r: Repo)
    requires Shaped(r) && r.path != "" && '/' !in r.host
    ensures Reread(r) == r <==> Restorable(r)
  {
    RereadCut(r);
    HostBack(r.host);
    SpaceEndsPath(r);
    var path := TrimRight(r.path);
    PathShrinks(path, Caseless(r.host));
    if path == r.path { PathBack(path, Caseless(r.host)); }
  }

  // For any URL that names a host, reading its stored form gives the same host
  // and path back if and only if the host holds no slash and no stray bracket,
  // the path does not end in a "." part and nothing ends in white space.
  lemma RoundTrip(raw: string)
    requires Parse(raw).host != ""
    ensures Parse(Canonical(raw)) == Parse(raw) <==> Restorable(Parse(raw))
  {
    var r := Parse(raw);
    ParsedIsShaped(raw);
    PlainLocation(r);
    ParseStored(Location(r));
    if '/' in r.host {
      RereadHost(TrimRight(Location(r)));
    } else if r.path == "" {
      RereadBare(r);
    } else {
      RereadFull(r);
    }
  }

  lemma PlainLocation(r: Repo)
    requires Plain(r.host) && Plain(r.path)
    ensures Plain(Location(r))
  {
    PlainConcat("[" + r.host, "]");
    PlainConcat("[", r.host);
    PlainConcat(Bracketed(r.host) + "/", r.path);
    PlainConcat(Bracketed(r.host), "/");
  }

  // Storing a stored form again changes nothing, and neither does its identity.
  lemma StoredIsStable(raw: string)
    requires Parse(raw).host != "" ==> Restorable(Parse(raw))
    ensures Canonical(Canonical(raw)) == Canonical(raw)
    ensures Parse(raw).host != "" ==> Normalize(Canonical(raw)) == Normalize(raw)
  {
    if Parse(raw).host != "" {
      RoundTrip(raw);
    } else {
      assert TrimSpace("") == "";
    }
  }
}
