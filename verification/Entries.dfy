// What the .metiche lines say, folded in order: a later team or project wins,
// a key seen before is a duplicate (cli/internal/binding/binding.go, Parse).
module Entries {
  import opened Model
  import opened Sorting

  datatype Entry = Entry(key: string, value: string)

  datatype File = File(
    team: string, project: string, hasTeam: bool, hasProject: bool,
    duplicates: seq<string>, unknown: seq<string>)

  // What has been read, and the keys seen.
  datatype Reading = Reading(file: File, seen: set<string>)

  const NOTHING := Reading(File("", "", false, false, [], []), {})

  const TEAM := "team"
  const PROJECT := "project"

  function Taken(f: File, e: Entry): File {
    if e.key == TEAM then f.(team := e.value, hasTeam := e.value != "")
    else if e.key == PROJECT then f.(project := e.value, hasProject := e.value != "")
    else f.(unknown := f.unknown + [e.key])
  }

  function After(r: Reading, entry: Option<Entry>): Reading {
    match entry
    case None => r
    case Some(e) =>
      var f := if e.key in r.seen then r.file.(duplicates := r.file.duplicates + [e.key]) else r.file;
      Reading(Taken(f, e), r.seen + {e.key})
  }

  // A line says nothing, or names a key.
  function ReadAll(es: seq<Option<Entry>>): Reading {
    if es == [] then NOTHING else After(ReadAll(es[..|es| - 1]), es[|es| - 1])
  }

  predicate ForTeam(e: Option<Entry>) { e.Some? && e.value.key == TEAM }

  predicate ForProject(e: Option<Entry>) { e.Some? && e.value.key == PROJECT }

  predicate ForOther(e: Option<Entry>) { !ForTeam(e) && !ForProject(e) }

  lemma KeysDiffer()
    ensures TEAM != PROJECT
  {
    assert TEAM[0] != PROJECT[0];
  }

  // The value the last of these gives.
  function LastValue(es: seq<Option<Entry>>): string {
    if es == [] then "" else match es[|es| - 1] case Some(e) => e.value case None => ""
  }

  ghost predicate TeamRead(r: Reading, ts: seq<Option<Entry>>) {
    && r.file.team == LastValue(ts) && r.file.hasTeam == (r.file.team != "")
    && (TEAM in r.seen <==> ts != []) && (TEAM in r.file.duplicates <==> |ts| > 1)
  }

  ghost predicate ProjectRead(r: Reading, ps: seq<Option<Entry>>) {
    && r.file.project == LastValue(ps) && r.file.hasProject == (r.file.project != "")
    && (PROJECT in r.seen <==> ps != []) && (PROJECT in r.file.duplicates <==> |ps| > 1)
  }

  lemma TeamAfter(r: Reading, ts: seq<Option<Entry>>, e: Option<Entry>)
    requires TeamRead(r, ts)
    ensures TeamRead(After(r, e), ts + if ForTeam(e) then [e] else [])
  {
    KeysDiffer();
    if ForTeam(e) { assert (ts + [e])[|ts|] == e; }
  }

  lemma ProjectAfter(r: Reading, ps: seq<Option<Entry>>, e: Option<Entry>)
    requires ProjectRead(r, ps)
    ensures ProjectRead(After(r, e), ps + if ForProject(e) then [e] else [])
  {
    KeysDiffer();
    if ForProject(e) { assert (ps + [e])[|ps|] == e; }
  }

  // The team is that of the last team line, and is a duplicate if there are more.
  lemma {:induction false} TeamIsRead(es: seq<Option<Entry>>)
    ensures TeamRead(ReadAll(es), Only(es, ForTeam))
  {
    if es != [] {
      var t, e := es[..|es| - 1], es[|es| - 1];
      TeamIsRead(t);
      OnlyStep(t, e, ForTeam);
      assert es == t + [e];
      TeamAfter(ReadAll(t), Only(t, ForTeam), e);
    }
  }

  lemma {:induction false} ProjectIsRead(es: seq<Option<Entry>>)
    ensures ProjectRead(ReadAll(es), Only(es, ForProject))
  {
    if es != [] {
      var t, e := es[..|es| - 1], es[|es| - 1];
      ProjectIsRead(t);
      OnlyStep(t, e, ForProject);
      assert es == t + [e];
      ProjectAfter(ReadAll(t), Only(t, ForProject), e);
    }
  }

  function KeyOf(e: Option<Entry>): string {
    if e.Some? then e.value.key else ""
  }

  predicate Says(e: Option<Entry>, key: string) { e.Some? && e.value.key == key }

  predicate SaysForeign(e: Option<Entry>) { e.Some? && Foreign(e.value.key) }

  // How often a key is named.
  function Times(es: seq<Option<Entry>>, key: string): nat {
    |Only(es, (e: Option<Entry>) => Says(e, key))|
  }

  // The keys other than team and project are listed as they come.
  lemma {:induction false} UnknownAreRead(es: seq<Option<Entry>>)
    ensures ReadAll(es).file.unknown == Map(Only(es, SaysForeign), KeyOf)
  {
    if es != [] {
      var t, e := es[..|es| - 1], es[|es| - 1];
      UnknownAreRead(t);
      OnlyStep(t, e, SaysForeign);
      assert es == t + [e];
      MapAppend(Only(t, SaysForeign), e, KeyOf);
      assert Only(t, SaysForeign) + [] == Only(t, SaysForeign);
    }
  }

  predicate Repeated(r: Reading, key: string, times: nat) {
    && (key in r.seen <==> times > 0)
    && multiset(r.file.duplicates)[key] == if times > 0 then times - 1 else 0
  }

  lemma RepeatedAfter(r: Reading, e: Option<Entry>, key: string, times: nat)
    requires Repeated(r, key, times)
    ensures Repeated(After(r, e), key, if Says(e, key) then times + 1 else times)
  {
    if e.Some? { assert multiset(r.file.duplicates + [e.value.key]) == multiset(r.file.duplicates) + multiset{e.value.key}; }
  }

  // Every key is listed as a duplicate once for each time it is named again.
  lemma {:induction false} DuplicatesAreRead(es: seq<Option<Entry>>, key: string)
    ensures Repeated(ReadAll(es), key, Times(es, key))
  {
    if es != [] {
      var t, e := es[..|es| - 1], es[|es| - 1];
      DuplicatesAreRead(t, key);
      RepeatedAfter(ReadAll(t), e, key, Times(t, key));
      OnlyStep(t, e, (x: Option<Entry>) => Says(x, key));
      assert es == t + [e];
    }
  }

  predicate Foreign(key: string) { key != TEAM && key != PROJECT }

  // What two readings say of keys other than team and project.
  ghost predicate SameForeign(r: Reading, o: Reading) {
    && r.file.unknown == o.file.unknown && Only(r.file.duplicates, Foreign) == Only(o.file.duplicates, Foreign)
    && forall k :: Foreign(k) ==> (k in r.seen <==> k in o.seen)
  }

  lemma ForeignAfter(r: Reading, o: Reading, e: Option<Entry>)
    requires SameForeign(r, o)
    ensures ForOther(e) ==> SameForeign(After(r, e), After(o, e))
    ensures !ForOther(e) ==> SameForeign(After(r, e), o)
  {
    if e.Some? {
      OnlyStep(r.file.duplicates, e.value.key, Foreign);
      OnlyStep(o.file.duplicates, e.value.key, Foreign);
    }
  }

  // The team and project lines change nothing that is read of other keys.
  lemma {:induction false} OthersAreRead(es: seq<Option<Entry>>)
    ensures SameForeign(ReadAll(es), ReadAll(Only(es, ForOther)))
  {
    if es != [] {
      var t, e := es[..|es| - 1], es[|es| - 1];
      var o := Only(t, ForOther);
      OthersAreRead(t);
      OnlyStep(t, e, ForOther);
      assert es == t + [e];
      ForeignAfter(ReadAll(t), ReadAll(o), e);
      if ForOther(e) {
        ReadAppend(o, e);
        assert Only(es, ForOther) == o + [e];
      } else {
        assert Only(es, ForOther) == o;
      }
      assert ReadAll(es) == After(ReadAll(t), e);
    }
  }

  lemma ReadAppend(es: seq<Option<Entry>>, e: Option<Entry>)
    ensures ReadAll(es + [e]) == After(ReadAll(es), e)
  {
    assert (es + [e])[..|es|] == es;
  }

  // Entries with one team, at most one project and given others read as such.
  lemma OneOfEach(es: seq<Option<Entry>>, team: string, project: string, before: seq<Option<Entry>>)
    requires Only(es, ForTeam) == [Some(Entry(TEAM, team))]
    requires Only(es, ForProject) == (if project == "" then [] else [Some(Entry(PROJECT, project))])
    requires Only(es, ForOther) == Only(before, ForOther)
    ensures var f, g := ReadAll(es).file, ReadAll(before).file;
      && f.team == team && f.hasTeam == (team != "") && f.project == project && f.hasProject == (project != "")
      && TEAM !in f.duplicates && PROJECT !in f.duplicates
      && f.unknown == g.unknown && Only(f.duplicates, Foreign) == Only(g.duplicates, Foreign)
  {
    TeamIsRead(es);
    ProjectIsRead(es);
    OthersAreRead(es);
    OthersAreRead(before);
  }
}
