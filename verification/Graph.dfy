// The entanglement graph (frontend/internal/state/graph.go) and the overlap of
// two holds (frontend/internal/model/history.go).
module Graph {
  import opened Counting
  import opened Model
  import opened Sorting
  import Text

  // ---------------------------------------------------------------- holds

  // One path a session held; until is zero while it is still held.
  datatype Hold = Hold(sessionKey: string, path: string, since: Time, until: Time)

  const FOREVER: Time := 0x4000_0000_0000_0000

  function End(h: Hold): Time {
    if h.until == ZERO_TIME then FOREVER else h.until
  }

  predicate Overlaps(h: Hold, o: Hold) {
    h.since < End(o) && o.since < End(h)
  }

  predicate During(h: Hold, t: Time) {
    h.since <= t < End(h)
  }

  // Some instant lies in both holds.
  ghost predicate Simultaneous(h: Hold, o: Hold) {
    exists t :: During(h, t) && During(o, t)
  }

  // A hold that lasts no time, begun and ended inside the other.
  predicate Swallowed(h: Hold, o: Hold) {
    o.since < End(h) <= h.since < End(o)
  }

  // Overlapping means sharing an instant, except exactly when one hold lasts no
  // time and lies strictly inside the other.
  lemma OverlapMeansSimultaneous(h: Hold, o: Hold)
    ensures (Overlaps(h, o) <==> Simultaneous(h, o)) <==> !Swallowed(h, o) && !Swallowed(o, h)
  {
    var t := if h.since < o.since then o.since else h.since;
    if Overlaps(h, o) && h.since < End(h) && o.since < End(o) {
      assert During(h, t) && During(o, t);
    }
  }

  // A hold covers each instant from its beginning to its release, or to the end
  // of time while it has none.
  lemma HoldCovers(h: Hold, t: Time)
    ensures During(h, t) <==> h.since <= t && if h.until == 0 then t < 0x4000_0000_0000_0000 else t < h.until
  {
  }

  // Such a hold: begun and released in the same instant during another.
  lemma InstantHoldOverlaps()
    ensures var h := Hold("s1", "api/x", 5, 5); var o := Hold("s2", "api/y", 3, 8);
      Overlaps(h, o) && !Simultaneous(h, o)
  {
  }

  // ---------------------------------------------------------------- areas

  function CutGlob(p: string): string {
    var i := Text.IndexOf(p, '*');
    if i < 0 then p else p[..i]
  }

  function TrimSlash(p: string): string {
    if Text.HasSuffix(p, "/") then p[..|p| - 1] else p
  }

  function AreaOf(p: string): string {
    var parts := Text.Split(p, '/');
    if |parts| <= 1 then (if p == "" then "/" else p)
    else if |parts| == 2 then parts[0] + "/"
    else Text.Join(parts[..|parts| - 1], '/') + "/"
  }

  function PathArea(path: string): string {
    AreaOf(TrimSlash(CutGlob(path)))
  }

  // A name in a directory: no slash and no glob.
  predicate FileName(name: string) {
    name != "" && '/' !in name && '*' !in name
  }

  // A file's area is the directory it is in.
  lemma FileArea(dir: string, name: string)
    requires '*' !in dir && FileName(name)
    ensures PathArea(dir + "/" + name) == dir + "/"
  {
    var p := dir + ['/'] + name;
    assert CutGlob(p) == p;
    assert p[|p| - 1] == name[|name| - 1];
    assert TrimSlash(p) == p;
    SplitFile(dir, name);
    var parts := Text.Split(dir, '/');
    assert (parts + [name])[..|parts|] == parts;
  }

  lemma SplitFile(dir: string, name: string)
    requires '/' !in name
    ensures Text.Split(dir + ['/'] + name, '/') == Text.Split(dir, '/') + [name]
  {
    Text.SplitAt(dir, name, '/');
    assert Text.Split(name, '/') == [name];
  }

  // The area of a bare name is the name, or the root if it is blank; that of a
  // path is the path to its last slash.
  lemma AreaIs(dir: string, name: string, p: string)
    requires '/' !in name
    ensures p == name ==> AreaOf(p) == if p == "" then "/" else p
    ensures p == dir + ['/'] + name ==> AreaOf(p) == dir + ['/']
  {
    if p == name {
      assert Text.Split(p, '/') == [p];
    } else if p == dir + ['/'] + name {
      SplitFile(dir, name);
      var parts := Text.Split(dir, '/');
      assert (parts + [name])[..|parts|] == parts;
      assert Text.Join(parts, '/') == dir;
    }
  }

  // Two files share an area exactly when they are in one directory.
  lemma FilesShareArea(dir: string, name: string, dir': string, name': string)
    requires '*' !in dir && FileName(name) && '*' !in dir' && FileName(name')
    ensures PathArea(dir + "/" + name) == PathArea(dir' + "/" + name') <==> dir == dir'
  {
    FileArea(dir, name);
    FileArea(dir', name');
    assert dir == (dir + "/")[..|dir|] && dir' == (dir' + "/")[..|dir'|];
  }

  // A claim on everything under a directory lands one level up: outside the
  // root, never in the area of the files it covers.
  lemma GlobLandsElsewhere(dir: string, name: string, glob: string)
    requires '*' !in dir && FileName(name) && glob != "" && glob[0] == '*'
    ensures PathArea(dir + "/" + glob) != PathArea(dir + "/" + name) <==> dir != ""
  {
    GlobTrimmed(dir, glob);
    FileArea(dir, name);
    AreaIsShort(dir);
  }

  // A glob with nothing in front covers the root.
  lemma BareGlob(glob: string)
    requires glob != "" && glob[0] == '*'
    ensures PathArea(glob) == "/"
  {
    assert CutGlob(glob) == "";
  }

  lemma GlobTrimmed(dir: string, glob: string)
    requires '*' !in dir && glob != "" && glob[0] == '*'
    ensures PathArea(dir + "/" + glob) == AreaOf(dir)
  {
    var p := dir + "/" + glob;
    assert p == (dir + "/") + ['*'] + glob[1..];
    Text.IndexOfAfter(dir + "/", '*', glob[1..]);
    assert p[..|dir| + 1] == dir + "/";
    assert (dir + "/")[|dir + "/"| - 1..] == "/";
    assert (dir + "/")[..|dir|] == dir;
  }

  lemma AreaIsShort(dir: string)
    ensures dir != "" ==> |AreaOf(dir)| <= |dir|
    ensures dir == "" ==> AreaOf(dir) == "/"
  {
    var parts := Text.Split(dir, '/');
    if |parts| >= 2 {
      var n := |parts| - 1;
      assert parts == parts[..n] + [parts[n]];
      Text.JoinConcat(parts[..n], [parts[n]], '/');
    }
  }

  // ---------------------------------------------------------------- what was visited

  // One touch of an artifact by a session, or one hold of the session on it.
  datatype Visit = Visit(id: string, session: string, hold: Option<Hold>)

  datatype Mark = Mark(id: string, severity: string, alert: bool)

  ghost predicate Touched(vs: seq<Visit>, id: string) {
    exists v :: v in vs && v.id == id
  }

  ghost predicate TouchedBy(vs: seq<Visit>, id: string, session: string) {
    exists v :: v in vs && v.id == id && v.session == session
  }

  ghost predicate HeldBy(vs: seq<Visit>, id: string, session: string, h: Hold) {
    Visit(id, session, Some(h)) in vs
  }

  // More than one session touched the artifact.
  ghost predicate Shared(vs: seq<Visit>, id: string) {
    exists s, t :: TouchedBy(vs, id, s) && TouchedBy(vs, id, t) && s != t
  }

  // Two sessions held the artifact with overlapping holds.
  ghost predicate Overlapped(vs: seq<Visit>, id: string) {
    exists s, t, h, o :: HeldBy(vs, id, s, h) && HeldBy(vs, id, t, o) && s != t && Overlaps(h, o)
  }

  ghost predicate Crosses(vs: seq<Visit>, id: string, timed: bool) {
    Shared(vs, id) && (timed ==> Overlapped(vs, id))
  }

  // The worst severity an artifact is marked with.
  function WorstRank(ms: seq<Mark>, id: string): (r: int)
    ensures 0 <= r <= 4
    ensures forall m :: m in ms && m.id == id ==> SeverityRank(m.severity) <= r
    ensures r > 0 ==> exists m :: m in ms && m.id == id && SeverityRank(m.severity) == r
  {
    if ms == [] then 0
    else
      var n := |ms| - 1;
      assert ms == ms[..n] + [ms[n]];
      var before := WorstRank(ms[..n], id);
      if ms[n].id == id && SeverityRank(ms[n].severity) > before then SeverityRank(ms[n].severity) else before
  }

  // ---------------------------------------------------------------- the build

  // An artifact as built so far: its sessions in the order they came, and each
  // session's holds on it.
  datatype Artifact = Artifact(id: string, order: seq<string>, holds: map<string, seq<Hold>>)

  function HoldsOf(a: Artifact, session: string): seq<Hold> {
    if session in a.holds then a.holds[session] else []
  }

  ghost predicate ArtifactOk(a: Artifact, id: string, vs: seq<Visit>) {
    && a.id == id && NoRepeats(a.order)
    && (forall s :: s in a.order <==> TouchedBy(vs, id, s))
    && (forall s, h :: h in HoldsOf(a, s) <==> HeldBy(vs, id, s, h))
  }

  ghost predicate ArtsOk(arts: map<string, Artifact>, artOrder: seq<string>, vs: seq<Visit>) {
    && NoRepeats(artOrder) && (forall id :: id in artOrder <==> id in arts)
    && (forall id :: id in arts <==> Touched(vs, id))
    && (forall id :: id in arts ==> ArtifactOk(arts[id], id, vs))
  }

  lemma VisitsStep(vs: seq<Visit>, v: Visit)
    ensures forall id :: Touched(vs + [v], id) <==> Touched(vs, id) || v.id == id
    ensures forall id, s :: TouchedBy(vs + [v], id, s) <==> TouchedBy(vs, id, s) || (v.id == id && v.session == s)
    ensures forall id, s, h :: HeldBy(vs + [v], id, s, h) <==> HeldBy(vs, id, s, h) || v == Visit(id, s, Some(h))
  {
    assert forall x :: x in vs + [v] <==> x in vs || x == v;
  }

  // An artifact no visit is about stays as it was.
  lemma OtherArtifact(a: Artifact, id: string, vs: seq<Visit>, v: Visit)
    requires ArtifactOk(a, id, vs) && v.id != id
    ensures ArtifactOk(a, id, vs + [v])
  {
    VisitsStep(vs, v);
  }

  function SeverityIn(sevFor: map<string, string>, id: string): string {
    if id in sevFor then sevFor[id] else ""
  }

  ghost predicate MarksOk(sevFor: map<string, string>, alertFor: set<string>, ms: seq<Mark>) {
    && (forall id :: SeverityRank(SeverityIn(sevFor, id)) == WorstRank(ms, id))
    && (forall id :: id in alertFor <==> Alarmed(ms, id))
  }

  ghost predicate Alarmed(ms: seq<Mark>, id: string) {
    exists m :: m in ms && m.id == id && m.alert
  }

  lemma WorstStep(ms: seq<Mark>, m: Mark, id: string)
    ensures WorstRank(ms + [m], id)
      == if m.id == id && SeverityRank(m.severity) > WorstRank(ms, id) then SeverityRank(m.severity) else WorstRank(ms, id)
  {
    assert (ms + [m])[..|ms|] == ms;
  }

  function SevAfter(sevFor: map<string, string>, m: Mark): map<string, string> {
    if SeverityRank(m.severity) > SeverityRank(SeverityIn(sevFor, m.id)) then sevFor[m.id := m.severity] else sevFor
  }

  lemma SeverityStep(sevFor: map<string, string>, ms: seq<Mark>, m: Mark, id: string, before: int)
    requires before == SeverityRank(SeverityIn(sevFor, id))
    ensures SeverityRank(SeverityIn(SevAfter(sevFor, m), id))
      == if m.id == id && SeverityRank(m.severity) > before then SeverityRank(m.severity) else before
  {
  }

  lemma AlarmedStep(ms: seq<Mark>, m: Mark, id: string)
    ensures Alarmed(ms + [m], id) <==> Alarmed(ms, id) || (m.alert && m.id == id)
  {
    assert forall x :: x in ms + [m] <==> x in ms || x == m;
  }

  lemma MarkKeeps(sevFor: map<string, string>, alertFor: set<string>, ms: seq<Mark>, m: Mark)
    requires MarksOk(sevFor, alertFor, ms)
    ensures MarksOk(SevAfter(sevFor, m), if m.alert then alertFor + {m.id} else alertFor, ms + [m])
  {
    forall id ensures SeverityRank(SeverityIn(SevAfter(sevFor, m), id)) == WorstRank(ms + [m], id) {
      WorstStep(ms, m, id);
      SeverityStep(sevFor, ms, m, id, WorstRank(ms, id));
    }
    forall id ensures Alarmed(ms + [m], id) <==> Alarmed(ms, id) || (m.alert && m.id == id) {
      AlarmedStep(ms, m, id);
    }
  }

  class GraphBuild {
    const timed: bool
    const sessions: seq<string>
    var arts: map<string, Artifact>
    var artOrder: seq<string>
    var sevFor: map<string, string>
    var alertFor: set<string>
    ghost var visits: seq<Visit>
    ghost var marks: seq<Mark>

    ghost predicate Visited()
      reads this`arts, this`artOrder, this`visits
    {
      ArtsOk(arts, artOrder, visits)
    }

    ghost predicate Marked()
      reads this`sevFor, this`alertFor, this`marks
    {
      MarksOk(sevFor, alertFor, marks)
    }

    ghost predicate Valid()
      reads this
    {
      Visited() && Marked()
    }

    function SeverityFor(id: string): string
      reads this
    {
      SeverityIn(sevFor, id)
    }

    constructor (timed: bool, sessions: seq<string>)
      ensures Valid() && visits == [] && marks == []
      ensures this.timed == timed && this.sessions == sessions
    {
      this.timed, this.sessions := timed, sessions;
      arts, artOrder, sevFor, alertFor, visits, marks := map[], [], map[], {}, [], [];
    }

    method Touch(id: string, session: string)
      requires Valid()
      modifies this
      ensures Valid() && visits == old(visits) + [Visit(id, session, None)] && marks == old(marks)
    {
      var a := Artifact(id, [], map[]);
      if id in arts {
        a := arts[id];
      } else {
        artOrder := artOrder + [id];
      }
      var order := a.order;
      if session !in order {
        order := order + [session];
      }
      ghost var v := Visit(id, session, None);
      TouchKeeps(old(arts), old(artOrder), artOrder, visits, a, order, v);
      arts := arts[id := a.(order := order)];
      visits := visits + [v];
    }

    // The hold a past window appends to the artifact its session touched.
    method AddHold(id: string, session: string, h: Hold)
      requires Valid() && TouchedBy(visits, id, session)
      modifies this
      ensures Valid() && visits == old(visits) + [Visit(id, session, Some(h))] && marks == old(marks)
    {
      var a := arts[id];
      HoldKeeps(arts, artOrder, visits, id, session, h);
      arts := arts[id := a.(holds := a.holds[session := HoldsOf(a, session) + [h]])];
      visits := visits + [Visit(id, session, Some(h))];
    }

    method AddMark(id: string, severity: string, alert: bool)
      requires Valid()
      modifies this`sevFor, this`alertFor, this`marks
      ensures Valid() && marks == old(marks) + [Mark(id, severity, alert)]
    {
      ghost var m := Mark(id, severity, alert);
      MarkKeeps(sevFor, alertFor, marks, m);
      var worse := SeverityRank(severity) > SeverityRank(SeverityFor(id));
      var sev, alarmed := if worse then sevFor[id := severity] else sevFor, if alert then alertFor + {id} else alertFor;
      assert sev == SevAfter(sevFor, m);
      sevFor, alertFor, marks := sev, alarmed, marks + [m];
    }

    method Crossing(a: Artifact) returns (yes: bool)
      requires NoRepeats(a.order)
      ensures yes <==> |a.order| > 1 && (timed ==> Together(a))
    {
      yes := |a.order| > 1;
      if yes && timed {
        yes := HeldTogether(a);
      }
    }

    // What the comparator reads of one artifact.
    method LookOf(id: string) returns (look: Look)
      requires Valid() && id in arts
      ensures look == LookAt(visits, marks, timed, id)
    {
      var a := arts[id];
      var crossing := Crossing(a);
      ArtifactCrosses(a, id, visits);
      look := Look(id, crossing, |a.order| > 1, SeverityRank(SeverityFor(id)));
    }

    method LookAll() returns (looks: seq<Look>)
      requires Valid()
      ensures |looks| == |artOrder| && forall i :: 0 <= i < |looks| ==> looks[i] == LookAt(visits, marks, timed, artOrder[i])
    {
      looks := [];
      for i := 0 to |artOrder|
        invariant |looks| == i && forall j :: 0 <= j < i ==> looks[j] == LookAt(visits, marks, timed, artOrder[j])
      {
        assert artOrder[i] in artOrder;
        var look := LookOf(artOrder[i]);
        looks := looks + [look];
      }
    }

    method EdgesOf(k: Look) returns (edges: seq<Edge>)
      requires Valid() && Touched(visits, k.id)
      ensures forall e :: e in edges <==>
        TouchedBy(visits, k.id, e.session) && e.session in sessions && e == Edge(e.session, k.id, k.crossing, k.id in alertFor)
      ensures (forall v :: v in visits ==> v.session in sessions) ==> |edges| == |SessionsOf(visits, k.id)|
    {
      var a := arts[k.id];
      edges := [];
      OrderSize(a, k.id, visits);
      for i := 0 to |a.order|
        invariant forall e :: e in edges <==>
          e.session in a.order[..i] && e.session in sessions && e == Edge(e.session, k.id, k.crossing, k.id in alertFor)
        invariant (forall s :: s in a.order[..i] ==> s in sessions) ==> |edges| == i
      {
        var session := a.order[i];
        assert a.order[..i + 1] == a.order[..i] + [session];
        if session in sessions {
          edges := edges + [Edge(session, k.id, k.crossing, k.id in alertFor)];
        }
      }
      assert a.order[..|a.order|] == a.order;
    }

    // One artifact's node and edges.
    method Draw(k: Look) returns (node: Node, more: seq<Edge>)
      requires Valid() && Touched(visits, k.id) && (k.shared <==> Shared(visits, k.id)) && (k.crossing ==> k.shared)
      ensures node == NodeAt(k, visits, SeverityFor(k.id), k.id in alertFor)
      ensures forall e :: e in more <==> EdgeOf(e, k, visits, sessions, alertFor)
      ensures (forall v :: v in visits ==> v.session in sessions) ==> |more| == node.degree
    {
      var a := arts[k.id];
      OrderSize(a, k.id, visits);
      var degree := |a.order|;
      node := Node(k.id, degree, !k.crossing && degree > 1, SeverityFor(k.id), k.id in alertFor);
      more := EdgesOf(k);
    }

    method Layout()
      returns (nodes: seq<Node>, edges: seq<Edge>, contended: nat, handoffs: nat, alerts: nat, calm: bool, ghost looks: seq<Look>)
      requires Valid()
      ensures IsLayout(looks, visits, marks, timed)
      ensures NodesOf(nodes, looks, visits, sevFor, alertFor)
      ensures EdgesAre(edges, looks, visits, sessions, alertFor)
      ensures (forall v :: v in visits ==> v.session in sessions) ==> |edges| == Degrees(nodes)
      ensures contended + handoffs == |Only(looks, IsShared)| && contended == |Only(looks, IsCrossing)|
      ensures alerts == |Only(nodes, IsAlarmed)| && (calm <==> contended == 0 && alerts == 0)
    {
      var kept := LookAll();
      LooksLaidOut(kept, artOrder, visits, marks, timed);
      kept := Sorted(kept, Above);
      looks := kept;
      forall i | 0 <= i < |kept| ensures LookOk(kept[i], visits) {
        LaidOutAt(kept, i, visits, marks, timed);
      }
      var d := DrawAll(kept);
      CrossingsAndHandoffs(kept);
      nodes, edges, contended, handoffs, alerts := d.nodes, d.edges, d.contended, d.handoffs, d.alerts;
      calm := contended == 0 && alerts == 0;
    }

    method DrawAll(kept: seq<Look>) returns (d: Drawing)
      requires Valid() && forall i :: 0 <= i < |kept| ==> LookOk(kept[i], visits)
      ensures DrawingOf(d, kept, visits, sessions, sevFor, alertFor)
    {
      d := Drawing([], [], 0, 0, 0);
      ghost var drawn: seq<Look> := [];
      for i := 0 to |kept|
        invariant drawn == kept[..i] && DrawingOf(d, drawn, visits, sessions, sevFor, alertFor)
      {
        d := DrawNext(d, kept[i], drawn);
        drawn := drawn + [kept[i]];
      }
      assert drawn == kept;
    }

    // What is drawn so far, with one artifact more.
    method DrawNext(d: Drawing, k: Look, ghost looks: seq<Look>) returns (next: Drawing)
      requires Valid() && LookOk(k, visits)
      requires DrawingOf(d, looks, visits, sessions, sevFor, alertFor)
      ensures DrawingOf(next, looks + [k], visits, sessions, sevFor, alertFor)
    {
      var node, more := Draw(k);
      var contended, handoffs := d.contended, d.handoffs;
      if k.crossing {
        contended := contended + 1;
      } else if node.degree > 1 {
        handoffs := handoffs + 1;
      }
      next := Drawing(d.nodes + [node], d.edges + more, contended, handoffs, if node.alert then d.alerts + 1 else d.alerts);
      HandoffDegree(k, visits);
      DrawingNext(d, next, looks, k, node, more, visits, sessions, sevFor, alertFor);
    }
  }

  lemma TouchKeeps(arts: map<string, Artifact>, order0: seq<string>, order1: seq<string>, vs: seq<Visit>,
                   a: Artifact, order: seq<string>, v: Visit)
    requires ArtsOk(arts, order0, vs) && v.hold.None?
    requires if v.id in arts then a == arts[v.id] && order1 == order0
             else a == Artifact(v.id, [], map[]) && order1 == order0 + [v.id]
    requires order == if v.session in a.order then a.order else a.order + [v.session]
    ensures ArtsOk(arts[v.id := a.(order := order)], order1, vs + [v])
  {
    VisitsStep(vs, v);
    BlankArtifact(arts, order0, vs, a, v.id);
    TouchedArtifact(a, order, vs, v);
    ArtifactPut(arts, order0, order1, vs, a.(order := order), v);
  }

  lemma BlankArtifact(arts: map<string, Artifact>, order: seq<string>, vs: seq<Visit>, a: Artifact, id: string)
    requires ArtsOk(arts, order, vs)
    requires if id in arts then a == arts[id] else a == Artifact(id, [], map[])
    ensures ArtifactOk(a, id, vs)
  {
    if id !in arts {
      assert !Touched(vs, id);
      forall s ensures !TouchedBy(vs, id, s) {
        NotTouchedBy(vs, id, s);
      }
      forall s, h ensures !HeldBy(vs, id, s, h) {
        if HeldBy(vs, id, s, h) { assert Touched(vs, id); }
      }
    }
  }

  lemma NotTouchedBy(vs: seq<Visit>, id: string, s: string)
    requires !Touched(vs, id)
    ensures !TouchedBy(vs, id, s)
  {
  }

  lemma ArtifactPut(arts: map<string, Artifact>, order0: seq<string>, order1: seq<string>, vs: seq<Visit>, b: Artifact, v: Visit)
    requires ArtsOk(arts, order0, vs) && ArtifactOk(b, v.id, vs + [v])
    requires order1 == if v.id in arts then order0 else order0 + [v.id]
    ensures ArtsOk(arts[v.id := b], order1, vs + [v])
  {
    VisitsStep(vs, v);
    forall id | id in arts && id != v.id ensures ArtifactOk(arts[id], id, vs + [v]) {
      OtherArtifact(arts[id], id, vs, v);
    }
  }

  lemma TouchedArtifact(a: Artifact, order: seq<string>, vs: seq<Visit>, v: Visit)
    requires ArtifactOk(a, v.id, vs) && v.hold.None?
    requires order == if v.session in a.order then a.order else a.order + [v.session]
    ensures ArtifactOk(a.(order := order), v.id, vs + [v])
  {
    VisitsStep(vs, v);
    var b := a.(order := order);
    forall s, h ensures h in HoldsOf(b, s) <==> HeldBy(vs + [v], v.id, s, h) {
      assert h in HoldsOf(a, s) <==> HeldBy(vs, v.id, s, h);
    }
  }

  lemma HoldKeeps(arts: map<string, Artifact>, order: seq<string>, vs: seq<Visit>, id: string, session: string, h: Hold)
    requires ArtsOk(arts, order, vs) && TouchedBy(vs, id, session)
    ensures id in arts
    ensures ArtsOk(arts[id := arts[id].(holds := arts[id].holds[session := HoldsOf(arts[id], session) + [h]])], order,
                   vs + [Visit(id, session, Some(h))])
  {
    var v := Visit(id, session, Some(h));
    VisitsStep(vs, v);
    assert Touched(vs, id);
    var a := arts[id];
    assert ArtifactOk(a, id, vs);
    var more := a.(holds := a.holds[session := HoldsOf(a, session) + [h]]);
    forall s, x ensures x in HoldsOf(more, s) <==> HeldBy(vs + [v], id, s, x) {
      assert x in HoldsOf(a, s) <==> HeldBy(vs, id, s, x);
    }
    assert ArtifactOk(more, id, vs + [v]);
    forall k | k in arts && k != id ensures ArtifactOk(arts[k], k, vs + [v]) {
      OtherArtifact(arts[k], k, vs, v);
    }
  }

  // ---------------------------------------------------------------- crossing

  ghost predicate PairTogether(a: Artifact, s: string, t: string) {
    exists h, o :: h in HoldsOf(a, s) && o in HoldsOf(a, t) && Overlaps(h, o)
  }

  ghost predicate Together(a: Artifact) {
    exists s, t :: s in a.order && t in a.order && s != t && PairTogether(a, s, t)
  }

  method AnyOverlap(hs: seq<Hold>, os: seq<Hold>) returns (yes: bool)
    ensures yes <==> exists h, o :: h in hs && o in os && Overlaps(h, o)
  {
    for i := 0 to |hs|
      invariant forall h, o :: h in hs[..i] && o in os ==> !Overlaps(h, o)
    {
      for j := 0 to |os|
        invariant forall o :: o in os[..j] ==> !Overlaps(hs[i], o)
      {
        if Overlaps(hs[i], os[j]) {
          return true;
        }
      }
      assert os[..|os|] == os;
    }
    assert hs[..|hs|] == hs;
    return false;
  }

  // Two different sessions with overlapping holds.
  method HeldTogether(a: Artifact) returns (yes: bool)
    requires NoRepeats(a.order)
    ensures yes <==> Together(a)
  {
    for i := 0 to |a.order|
      invariant forall s, t :: s in a.order[..i] && t in a.order && s != t ==> !PairTogether(a, s, t)
    {
      var s := a.order[i];
      for j := i + 1 to |a.order|
        invariant forall t :: t in a.order[i + 1..j] ==> !PairTogether(a, s, t)
      {
        var both := AnyOverlap(HoldsOf(a, s), HoldsOf(a, a.order[j]));
        if both {
          assert PairTogether(a, s, a.order[j]);
          return true;
        }
      }
      NoneWith(a, i);
    }
    assert a.order[..|a.order|] == a.order;
    return false;
  }

  // The pairs with earlier sessions were looked at from the other side.
  lemma NoneWith(a: Artifact, i: nat)
    requires i < |a.order|
    requires forall s, t :: s in a.order[..i] && t in a.order && s != t ==> !PairTogether(a, s, t)
    requires forall t :: t in a.order[i + 1..] ==> !PairTogether(a, a.order[i], t)
    ensures forall s, t :: s in a.order[..i + 1] && t in a.order && s != t ==> !PairTogether(a, s, t)
  {
    var s := a.order[i];
    assert a.order == a.order[..i] + [s] + a.order[i + 1..];
    forall t | t in a.order && t != s ensures !PairTogether(a, s, t) {
      if t in a.order[..i] { assert !PairTogether(a, t, s); }
    }
  }

  lemma OrderSize(a: Artifact, id: string, vs: seq<Visit>)
    requires ArtifactOk(a, id, vs)
    ensures |a.order| == |SessionsOf(vs, id)| && (|a.order| > 1 <==> Shared(vs, id))
  {
    NoRepeatsSize(a.order);
    assert Elements(a.order) == SessionsOf(vs, id);
    if |a.order| > 1 {
      assert TouchedBy(vs, id, a.order[0]) && TouchedBy(vs, id, a.order[1]);
    }
  }

  lemma ArtifactCrosses(a: Artifact, id: string, vs: seq<Visit>)
    requires ArtifactOk(a, id, vs)
    ensures |a.order| > 1 <==> Shared(vs, id)
    ensures Together(a) <==> Overlapped(vs, id)
  {
    OrderSize(a, id, vs);
    if Overlapped(vs, id) {
      var s, t, h, o :| HeldBy(vs, id, s, h) && HeldBy(vs, id, t, o) && s != t && Overlaps(h, o);
      assert TouchedBy(vs, id, s) && TouchedBy(vs, id, t);
      assert h in HoldsOf(a, s) && o in HoldsOf(a, t);
      assert PairTogether(a, s, t);
    }
    if Together(a) {
      var s, t :| s in a.order && t in a.order && s != t && PairTogether(a, s, t);
      var h, o :| h in HoldsOf(a, s) && o in HoldsOf(a, t) && Overlaps(h, o);
      assert HeldBy(vs, id, s, h) && HeldBy(vs, id, t, o);
    }
  }

  // ---------------------------------------------------------------- layout

  // What decides an artifact's row.
  datatype Look = Look(id: string, crossing: bool, shared: bool, rank: int)

  datatype Node = Node(id: string, degree: nat, handoff: bool, severity: string, alert: bool)

  datatype Edge = Edge(session: string, id: string, hot: bool, alert: bool)

  predicate Above(x: Look, y: Look) {
    if x.crossing != y.crossing then x.crossing
    else if x.shared != y.shared then x.shared
    else if x.rank != y.rank then x.rank > y.rank
    else LexLess(x.id, y.id)
  }

  predicate IsShared(k: Look) { k.shared }

  predicate IsCrossing(k: Look) { k.crossing }

  predicate IsHandoff(k: Look) { k.shared && !k.crossing }

  function SessionsOf(vs: seq<Visit>, id: string): set<string> {
    set v | v in vs && v.id == id :: v.session
  }

  ghost function LookAt(vs: seq<Visit>, ms: seq<Mark>, timed: bool, id: string): Look {
    Look(id, Crosses(vs, id, timed), Shared(vs, id), WorstRank(ms, id))
  }

  function NodeAt(k: Look, vs: seq<Visit>, severity: string, alert: bool): Node {
    Node(k.id, |SessionsOf(vs, k.id)|, k.shared && !k.crossing, severity, alert)
  }

  function Degrees(nodes: seq<Node>): nat {
    if nodes == [] then 0 else Degrees(nodes[..|nodes| - 1]) + nodes[|nodes| - 1].degree
  }

  // The touched artifacts, each once, strictly in order.
  ghost predicate IsLayout(looks: seq<Look>, vs: seq<Visit>, ms: seq<Mark>, timed: bool) {
    && Ordered(looks, Above)
    && forall k :: k in looks <==> Touched(vs, k.id) && k == LookAt(vs, ms, timed, k.id)
  }

  ghost predicate LookOk(k: Look, vs: seq<Visit>) {
    Touched(vs, k.id) && (k.shared <==> Shared(vs, k.id)) && (k.crossing ==> k.shared)
  }

  lemma LaidOutAt(looks: seq<Look>, i: nat, vs: seq<Visit>, ms: seq<Mark>, timed: bool)
    requires IsLayout(looks, vs, ms, timed) && i < |looks|
    ensures LookOk(looks[i], vs)
  {
    var k := looks[i];
    assert k in looks && k == LookAt(vs, ms, timed, k.id);
    if Crosses(vs, k.id, timed) {
      CrossingIsShared(vs, k.id, timed);
    }
  }

  lemma CrossingIsShared(vs: seq<Visit>, id: string, timed: bool)
    requires Crosses(vs, id, timed)
    ensures Shared(vs, id)
  {
  }

  // Different artifacts never tie.
  lemma AboveTotal(on: set<Look>)
    requires forall x, y :: x in on && y in on && x.id == y.id ==> x == y
    ensures TotalOn(Above, on)
  {
    LexLaws();
  }

  lemma LooksLaidOut(looks: seq<Look>, artOrder: seq<string>, vs: seq<Visit>, ms: seq<Mark>, timed: bool)
    requires NoRepeats(artOrder) && forall id :: id in artOrder <==> Touched(vs, id)
    requires |looks| == |artOrder| && forall i :: 0 <= i < |looks| ==> looks[i] == LookAt(vs, ms, timed, artOrder[i])
    ensures IsLayout(Sorted(looks, Above), vs, ms, timed)
  {
    var on := Elements(looks);
    AboveTotal(on);
    SortedOrdered(looks, Above, on);
    SortedMembers(looks, Above);
    forall k ensures k in looks <==> Touched(vs, k.id) && k == LookAt(vs, ms, timed, k.id) {
      if Touched(vs, k.id) && k == LookAt(vs, ms, timed, k.id) {
        assert k.id in artOrder;
        var i :| 0 <= i < |artOrder| && artOrder[i] == k.id;
        assert looks[i] == k;
      }
      if k in looks {
        var i :| 0 <= i < |looks| && looks[i] == k;
        assert artOrder[i] in artOrder;
      }
    }
  }

  ghost predicate EdgeOf(e: Edge, k: Look, vs: seq<Visit>, sessions: seq<string>, alertFor: set<string>) {
    && TouchedBy(vs, k.id, e.session) && e.session in sessions
    && e == Edge(e.session, k.id, k.crossing, k.id in alertFor)
  }

  ghost predicate EdgesAre(edges: seq<Edge>, looks: seq<Look>, vs: seq<Visit>, sessions: seq<string>, alertFor: set<string>) {
    forall e :: e in edges <==> exists k :: k in looks && EdgeOf(e, k, vs, sessions, alertFor)
  }

  lemma EdgesNext(edges: seq<Edge>, more: seq<Edge>, looks: seq<Look>, k: Look, vs: seq<Visit>, sessions: seq<string>, alertFor: set<string>)
    requires EdgesAre(edges, looks, vs, sessions, alertFor)
    requires forall e :: e in more <==> EdgeOf(e, k, vs, sessions, alertFor)
    ensures EdgesAre(edges + more, looks + [k], vs, sessions, alertFor)
  {
    forall e ensures e in edges + more <==> exists l :: l in looks + [k] && EdgeOf(e, l, vs, sessions, alertFor) {
      if e in edges {
        var l :| l in looks && EdgeOf(e, l, vs, sessions, alertFor);
        assert l in looks + [k];
      }
      if e in more { assert k in looks + [k]; }
    }
  }

  // The nodes of the artifacts, row by row.
  ghost predicate NodesOf(nodes: seq<Node>, looks: seq<Look>, vs: seq<Visit>, sevFor: map<string, string>, alertFor: set<string>) {
    && |nodes| == |looks|
    && forall i :: 0 <= i < |nodes| ==>
      nodes[i] == NodeAt(looks[i], vs, SeverityIn(sevFor, looks[i].id), looks[i].id in alertFor)
  }

  lemma NodesNext(nodes: seq<Node>, node: Node, looks: seq<Look>, k: Look, vs: seq<Visit>, sevFor: map<string, string>, alertFor: set<string>)
    requires NodesOf(nodes, looks, vs, sevFor, alertFor)
    requires node == NodeAt(k, vs, SeverityIn(sevFor, k.id), k.id in alertFor)
    ensures NodesOf(nodes + [node], looks + [k], vs, sevFor, alertFor)
    ensures Degrees(nodes + [node]) == Degrees(nodes) + node.degree
  {
    assert (nodes + [node])[..|nodes|] == nodes;
  }

  datatype Drawing = Drawing(nodes: seq<Node>, edges: seq<Edge>, contended: nat, handoffs: nat, alerts: nat)

  // The nodes and edges of these artifacts, counted.
  ghost predicate DrawingOf(d: Drawing, looks: seq<Look>, vs: seq<Visit>, sessions: seq<string>,
                            sevFor: map<string, string>, alertFor: set<string>)
  {
    && NodesOf(d.nodes, looks, vs, sevFor, alertFor)
    && EdgesAre(d.edges, looks, vs, sessions, alertFor)
    && ((forall v :: v in vs ==> v.session in sessions) ==> |d.edges| == Degrees(d.nodes))
    && d.contended == |Only(looks, IsCrossing)| && d.handoffs == |Only(looks, IsHandoff)|
    && d.alerts == |Only(d.nodes, IsAlarmed)|
  }

  predicate IsAlarmed(n: Node) { n.alert }

  lemma DrawingNext(d: Drawing, next: Drawing, looks: seq<Look>, k: Look, node: Node, more: seq<Edge>,
                    vs: seq<Visit>, sessions: seq<string>, sevFor: map<string, string>, alertFor: set<string>)
    requires DrawingOf(d, looks, vs, sessions, sevFor, alertFor)
    requires node == NodeAt(k, vs, SeverityIn(sevFor, k.id), k.id in alertFor)
    requires forall e :: e in more <==> EdgeOf(e, k, vs, sessions, alertFor)
    requires (forall v :: v in vs ==> v.session in sessions) ==> |more| == node.degree
    requires next.nodes == d.nodes + [node] && next.edges == d.edges + more
    requires next.contended == d.contended + (if k.crossing then 1 else 0)
    requires next.handoffs == d.handoffs + (if IsHandoff(k) then 1 else 0)
    requires next.alerts == d.alerts + (if node.alert then 1 else 0)
    ensures DrawingOf(next, looks + [k], vs, sessions, sevFor, alertFor)
  {
    NodesNext(d.nodes, node, looks, k, vs, sevFor, alertFor);
    EdgesNext(d.edges, more, looks, k, vs, sessions, alertFor);
    OnlyNext(looks, k);
    OnlyStep(d.nodes, node, IsAlarmed);
  }

  lemma HandoffDegree(k: Look, vs: seq<Visit>)
    requires k.shared <==> Shared(vs, k.id)
    ensures |SessionsOf(vs, k.id)| > 1 <==> k.shared
  {
    var ss := SessionsOf(vs, k.id);
    if Shared(vs, k.id) {
      var s, t :| TouchedBy(vs, k.id, s) && TouchedBy(vs, k.id, t) && s != t;
      SubsetSize({s, t}, ss);
    }
    if |ss| > 1 {
      var s :| s in ss;
      assert |ss - {s}| == |ss| - 1;
      var t :| t in ss - {s};
      assert TouchedBy(vs, k.id, s) && TouchedBy(vs, k.id, t);
    }
  }

  lemma OnlyNext(looks: seq<Look>, k: Look)
    ensures |Only(looks + [k], IsCrossing)| == |Only(looks, IsCrossing)| + if k.crossing then 1 else 0
    ensures |Only(looks + [k], IsHandoff)| == |Only(looks, IsHandoff)| + if IsHandoff(k) then 1 else 0
  {
    OnlyStep(looks, k, IsCrossing);
    OnlyStep(looks, k, IsHandoff);
  }

  // Every shared artifact is a crossing or a hand-off, and none is both.
  lemma {:induction false} CrossingsAndHandoffs(looks: seq<Look>)
    requires forall k :: k in looks && k.crossing ==> k.shared
    ensures |Only(looks, IsCrossing)| + |Only(looks, IsHandoff)| == |Only(looks, IsShared)|
  {
    if looks != [] {
      CrossingsAndHandoffs(looks[..|looks| - 1]);
      assert looks[|looks| - 1] in looks;
    }
  }

  // The rows depend only on which touches, holds and marks there were: not on
  // the order in which they were made, nor on how often.
  lemma StableLayout(a: seq<Look>, vs: seq<Visit>, ms: seq<Mark>, b: seq<Look>, vs': seq<Visit>, ms': seq<Mark>, timed: bool)
    requires IsLayout(a, vs, ms, timed) && IsLayout(b, vs', ms', timed)
    requires (forall v :: v in vs <==> v in vs') && (forall m :: m in ms <==> m in ms')
    ensures a == b
  {
    forall id ensures LookAt(vs, ms, timed, id) == LookAt(vs', ms', timed, id) && (Touched(vs, id) <==> Touched(vs', id)) {
      SameLook(vs, ms, vs', ms', timed, id);
    }
    AboveTotal(Elements(a));
    OneOrder(a, b, Above, Elements(a));
  }

  lemma SameLook(vs: seq<Visit>, ms: seq<Mark>, vs': seq<Visit>, ms': seq<Mark>, timed: bool, id: string)
    requires (forall v :: v in vs <==> v in vs') && (forall m :: m in ms <==> m in ms')
    ensures LookAt(vs, ms, timed, id) == LookAt(vs', ms', timed, id) && (Touched(vs, id) <==> Touched(vs', id))
  {
    assert forall s :: TouchedBy(vs, id, s) <==> TouchedBy(vs', id, s);
    assert forall s, h :: HeldBy(vs, id, s, h) <==> HeldBy(vs', id, s, h);
    assert WorstRank(ms, id) == WorstRank(ms', id);
  }

  // Crossings come first, then what is shared at different times, each from the
  // worst severity down, and by name.
  ghost predicate DrawnBefore(vs: seq<Visit>, ms: seq<Mark>, timed: bool, x: string, y: string) {
    if Crosses(vs, x, timed) != Crosses(vs, y, timed) then Crosses(vs, x, timed)
    else if Shared(vs, x) != Shared(vs, y) then Shared(vs, x)
    else if WorstRank(ms, x) != WorstRank(ms, y) then WorstRank(ms, x) > WorstRank(ms, y)
    else LexLess(x, y)
  }

  lemma RowsInOrder(looks: seq<Look>, vs: seq<Visit>, ms: seq<Mark>, timed: bool, i: nat, j: nat)
    requires IsLayout(looks, vs, ms, timed) && i < j < |looks|
    ensures DrawnBefore(vs, ms, timed, looks[i].id, looks[j].id)
  {
    assert looks[i] in looks && looks[j] in looks;
    assert Above(looks[i], looks[j]);
  }

  // A drawn artifact shows how many sessions touched it, whether it is shared but
  // no crossing, its worst severity, and any alarm.
  lemma NodeShows(nodes: seq<Node>, looks: seq<Look>, vs: seq<Visit>, ms: seq<Mark>, timed: bool,
                  sevFor: map<string, string>, alertFor: set<string>, i: nat)
    requires IsLayout(looks, vs, ms, timed) && NodesOf(nodes, looks, vs, sevFor, alertFor) && MarksOk(sevFor, alertFor, ms)
    requires i < |nodes|
    ensures var n := nodes[i];
      && Touched(vs, n.id) && n.id == looks[i].id
      && n.degree == |set v | v in vs && v.id == n.id :: v.session|
      && (n.handoff <==> Shared(vs, n.id) && !Crosses(vs, n.id, timed))
      && SeverityRank(n.severity) == WorstRank(ms, n.id)
      && (n.alert <==> exists m :: m in ms && m.id == n.id && m.alert)
  {
    assert looks[i] in looks;
  }

  // The severity of a drawn artifact is the worst it is marked with.
  lemma WorstShows(ms: seq<Mark>, id: string, severity: string)
    requires SeverityRank(severity) == WorstRank(ms, id)
    ensures var c, h, m, l := MarkedAs(ms, id, "critical"), MarkedAs(ms, id, "high"), MarkedAs(ms, id, "medium"), MarkedAs(ms, id, "low");
      && (severity == "critical" <==> c) && (severity == "high" <==> h && !c)
      && (severity == "medium" <==> m && !h && !c) && (severity == "low" <==> l && !m && !h && !c)
  {
    RankIs(severity);
    forall m | m in ms && m.id == id ensures RanksAs(m.severity) {
      RankIs(m.severity);
    }
  }

  ghost predicate MarkedAs(ms: seq<Mark>, id: string, severity: string) {
    exists m :: m in ms && m.id == id && m.severity == severity
  }

  predicate RanksAs(s: string) {
    && (s == "critical" <==> SeverityRank(s) == 4) && (s == "high" <==> SeverityRank(s) == 3)
    && (s == "medium" <==> SeverityRank(s) == 2) && (s == "low" <==> SeverityRank(s) == 1)
  }

  lemma RankIs(s: string)
    ensures RanksAs(s)
  {
  }

  // A stroke is drawn for each touch of a listed session, hot at a crossing and
  // alarmed with its artifact.
  lemma StrokeShows(edges: seq<Edge>, looks: seq<Look>, vs: seq<Visit>, ms: seq<Mark>, timed: bool, sessions: seq<string>,
                    sevFor: map<string, string>, alertFor: set<string>, e: Edge)
    requires IsLayout(looks, vs, ms, timed) && EdgesAre(edges, looks, vs, sessions, alertFor) && MarksOk(sevFor, alertFor, ms)
    ensures e in edges <==>
      && TouchedBy(vs, e.id, e.session) && e.session in sessions
      && (e.hot <==> Crosses(vs, e.id, timed)) && (e.alert <==> exists m :: m in ms && m.id == e.id && m.alert)
  {
    if e in edges {
      var k :| k in looks && EdgeOf(e, k, vs, sessions, alertFor);
    }
    if TouchedBy(vs, e.id, e.session) && e.session in sessions
      && (e.hot <==> Crosses(vs, e.id, timed)) && (e.alert <==> exists m :: m in ms && m.id == e.id && m.alert)
    {
      var k := LookAt(vs, ms, timed, e.id);
      assert Touched(vs, k.id) && k in looks;
      assert EdgeOf(e, k, vs, sessions, alertFor);
    }
  }

  // In a past window whose holds all last some time, an artifact is a crossing
  // exactly when two sessions held it at one instant.
  lemma CrossingMeansSimultaneous(vs: seq<Visit>, id: string)
    requires forall s, h :: HeldBy(vs, id, s, h) ==> h.since < End(h)
    ensures Crosses(vs, id, true) <==>
      exists s, t, h, o :: HeldBy(vs, id, s, h) && HeldBy(vs, id, t, o) && s != t && Simultaneous(h, o)
  {
    forall s, t, h, o | HeldBy(vs, id, s, h) && HeldBy(vs, id, t, o)
      ensures Overlaps(h, o) <==> Simultaneous(h, o)
      ensures TouchedBy(vs, id, s) && TouchedBy(vs, id, t)
    {
      OverlapMeansSimultaneous(h, o);
    }
  }

  // ---------------------------------------------------------------- a past window

  datatype Trouble = Trouble(severity: string, paths: seq<string>)

  function AreaId(path: string): string {
    "path:" + PathArea(path)
  }

  // A hold of a session the window lists touches its area and is added to it.
  function HoldVisits(runs: seq<string>, h: Hold): seq<Visit> {
    if h.sessionKey !in runs then []
    else [Visit(AreaId(h.path), h.sessionKey, None), Visit(AreaId(h.path), h.sessionKey, Some(h))]
  }

  function WindowVisits(runs: seq<string>, holds: seq<Hold>): seq<Visit> {
    if holds == [] then []
    else WindowVisits(runs, holds[..|holds| - 1]) + HoldVisits(runs, holds[|holds| - 1])
  }

  function WindowMarks(troubles: seq<Trouble>): seq<Mark> {
    if troubles == [] then []
    else WindowMarks(troubles[..|troubles| - 1]) + TroubleMarks(troubles[|troubles| - 1].severity, troubles[|troubles| - 1].paths)
  }

  function TroubleMarks(severity: string, paths: seq<string>): seq<Mark> {
    if paths == [] then []
    else TroubleMarks(severity, paths[..|paths| - 1]) + [Mark(AreaId(paths[|paths| - 1]), severity, false)]
  }

  method AddWindowHold(b: GraphBuild, ghost runs: seq<string>, h: Hold)
    requires b.Valid() && forall s :: s in b.sessions <==> s in runs
    modifies b
    ensures b.Valid() && b.visits == old(b.visits) + HoldVisits(runs, h) && b.marks == old(b.marks)
  {
    if h.sessionKey !in b.sessions {
      return;
    }
    var area := AreaId(h.path);
    b.Touch(area, h.sessionKey);
    assert b.visits[|b.visits| - 1] == Visit(area, h.sessionKey, None);
    b.AddHold(area, h.sessionKey, h);
  }

  method AddTrouble(b: GraphBuild, t: Trouble)
    requires b.Valid()
    modifies b
    ensures b.Valid() && b.visits == old(b.visits) && b.marks == old(b.marks) + TroubleMarks(t.severity, t.paths)
  {
    ghost var marks := b.marks;
    for i := 0 to |t.paths|
      invariant b.Valid() && b.visits == old(b.visits) && b.marks == marks + TroubleMarks(t.severity, t.paths[..i])
    {
      TroubleStep(marks, t.severity, t.paths, i);
      b.AddMark(AreaId(t.paths[i]), t.severity, false);
    }
    assert t.paths[..|t.paths|] == t.paths;
  }

  lemma TroubleStep(marks: seq<Mark>, severity: string, paths: seq<string>, i: nat)
    requires i < |paths|
    ensures marks + TroubleMarks(severity, paths[..i + 1])
         == marks + TroubleMarks(severity, paths[..i]) + [Mark(AreaId(paths[i]), severity, false)]
  {
    assert paths[..i + 1][..i] == paths[..i];
  }

  lemma WindowStep(runs: seq<string>, holds: seq<Hold>, i: nat)
    requires i < |holds|
    ensures WindowVisits(runs, holds[..i + 1]) == WindowVisits(runs, holds[..i]) + HoldVisits(runs, holds[i])
  {
    assert holds[..i + 1][..i] == holds[..i];
  }

  lemma TroublesStep(troubles: seq<Trouble>, i: nat)
    requires i < |troubles|
    ensures WindowMarks(troubles[..i + 1])
      == WindowMarks(troubles[..i]) + TroubleMarks(troubles[i].severity, troubles[i].paths)
  {
    assert troubles[..i + 1][..i] == troubles[..i];
  }

  method BuildWindow(runs: seq<string>, holds: seq<Hold>, troubles: seq<Trouble>) returns (b: GraphBuild)
    ensures fresh(b) && b.Valid() && b.timed && b.sessions == Sorted(runs, LexLess)
    ensures b.visits == WindowVisits(runs, holds) && b.marks == WindowMarks(troubles)
  {
    var sorted := Sorted(runs, LexLess);
    SortedMembers(runs, LexLess);
    b := new GraphBuild(true, sorted);
    for i := 0 to |holds|
      invariant fresh(b) && b.Valid() && b.visits == WindowVisits(runs, holds[..i]) && b.marks == []
    {
      WindowStep(runs, holds, i);
      AddWindowHold(b, runs, holds[i]);
    }
    assert holds[..|holds|] == holds;
    for i := 0 to |troubles|
      invariant fresh(b) && b.Valid() && b.visits == WindowVisits(runs, holds) && b.marks == WindowMarks(troubles[..i])
    {
      TroublesStep(troubles, i);
      AddTrouble(b, troubles[i]);
    }
    assert troubles[..|troubles|] == troubles;
  }

  lemma {:induction false} WindowVisitsAre(runs: seq<string>, holds: seq<Hold>, v: Visit)
    ensures v in WindowVisits(runs, holds) <==> exists h :: h in holds && v in HoldVisits(runs, h)
  {
    if holds != [] {
      var n := |holds| - 1;
      assert holds == holds[..n] + [holds[n]];
      WindowVisitsAre(runs, holds[..n], v);
    }
  }

  // Two listed sessions with holds in one area.
  ghost predicate Meet(runs: seq<string>, holds: seq<Hold>, id: string, h: Hold, o: Hold) {
    && h in holds && o in holds && h.sessionKey in runs && o.sessionKey in runs && h.sessionKey != o.sessionKey
    && AreaId(h.path) == id && AreaId(o.path) == id
  }

  lemma WindowHolds(runs: seq<string>, holds: seq<Hold>, id: string, s: string, h: Hold)
    ensures HeldBy(WindowVisits(runs, holds), id, s, h)
      <==> h in holds && h.sessionKey in runs && s == h.sessionKey && id == AreaId(h.path)
  {
    WindowVisitsAre(runs, holds, Visit(id, s, Some(h)));
    if h in holds { assert Visit(id, s, Some(h)) in HoldVisits(runs, h) <==> h.sessionKey in runs && s == h.sessionKey && id == AreaId(h.path); }
  }

  lemma HeldTouches(runs: seq<string>, holds: seq<Hold>, id: string, s: string)
    ensures TouchedBy(WindowVisits(runs, holds), id, s)
      <==> exists h :: h in holds && h.sessionKey in runs && s == h.sessionKey && id == AreaId(h.path)
  {
    var vs := WindowVisits(runs, holds);
    if TouchedBy(vs, id, s) {
      var v :| v in vs && v.id == id && v.session == s;
      WindowVisitsAre(runs, holds, v);
    }
    if h :| h in holds && h.sessionKey in runs && s == h.sessionKey && id == AreaId(h.path) {
      WindowHolds(runs, holds, id, s, h);
      assert HeldBy(vs, id, s, h);
    }
  }

  lemma WindowShared(runs: seq<string>, holds: seq<Hold>, id: string)
    ensures Shared(WindowVisits(runs, holds), id) <==> exists h, o :: Meet(runs, holds, id, h, o)
  {
    var vs := WindowVisits(runs, holds);
    forall s { HeldTouches(runs, holds, id, s); }
    if h, o :| Meet(runs, holds, id, h, o) {
      assert TouchedBy(vs, id, h.sessionKey) && TouchedBy(vs, id, o.sessionKey);
    }
    if Shared(vs, id) {
      var s, t :| TouchedBy(vs, id, s) && TouchedBy(vs, id, t) && s != t;
      var h :| h in holds && h.sessionKey in runs && s == h.sessionKey && id == AreaId(h.path);
      var o :| o in holds && o.sessionKey in runs && t == o.sessionKey && id == AreaId(o.path);
      assert Meet(runs, holds, id, h, o);
    }
  }

  lemma WindowOverlapped(runs: seq<string>, holds: seq<Hold>, id: string)
    ensures Overlapped(WindowVisits(runs, holds), id) <==> exists h, o :: Meet(runs, holds, id, h, o) && Overlaps(h, o)
  {
    var vs := WindowVisits(runs, holds);
    if h, o :| Meet(runs, holds, id, h, o) && Overlaps(h, o) {
      WindowHolds(runs, holds, id, h.sessionKey, h);
      WindowHolds(runs, holds, id, o.sessionKey, o);
    }
    if Overlapped(vs, id) {
      var s, t, h, o :| HeldBy(vs, id, s, h) && HeldBy(vs, id, t, o) && s != t && Overlaps(h, o);
      WindowHolds(runs, holds, id, s, h);
      WindowHolds(runs, holds, id, t, o);
      assert Meet(runs, holds, id, h, o);
    }
  }

  // An area of a past window is shared when two listed sessions held paths in
  // it, and a crossing when two such holds overlapped.
  lemma WindowCrossing(runs: seq<string>, holds: seq<Hold>, id: string)
    ensures Shared(WindowVisits(runs, holds), id) <==> exists h, o :: Meet(runs, holds, id, h, o)
    ensures Crosses(WindowVisits(runs, holds), id, true) <==> exists h, o :: Meet(runs, holds, id, h, o) && Overlaps(h, o)
  {
    WindowShared(runs, holds, id);
    WindowOverlapped(runs, holds, id);
  }

  lemma {:induction false} TroubleMarksAre(severity: string, paths: seq<string>, m: Mark)
    ensures m in TroubleMarks(severity, paths) <==> exists p :: p in paths && m == Mark(AreaId(p), severity, false)
  {
    if paths != [] {
      var n := |paths| - 1;
      assert paths == paths[..n] + [paths[n]];
      TroubleMarksAre(severity, paths[..n], m);
    }
  }

  lemma {:induction false} WindowMarksAre(troubles: seq<Trouble>, m: Mark)
    ensures m in WindowMarks(troubles) <==> exists t :: t in troubles && m in TroubleMarks(t.severity, t.paths)
  {
    if troubles != [] {
      var n := |troubles| - 1;
      assert troubles == troubles[..n] + [troubles[n]];
      WindowMarksAre(troubles[..n], m);
    }
  }

  // An area is marked with the severity of each conflict over a path in it, and
  // never alarmed.
  lemma WindowMarked(troubles: seq<Trouble>, id: string, severity: string)
    ensures MarkedAs(WindowMarks(troubles), id, severity)
      <==> exists t, p :: t in troubles && p in t.paths && t.severity == severity && AreaId(p) == id
    ensures !Alarmed(WindowMarks(troubles), id)
  {
    var ms := WindowMarks(troubles);
    forall m | m in ms ensures !m.alert {
      WindowMarksAre(troubles, m);
      var t :| t in troubles && m in TroubleMarks(t.severity, t.paths);
      TroubleMarksAre(t.severity, t.paths, m);
    }
    var mark := Mark(id, severity, false);
    WindowMarksAre(troubles, mark);
    forall t | t in troubles
      ensures mark in TroubleMarks(t.severity, t.paths) <==> exists p :: p in t.paths && t.severity == severity && AreaId(p) == id
    {
      TroubleMarksAre(t.severity, t.paths, mark);
    }
    if MarkedAs(ms, id, severity) {
      var m :| m in ms && m.id == id && m.severity == severity;
      assert m == mark;
    }
  }
}
