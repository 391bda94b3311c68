// Members and agents derived from the sessions a snapshot reports (teamState in
// frontend/internal/feed/wire.go), and the lanes the board draws of them.
module Roster {
  import opened Lanes
  import opened Model
  import opened Sorting
  import opened Store
  import Fold
  import Nesting

  // One session as the read API reports it.
  datatype SessionWire = SessionWire(
    key: string, memberKey: string, memberName: string, agentLabel: string, status: string,
    statusLine: string, parentKey: string, startedAt: Time, endedAt: Time, lastHeartbeatAt: Time)

  function FirstNonEmpty(a: string, b: string): string {
    if !Fold.Blank(a) then a else if !Fold.Blank(b) then b else ""
  }

  function AgentKey(memberKey: string, agentLabel: string): string {
    if memberKey == "" && agentLabel == "" then ""
    else if agentLabel == "" then memberKey
    else if memberKey == "" then agentLabel
    else memberKey + "/" + agentLabel
  }

  function AgentStatus(status: string): string {
    if status == LIVE || status == "" then ACTIVE else "idle"
  }

  function Later(a: Time, b: Time): Time {
    if b > a then b else a
  }

  function MemberKeyOf(w: SessionWire): string {
    FirstNonEmpty(w.memberKey, w.memberName)
  }

  function AgentKeyOf(w: SessionWire): string {
    AgentKey(MemberKeyOf(w), w.agentLabel)
  }

  function SeenAt(w: SessionWire): Time {
    Later(Later(ZERO_TIME, w.lastHeartbeatAt), w.startedAt)
  }

  function SessionOf(w: SessionWire): Session {
    Session(w.key, MemberKeyOf(w), AgentKeyOf(w), w.parentKey, w.statusLine, FirstNonEmpty(w.status, LIVE),
      w.startedAt, w.endedAt, w.lastHeartbeatAt)
  }

  function AgentOf(w: SessionWire): Agent {
    Agent(AgentKeyOf(w), MemberKeyOf(w), "", AgentStatus(w.status), SeenAt(w))
  }

  // ---------------------------------------------------------------- deriving

  // The members in the order they first appear, the agent keys given out, and
  // the sessions.
  datatype Roster = Roster(order: seq<string>, members: map<string, Member>, agents: set<string>, sessions: seq<Session>)

  const NOBODY := Roster([], map[], {}, [])

  // The member a wire session names, as it stands or new, seen when it was.
  function MemberSeen(r: Roster, w: SessionWire): Member {
    var key := MemberKeyOf(w);
    var m := if key in r.members then r.members[key]
             else Member(key, FirstNonEmpty(w.memberName, key), "", ZERO_TIME, []);
    m.(lastSeenAt := Later(m.lastSeenAt, SeenAt(w)))
  }

  // A session counted in: its member, its agent unless the key is taken, and
  // the session itself.
  function AddedAs(r: Roster, m: Member, x: Agent, session: Session): Roster {
    Roster(
      if m.key in r.members then r.order else r.order + [m.key],
      r.members[m.key := if x.key in r.agents then m else m.(agents := m.agents + [x])],
      r.agents + {x.key},
      r.sessions + [session])
  }

  function Added(r: Roster, w: SessionWire): Roster {
    AddedAs(r, MemberSeen(r, w), AgentOf(w), SessionOf(w))
  }

  function Derived(ws: seq<SessionWire>): Roster {
    if ws == [] then NOBODY else Added(Derived(ws[..|ws| - 1]), ws[|ws| - 1])
  }

  // The body of the loop over the sessions, on the maps it fills.
  method AddSession(w: SessionWire, order0: seq<string>, members0: map<string, Member>, agents0: set<string>)
    returns (order: seq<string>, members: map<string, Member>, agents: set<string>, session: Session)
    requires forall k :: k in members0 ==> members0[k].key == k
    ensures forall ss :: Roster(order, members, agents, ss + [session]) == Added(Roster(order0, members0, agents0, ss), w)
    ensures forall k :: k in members ==> members[k].key == k
  {
    order, members, agents := order0, members0, agents0;
    var memberKey, agentKey, seenAt := MemberKeyOf(w), AgentKeyOf(w), SeenAt(w);
    var m := Member(memberKey, FirstNonEmpty(w.memberName, memberKey), "", ZERO_TIME, []);
    if memberKey in members {
      m := members[memberKey];
    } else {
      order := order + [memberKey];
    }
    if seenAt > m.lastSeenAt {
      m := m.(lastSeenAt := seenAt);
    }
    if agentKey !in agents {
      m := m.(agents := m.agents + [AgentOf(w)]);
    }
    agents := agents + {agentKey};
    members := members[memberKey := m];
    session := SessionOf(w);
  }

  method TeamState(ws: seq<SessionWire>) returns (r: Roster)
    ensures r == Derived(ws)
  {
    var order: seq<string> := [];
    var members: map<string, Member> := map[];
    var agents: set<string> := {};
    var sessions: seq<Session> := [];
    for i := 0 to |ws|
      invariant Roster(order, members, agents, sessions) == Derived(ws[..i])
      invariant forall k :: k in members ==> members[k].key == k
    {
      var session;
      assert ws[..i + 1][..i] == ws[..i];
      order, members, agents, session := AddSession(ws[i], order, members, agents);
      sessions := sessions + [session];
    }
    assert ws[..|ws|] == ws;
    r := Roster(order, members, agents, sessions);
  }

  // ---------------------------------------------------------------- every agent once

  // Agents of two members, or at two places, never share a key.
  ghost predicate KeysApart(members: map<string, Member>) {
    forall p, q, i, j :: (p in members && q in members && 0 <= i < |members[p].agents| && 0 <= j < |members[q].agents|
      && members[p].agents[i].key == members[q].agents[j].key) ==> p == q && i == j
  }

  ghost predicate RosterOk(r: Roster) {
    && OrderOk(r.order, r.members) && KeysApart(r.members)
    && (forall a :: a in r.agents <==> HasAgent(r.members, a))
    && (forall s :: s in r.sessions ==> s.agentKey in r.agents)
  }

  ghost predicate HasAgent(members: map<string, Member>, key: string) {
    exists p, i :: p in members && 0 <= i < |members[p].agents| && members[p].agents[i].key == key
  }

  function AgentsAt(members: map<string, Member>, key: string): seq<Agent> {
    if key in members then members[key].agents else []
  }

  // A row rewritten with the same agents.
  lemma SameAgents(members: map<string, Member>, key: string, m: Member)
    requires KeysApart(members) && m.agents == AgentsAt(members, key)
    ensures KeysApart(members[key := m])
    ensures forall a :: HasAgent(members[key := m], a) <==> HasAgent(members, a)
  {
    var more := members[key := m];
    forall a | HasAgent(members, a) ensures HasAgent(more, a) {
      var p, i :| p in members && 0 <= i < |members[p].agents| && members[p].agents[i].key == a;
      assert more[p].agents[i].key == a;
    }
    forall a | HasAgent(more, a) ensures HasAgent(members, a) {
      var p, i :| p in more && 0 <= i < |more[p].agents| && more[p].agents[i].key == a;
      assert members[p].agents[i].key == a;
    }
  }

  // A row given one more agent, of a key nobody has.
  lemma OneMoreAgent(members: map<string, Member>, key: string, m: Member, x: Agent)
    requires KeysApart(members) && m.agents == AgentsAt(members, key) + [x] && !HasAgent(members, x.key)
    ensures KeysApart(members[key := m])
    ensures forall a :: HasAgent(members[key := m], a) <==> HasAgent(members, a) || a == x.key
  {
    var more, n := members[key := m], |AgentsAt(members, key)|;
    assert m.agents[n] == x && more[key].agents[n].key == x.key;
    forall a | HasAgent(members, a) ensures HasAgent(more, a) {
      var p, i :| p in members && 0 <= i < |members[p].agents| && members[p].agents[i].key == a;
      assert more[p].agents[i].key == a;
    }
    forall a | HasAgent(more, a) ensures HasAgent(members, a) || a == x.key {
      var p, i :| p in more && 0 <= i < |more[p].agents| && more[p].agents[i].key == a;
      if p != key || i < n { assert members[p].agents[i].key == a; }
    }
    forall p, i | p in members && 0 <= i < |members[p].agents| ensures members[p].agents[i].key != x.key {
      assert HasAgent(members, members[p].agents[i].key);
    }
  }

  // The order goes with the members.
  ghost predicate OrderOk(order: seq<string>, members: map<string, Member>) {
    && (forall i, j :: 0 <= i < j < |order| ==> order[i] != order[j])
    && (forall k :: k in order <==> k in members)
    && (forall k :: k in members ==> members[k].key == k)
  }

  lemma OrderPut(order: seq<string>, members: map<string, Member>, m: Member)
    requires OrderOk(order, members)
    ensures OrderOk(if m.key in members then order else order + [m.key], members[m.key := m])
  {
  }

  lemma AddedAsOk(r: Roster, m: Member, x: Agent, session: Session)
    requires RosterOk(r) && m.agents == AgentsAt(r.members, m.key) && session.agentKey == x.key
    ensures RosterOk(AddedAs(r, m, x, session))
  {
    var more := if x.key in r.agents then m else m.(agents := m.agents + [x]);
    OrderPut(r.order, r.members, more);
    if x.key in r.agents {
      SameAgents(r.members, m.key, m);
    } else {
      OneMoreAgent(r.members, m.key, more, x);
    }
  }

  lemma AddedOk(r: Roster, w: SessionWire)
    requires RosterOk(r)
    ensures RosterOk(Added(r, w))
  {
    SeenMember(r, w);
    AddedAsOk(r, MemberSeen(r, w), AgentOf(w), SessionOf(w));
  }

  lemma SeenMember(r: Roster, w: SessionWire)
    requires RosterOk(r)
    ensures MemberSeen(r, w).key == MemberKeyOf(w) && MemberSeen(r, w).agents == AgentsAt(r.members, MemberKeyOf(w))
  {
  }

  lemma {:induction false} DerivedOk(ws: seq<SessionWire>)
    ensures RosterOk(Derived(ws))
  {
    if ws != [] {
      DerivedOk(ws[..|ws| - 1]);
      AddedOk(Derived(ws[..|ws| - 1]), ws[|ws| - 1]);
    }
  }

  // ---------------------------------------------------------------- agents that share a key

  // A longer name, as the other with a slash and more.
  ghost predicate Straddles(m: string, l: string, m': string, l': string) {
    exists x: string :: m' == m + ['/'] + x && l == x + ['/'] + l'
  }

  // One text for a member without a label, or a label without a member.
  predicate Alone(m: string, l: string) { m == "" || l == "" }

  // Two agents go by one key: they are the same; or each is of a member alone or
  // of a label alone, and these are one text; or one is, and its text is the
  // other's member, a slash and its label; or a slash in one member or the other
  // label makes up for the difference.
  ghost predicate ShareKey(m: string, l: string, m': string, l': string) {
    || (m == m' && l == l')
    || (Alone(m, l) && Alone(m', l') && m + l == m' + l')
    || (Alone(m, l) && !Alone(m', l') && m + l == m' + ['/'] + l')
    || (!Alone(m, l) && Alone(m', l') && m' + l' == m + ['/'] + l)
    || (!Alone(m, l) && !Alone(m', l') && (Straddles(m, l, m', l') || Straddles(m', l', m, l)))
  }

  lemma KeyIs(m: string, l: string)
    ensures AgentKey(m, l) == if Alone(m, l) then m + l else m + ['/'] + l
  {
    assert "/" == ['/'];
    assert m + "" == m && "" + l == l;
  }

  lemma LongerMember(m: string, l: string, m': string, l': string)
    requires |m| < |m'| && m + ['/'] + l == m' + ['/'] + l'
    ensures Straddles(m, l, m', l')
  {
    var key, n := m + ['/'] + l, |m|;
    var x := m'[n + 1..];
    assert key[..n] == m && key[..|m'|] == m' && key[n] == '/' && key[n + 1..] == l;
    assert m' == m + ['/'] + x;
    assert key == m + ['/'] + (x + ['/'] + l');
    assert key[n + 1..] == x + ['/'] + l';
  }

  lemma StraddlingKeys(m: string, l: string, m': string, l': string)
    requires Straddles(m, l, m', l')
    ensures m + ['/'] + l == m' + ['/'] + l'
  {
    var x: string :| m' == m + ['/'] + x && l == x + ['/'] + l';
    assert m + ['/'] + (x + ['/'] + l') == (m + ['/'] + x) + ['/'] + l';
  }

  // Just these agents share a key.
  lemma KeyShared(m: string, l: string, m': string, l': string)
    ensures AgentKey(m, l) == AgentKey(m', l') <==> ShareKey(m, l, m', l')
  {
    KeyIs(m, l);
    KeyIs(m', l');
    if !Alone(m, l) && !Alone(m', l') {
      FullKeysShared(m, l, m', l');
    }
  }

  lemma FullKeysShared(m: string, l: string, m': string, l': string)
    ensures m + ['/'] + l == m' + ['/'] + l' <==> (m == m' && l == l') || Straddles(m, l, m', l') || Straddles(m', l', m, l)
  {
    if m + ['/'] + l == m' + ['/'] + l' {
      if |m| < |m'| {
        LongerMember(m, l, m', l');
      } else if |m'| < |m| {
        LongerMember(m', l', m, l);
      } else {
        var key := m + ['/'] + l;
        assert key[..|m|] == m && key[..|m'|] == m' && key[|m| + 1..] == l && key[|m'| + 1..] == l';
      }
    } else {
      if Straddles(m, l, m', l') { StraddlingKeys(m, l, m', l'); }
      if Straddles(m', l', m, l) { StraddlingKeys(m', l', m, l); }
    }
  }

  // A slash moved from the member to the label, or a name in the other's place.
  lemma SlashSharesKey(a: string, b: string, c: string)
    requires a != "" && b != "" && c != ""
    ensures AgentKey(a + ['/'] + b, c) == AgentKey(a, b + ['/'] + c) && AgentKey(a, "") == AgentKey("", a)
  {
    KeyIs(a + ['/'] + b, c);
    KeyIs(a, b + ['/'] + c);
    assert (a + ['/'] + b) + ['/'] + c == a + ['/'] + (b + ['/'] + c);
  }

  // Neither member nor label is blank or holds a slash.
  predicate PlainNames(m: string, l: string) {
    !Alone(m, l) && '/' !in m && '/' !in l
  }

  lemma PlainKeysApart(m: string, l: string, m': string, l': string)
    requires PlainNames(m, l) && PlainNames(m', l')
    ensures AgentKey(m, l) == AgentKey(m', l') <==> m == m' && l == l'
  {
    KeyShared(m, l, m', l');
    NoSlashApart(m, l, m', l');
    NoSlashApart(m', l', m, l);
  }

  lemma NoSlashApart(m: string, l: string, m': string, l': string)
    requires '/' !in m'
    ensures !Straddles(m, l, m', l')
  {
    forall x: string ensures m' != m + ['/'] + x {
      assert (m + ['/'] + x)[|m|] == '/';
    }
  }

  // ---------------------------------------------------------------- what is reported

  // The name or key to go by: the first that is not blank.
  predicate GoesBy(w: SessionWire, member: string) {
    if !Fold.Blank(w.memberKey) then member == w.memberKey
    else if !Fold.Blank(w.memberName) then member == w.memberName
    else member == ""
  }

  // A session has the fields reported; without a status it is live.
  predicate Reported(x: Session, w: SessionWire) {
    && x.key == w.key && GoesBy(w, x.memberKey) && x.agentKey == AgentKey(x.memberKey, w.agentLabel)
    && x.parentKey == w.parentKey && x.statusLine == w.statusLine
    && x.status == (if Fold.Blank(w.status) then "live" else w.status)
    && x.startedAt == w.startedAt && x.endedAt == w.endedAt && x.lastHeartbeatAt == w.lastHeartbeatAt
  }

  lemma SessionIsReported(w: SessionWire)
    ensures Reported(SessionOf(w), w)
  {
    assert !Fold.Blank(LIVE) by { assert LIVE[0] == 'l'; }
  }

  // The sessions derived are those reported, in order.
  lemma {:induction false} SessionsAreReported(ws: seq<SessionWire>)
    ensures |Derived(ws).sessions| == |ws|
    ensures forall i :: 0 <= i < |ws| ==> Reported(Derived(ws).sessions[i], ws[i])
  {
    if ws != [] {
      var n := |ws| - 1;
      var t, w := ws[..n], ws[n];
      SessionsAreReported(t);
      assert ws == t + [w];
      OneMoreSession(ws, t, w, Derived(t).sessions, Derived(ws).sessions);
    }
  }

  lemma OneMoreSession(ws: seq<SessionWire>, t: seq<SessionWire>, w: SessionWire, before: seq<Session>, xs: seq<Session>)
    requires ws == t + [w] && xs == before + [SessionOf(w)] && |before| == |t|
    requires forall i :: 0 <= i < |t| ==> Reported(before[i], t[i])
    ensures forall i :: 0 <= i < |ws| ==> Reported(xs[i], ws[i])
  {
    SessionIsReported(w);
    forall i | 0 <= i < |ws| ensures Reported(xs[i], ws[i]) {
      if i < |t| { assert xs[i] == before[i] && ws[i] == t[i]; }
    }
  }

  // A session of this member is among those reported.
  ghost predicate Names(ws: seq<SessionWire>, i: int, p: string) {
    0 <= i < |ws| && MemberKeyOf(ws[i]) == p
  }

  // A member is there if a session names it, called what the first one calls it,
  // and last seen at the latest heartbeat or start of its sessions.
  ghost predicate MemberReported(ws: seq<SessionWire>, p: string, m: Member) {
    && m.key == p
    && (forall i :: Names(ws, i, p) ==> m.lastSeenAt >= ws[i].lastHeartbeatAt && m.lastSeenAt >= ws[i].startedAt)
    && (m.lastSeenAt == ZERO_TIME || exists i :: Names(ws, i, p) && (m.lastSeenAt == ws[i].lastHeartbeatAt || m.lastSeenAt == ws[i].startedAt))
    && (exists i :: Names(ws, i, p) && (forall h :: 0 <= h < i ==> !Names(ws, h, p))
          && m.displayName == if Fold.Blank(ws[i].memberName) then (if Fold.Blank(p) then "" else p) else ws[i].memberName)
  }

  ghost predicate MemberKnown(ws: seq<SessionWire>, p: string, r: Roster) {
    && (p in r.members <==> exists i :: Names(ws, i, p))
    && (p in r.members ==> MemberReported(ws, p, r.members[p]))
  }

  lemma {:induction false} MembersAreReported(ws: seq<SessionWire>, p: string)
    ensures MemberKnown(ws, p, Derived(ws))
  {
    if ws != [] {
      var n := |ws| - 1;
      var t, w := ws[..n], ws[n];
      MembersAreReported(t, p);
      DerivedOk(t);
      assert ws == t + [w];
      OneMoreReported(ws, t, w, p, Derived(t), Derived(ws));
    }
  }

  lemma MemberAdded(r: Roster, w: SessionWire, p: string)
    requires RosterOk(r)
    ensures p in Added(r, w).members <==> p in r.members || p == MemberKeyOf(w)
    ensures p in Added(r, w).members ==>
      var next := Added(r, w).members[p];
      && next.key == p
      && (p in r.members ==>
            && next.displayName == r.members[p].displayName
            && next.lastSeenAt == if MemberKeyOf(w) == p then Later(r.members[p].lastSeenAt, SeenAt(w)) else r.members[p].lastSeenAt)
      && (p !in r.members ==> next.displayName == FirstNonEmpty(w.memberName, p) && next.lastSeenAt == Later(ZERO_TIME, SeenAt(w)))
  {
  }

  lemma OneMoreReported(ws: seq<SessionWire>, t: seq<SessionWire>, w: SessionWire, p: string, r: Roster, next: Roster)
    requires ws == t + [w] && RosterOk(r) && next == Added(r, w)
    requires MemberKnown(t, p, r)
    ensures MemberKnown(ws, p, next)
  {
    MemberAdded(r, w, p);
    NamesNext(t, w, p);
    if p in r.members {
      StillReported(t, w, p, r.members[p], next.members[p]);
      var i :| Names(t, i, p);
      assert Names(ws, i, p);
    } else if MemberKeyOf(w) == p {
      NewlyReported(t, w, p, next.members[p]);
      assert Names(ws, |t|, p);
    }
  }

  lemma NamesNext(t: seq<SessionWire>, w: SessionWire, p: string)
    ensures forall i :: Names(t + [w], i, p) <==> Names(t, i, p) || (i == |t| && MemberKeyOf(w) == p)
    ensures forall i :: Names(t, i, p) ==> (t + [w])[i] == t[i]
  {
  }

  lemma StillReported(t: seq<SessionWire>, w: SessionWire, p: string, m: Member, next: Member)
    requires MemberReported(t, p, m) && next.key == p && next.displayName == m.displayName
    requires next.lastSeenAt == if MemberKeyOf(w) == p then Later(m.lastSeenAt, SeenAt(w)) else m.lastSeenAt
    ensures MemberReported(t + [w], p, next)
  {
    NamesNext(t, w, p);
    var ws := t + [w];
    var i :| Names(t, i, p) && (forall h :: 0 <= h < i ==> !Names(t, h, p))
      && m.displayName == if Fold.Blank(t[i].memberName) then (if Fold.Blank(p) then "" else p) else t[i].memberName;
    assert Names(ws, i, p) && ws[i] == t[i];
    assert MemberKeyOf(w) == p ==> Names(ws, |t|, p) && ws[|t|] == w;
    if m.lastSeenAt != ZERO_TIME {
      var j :| Names(t, j, p) && (m.lastSeenAt == t[j].lastHeartbeatAt || m.lastSeenAt == t[j].startedAt);
      assert Names(ws, j, p) && ws[j] == t[j];
    }
  }

  lemma NewlyReported(t: seq<SessionWire>, w: SessionWire, p: string, m: Member)
    requires MemberKeyOf(w) == p && !(exists i :: Names(t, i, p))
    requires m.key == p && m.lastSeenAt == Later(ZERO_TIME, SeenAt(w)) && m.displayName == FirstNonEmpty(w.memberName, p)
    ensures MemberReported(t + [w], p, m)
  {
    NamesNext(t, w, p);
    assert Names(t + [w], |t|, p) && (t + [w])[|t|] == w;
  }

  // The first session reported with this agent key.
  ghost predicate FirstReport(ws: seq<SessionWire>, j: int, key: string) {
    && 0 <= j < |ws| && AgentKeyOf(ws[j]) == key
    && forall i :: 0 <= i < j ==> AgentKeyOf(ws[i]) != key
  }

  ghost predicate AgentOfMember(members: map<string, Member>, p: string, a: Agent) {
    p in members && a in members[p].agents
  }

  // An agent stands under the member named by the first session reported with its
  // key, and is as that session reports it.
  ghost predicate AtHome(ws: seq<SessionWire>, p: string, a: Agent) {
    exists j :: FirstReport(ws, j, a.key) && MemberKeyOf(ws[j]) == p && a == AgentOf(ws[j])
  }

  // It is active if that session's status is live or not given at all, else idle;
  // it was last seen at that session's last heartbeat or start.
  lemma AgentIsReported(a: Agent, w: SessionWire)
    requires a == AgentOf(w)
    ensures a.status == if w.status == "live" || w.status == "" then "active" else "idle"
    ensures a.lastSeenAt >= 0 && a.lastSeenAt >= w.lastHeartbeatAt && a.lastSeenAt >= w.startedAt
    ensures a.lastSeenAt in {0, w.lastHeartbeatAt, w.startedAt}
    ensures a.key == AgentKeyOf(w) && a.memberKey == MemberKeyOf(w)
  {
  }

  lemma FirstReportNext(ws: seq<SessionWire>, j: int, key: string)
    requires ws != []
    ensures var n := |ws| - 1; FirstReport(ws, j, key) <==>
      FirstReport(ws[..n], j, key) || (j == n && AgentKeyOf(ws[n]) == key && forall i :: 0 <= i < n ==> AgentKeyOf(ws[i]) != key)
  {
  }

  lemma {:induction false} KeysReported(ws: seq<SessionWire>, key: string)
    ensures key in Derived(ws).agents <==> exists i :: 0 <= i < |ws| && AgentKeyOf(ws[i]) == key
  {
    if ws != [] {
      var n := |ws| - 1;
      KeysReported(ws[..n], key);
      if key in Derived(ws[..n]).agents {
        var i :| 0 <= i < n && AgentKeyOf(ws[..n][i]) == key;
        assert AgentKeyOf(ws[i]) == key;
      }
    }
  }

  lemma {:induction false} AgentsAtHome(ws: seq<SessionWire>, p: string, a: Agent)
    ensures AgentOfMember(Derived(ws).members, p, a) <==> AtHome(ws, p, a)
  {
    if ws != [] {
      var n := |ws| - 1;
      var t, w := ws[..n], ws[n];
      AgentsAtHome(t, p, a);
      KeysReported(t, a.key);
      DerivedOk(t);
      SeenMember(Derived(t), w);
      AgentAdded(Derived(t), w, p, a);
      HomeNext(ws, p, a);
    }
  }

  lemma AgentAdded(r: Roster, w: SessionWire, p: string, a: Agent)
    requires RosterOk(r)
    ensures AgentOfMember(Added(r, w).members, p, a)
      <==> AgentOfMember(r.members, p, a) || (AgentKeyOf(w) !in r.agents && p == MemberKeyOf(w) && a == AgentOf(w))
  {
    SeenMember(r, w);
  }

  lemma HomeNext(ws: seq<SessionWire>, p: string, a: Agent)
    requires ws != []
    ensures AtHome(ws, p, a) <==>
      var n := |ws| - 1;
      || AtHome(ws[..n], p, a)
      || (MemberKeyOf(ws[n]) == p && a == AgentOf(ws[n]) && !exists i :: 0 <= i < n && AgentKeyOf(ws[..n][i]) == a.key)
  {
    var n := |ws| - 1;
    var t := ws[..n];
    forall j ensures FirstReport(ws, j, a.key) <==>
      FirstReport(t, j, a.key) || (j == n && AgentKeyOf(ws[n]) == a.key && forall i :: 0 <= i < n ==> AgentKeyOf(ws[i]) != a.key)
    {
      FirstReportNext(ws, j, a.key);
    }
    if AtHome(t, p, a) {
      var j :| FirstReport(t, j, a.key) && MemberKeyOf(t[j]) == p && a == AgentOf(t[j]);
      assert FirstReport(ws, j, a.key) && t[j] == ws[j];
    }
    if MemberKeyOf(ws[n]) == p && a == AgentOf(ws[n]) && !exists i :: 0 <= i < n && AgentKeyOf(t[i]) == a.key {
      assert forall i :: 0 <= i < n ==> t[i] == ws[i];
      assert FirstReport(ws, n, a.key);
    }
    if AtHome(ws, p, a) {
      var j :| FirstReport(ws, j, a.key) && MemberKeyOf(ws[j]) == p && a == AgentOf(ws[j]);
      if j < n { assert FirstReport(t, j, a.key) && t[j] == ws[j]; }
    }
  }

  // ---------------------------------------------------------------- loaded

  function MembersOf(r: Roster): seq<Member>
    requires forall k :: k in r.order ==> k in r.members
  {
    seq(|r.order|, i requires 0 <= i < |r.order| => assert r.order[i] in r.order; r.members[r.order[i]])
  }

  // Each value of a map, once, in some order.
  ghost predicate Listed<T(!new)>(xs: seq<T>, m: map<string, T>) {
    && (forall i, j :: 0 <= i < j < |xs| ==> xs[i] != xs[j])
    && (forall x :: x in xs <==> exists k :: k in m && m[k] == x)
  }

  lemma {:induction false} KeyedFrom<T>(xs: seq<T>, key: T -> string)
    ensures forall k :: k in Fold.Keyed(xs, key) ==> Fold.Keyed(xs, key)[k] in xs && key(Fold.Keyed(xs, key)[k]) == k
    ensures forall x :: x in xs ==> key(x) in Fold.Keyed(xs, key)
  {
    if xs != [] {
      KeyedFrom(xs[..|xs| - 1], key);
      assert xs == xs[..|xs| - 1] + [xs[|xs| - 1]];
    }
  }

  lemma AgentsOfAll(members: seq<Member>)
    ensures forall a :: a in AllAgents(members) <==> exists m :: m in members && a in m.agents
  {
    var f := (m: Member) => m.agents;
    GatheredMembers(members, f);
    assert forall m :: f(m) == m.agents;
  }

  // Members taken from a roster, each once: their agents have different keys.
  lemma {:induction false} AgentsOnce(members: seq<Member>, rows: map<string, Member>)
    requires KeysApart(rows) && (forall m :: m in members ==> m.key in rows && rows[m.key] == m)
    requires forall i, j :: 0 <= i < j < |members| ==> members[i] != members[j]
    ensures AgentKeysOnce(AllAgents(members))
  {
    if members != [] {
      var t, m := members[..|members| - 1], members[|members| - 1];
      AgentsOnce(t, rows);
      AgentsOfAll(t);
      GatheredAppend(t, m, (x: Member) => x.agents);
      assert members == t + [m];
      assert m in members;
      CrossAgents(t, m, rows);
    }
  }

  lemma CrossAgents(t: seq<Member>, m: Member, rows: map<string, Member>)
    requires KeysApart(rows) && (forall x :: x in t ==> x.key in rows && rows[x.key] == x) && m.key in rows && rows[m.key] == m
    requires m !in t && AgentKeysOnce(AllAgents(t))
    requires forall a :: a in AllAgents(t) <==> exists x :: x in t && a in x.agents
    ensures AgentKeysOnce(AllAgents(t) + m.agents)
  {
    var all := AllAgents(t) + m.agents;
    forall i, j | 0 <= i < j < |all| ensures all[i].key != all[j].key {
      var n := |AllAgents(t)|;
      if j >= n && i < n {
        assert all[i] in AllAgents(t);
        var x :| x in t && all[i] in x.agents;
        var k :| 0 <= k < |x.agents| && x.agents[k] == all[i];
        assert rows[x.key].agents[k] == all[i] && rows[m.key].agents[j - n] == all[j];
      } else if i >= n {
        assert rows[m.key].agents[i - n] == all[i] && rows[m.key].agents[j - n] == all[j];
      }
    }
  }

  // The state a store takes from the snapshot's sessions.
  ghost predicate FromSessions(ts: TeamState, ws: seq<SessionWire>) {
    DerivedOk(ws);
    ts.members == MembersOf(Derived(ws)) && ts.sessions == Derived(ws).sessions
  }

  // However the loaded rows are listed, the board is covered.
  lemma LoadedIsCovered(s: StoreState, ts: TeamState, ws: seq<SessionWire>, members: seq<Member>, sessions: seq<Session>)
    requires FromSessions(ts, ws)
    requires Listed(members, Loaded(s, ts).world.members) && Listed(sessions, Loaded(s, ts).world.sessions)
    ensures Covered(AllAgents(members), sessions)
  {
    DerivedOk(ws);
    var r := Derived(ws);
    var rows := Loaded(s, ts).world.members;
    KeyedFrom(ts.members, (m: Member) => m.key);
    KeyedFrom(ts.sessions, (x: Session) => x.key);
    RowsAreRoster(r, ts.members, rows);
    AgentsOnce(members, r.members);
    forall x | x in sessions && x.Live() ensures exists a :: a in AllAgents(members) && a.key == x.agentKey {
      assert x in r.sessions;
      AgentIsListed(r.members, rows, members, x.agentKey);
    }
  }

  lemma AgentIsListed(from: map<string, Member>, rows: map<string, Member>, members: seq<Member>, key: string)
    requires HasAgent(from, key) && forall p :: p in from ==> p in rows && rows[p] == from[p] && rows[p] in members
    ensures exists a :: a in AllAgents(members) && a.key == key
  {
    var p, i :| p in from && 0 <= i < |from[p].agents| && from[p].agents[i].key == key;
    AgentsOfAll(members);
    assert rows[p].agents[i] in AllAgents(members);
  }

  lemma RowsAreRoster(r: Roster, members: seq<Member>, rows: map<string, Member>)
    requires RosterOk(r) && members == MembersOf(r)
    requires forall k :: k in rows ==> rows[k] in members && rows[k].key == k
    requires forall m :: m in members ==> m.key in rows
    ensures forall k :: k in r.members <==> k in rows
    ensures forall k :: k in r.members ==> rows[k] == r.members[k]
    ensures forall k :: k in rows ==> rows[k].key in r.members && r.members[rows[k].key] == rows[k]
  {
    forall k | k in r.members ensures k in rows {
      var i :| 0 <= i < |r.order| && r.order[i] == k;
      assert members[i] in members;
    }
    forall k | k in rows ensures k in r.members && rows[k] == r.members[k] {
      var i :| 0 <= i < |members| && members[i] == rows[k];
      assert r.order[i] in r.order;
    }
  }

  // On the live path, from the snapshot's sessions to the drawn board: every
  // live or stale session the store holds is in exactly one lane, its agent's,
  // every agent without any has exactly one lane, and there are no others.
  lemma LiveBoard(s: StoreState, ts: TeamState, ws: seq<SessionWire>, members: seq<Member>, sessions: seq<Session>,
                  lanes: seq<seq<Nesting.AgentLane>>)
    requires FromSessions(ts, ws)
    requires Listed(members, Loaded(s, ts).world.members) && Listed(sessions, Loaded(s, ts).world.sessions)
    requires Placed(lanes, members, sessions)
    ensures forall x :: x in sessions && x.Live() ==>
      multiset(Map(Flat(lanes), CoreOf))[Core(x.agentKey, Some(x))] == 1
    ensures forall x, key :: x in sessions && x.Live() && key != x.agentKey ==>
      multiset(Map(Flat(lanes), CoreOf))[Core(key, Some(x))] == 0
    ensures forall a :: a in AllAgents(members) && LiveOf(sessions, a.key) == [] ==>
      OnlyLane(Flat(lanes), Core(a.key, LastOf(sessions, a.key)))
    ensures |Flat(lanes)| == LaneTotal(AllAgents(members), sessions)
  {
    LoadedIsCovered(s, ts, ws, members, sessions);
    BoardLanes(lanes, members, sessions);
    EverySessionOneLane(members, sessions, Flat(lanes));
  }

  // ---------------------------------------------------------------- whose list a lane is in

  lemma {:induction false} NamedAtMostOnce(agents: seq<Agent>, key: string)
    requires forall i, j :: 0 <= i < j < |agents| ==> agents[i].key != agents[j].key
    ensures AgentsNamed(agents, key) == if exists a :: a in agents && a.key == key then 1 else 0
  {
    ListedOnce(agents, key);
  }

  // The first session reported with this agent key is of this member.
  ghost predicate FirstIsOf(ws: seq<SessionWire>, key: string, p: string) {
    exists j :: FirstReport(ws, j, key) && MemberKeyOf(ws[j]) == p
  }

  lemma AgentsOfMember(ws: seq<SessionWire>, m: Member, key: string)
    requires m.key in Derived(ws).members && Derived(ws).members[m.key] == m
    ensures (exists a :: a in m.agents && a.key == key) <==> FirstIsOf(ws, key, m.key)
    ensures forall i, j :: 0 <= i < j < |m.agents| ==> m.agents[i].key != m.agents[j].key
  {
    DerivedOk(ws);
    if exists a :: a in m.agents && a.key == key {
      var a :| a in m.agents && a.key == key;
      AgentsAtHome(ws, m.key, a);
    }
    if FirstIsOf(ws, key, m.key) {
      var j :| FirstReport(ws, j, key) && MemberKeyOf(ws[j]) == m.key;
      AgentsAtHome(ws, m.key, AgentOf(ws[j]));
    }
  }

  // On the live path: the lane of a live session is in its own member's list if
  // and only if the first session reported with its agent's key is that member's
  // too; otherwise it is not in that list at all.
  lemma OwnLane(s: StoreState, ts: TeamState, ws: seq<SessionWire>, members: seq<Member>, sessions: seq<Session>,
                lanes: seq<seq<Nesting.AgentLane>>, i: nat, x: Session)
    requires FromSessions(ts, ws)
    requires Listed(members, Loaded(s, ts).world.members) && Listed(sessions, Loaded(s, ts).world.sessions)
    requires Placed(lanes, members, sessions) && i < |members|
    requires x in sessions && x.Live() && members[i].key == x.memberKey
    ensures multiset(Map(lanes[i], CoreOf))[Core(x.agentKey, Some(x))] == if FirstIsOf(ws, x.agentKey, x.memberKey) then 1 else 0
  {
    var m := members[i];
    LoadedIsCovered(s, ts, ws, members, sessions);
    LoadedMember(s, ts, ws, members, m);
    assert ListOf(lanes[i], m, sessions);
    DistinctCount(sessions, x);
    SessionShown(m.agents, sessions, x.agentKey, x);
    AgentsOfMember(ws, m, x.agentKey);
    NamedAtMostOnce(m.agents, x.agentKey);
  }

  lemma LoadedMember(s: StoreState, ts: TeamState, ws: seq<SessionWire>, members: seq<Member>, m: Member)
    requires FromSessions(ts, ws) && Listed(members, Loaded(s, ts).world.members) && m in members
    ensures m.key in Derived(ws).members && Derived(ws).members[m.key] == m
  {
    DerivedOk(ws);
    KeyedFrom(ts.members, (x: Member) => x.key);
    RowsAreRoster(Derived(ws), ts.members, Loaded(s, ts).world.members);
  }

  // Two sessions of two members that share an agent key, for all that: the lane of
  // the second is not in its member's list.
  lemma StrangersShareALane(w: SessionWire, v: SessionWire)
    requires AgentKeyOf(w) == AgentKeyOf(v) && MemberKeyOf(w) != MemberKeyOf(v)
    ensures !FirstIsOf([w, v], AgentKeyOf(v), MemberKeyOf(v)) && FirstIsOf([w, v], AgentKeyOf(w), MemberKeyOf(w))
  {
    assert FirstReport([w, v], 0, AgentKeyOf(v));
  }

  // Every session reported names its member and its agent plainly.
  ghost predicate AllPlain(ws: seq<SessionWire>) {
    forall i :: 0 <= i < |ws| ==> PlainNames(MemberKeyOf(ws[i]), ws[i].agentLabel)
  }

  // Then every live session's lane is in the list of the member it was reported
  // with, which there is.
  lemma PlainLanesAtHome(s: StoreState, ts: TeamState, ws: seq<SessionWire>, members: seq<Member>, sessions: seq<Session>,
                         lanes: seq<seq<Nesting.AgentLane>>, x: Session) returns (i: nat)
    requires FromSessions(ts, ws) && AllPlain(ws)
    requires Listed(members, Loaded(s, ts).world.members) && Listed(sessions, Loaded(s, ts).world.sessions)
    requires Placed(lanes, members, sessions) && x in sessions && x.Live()
    ensures i < |members| && members[i].key == x.memberKey
    ensures multiset(Map(lanes[i], CoreOf))[Core(x.agentKey, Some(x))] == 1
  {
    KeyedFrom(ts.sessions, (y: Session) => y.key);
    assert x in Derived(ws).sessions;
    var k := ReportOf(ws, x);
    var j := FirstOf(ws, x.agentKey, k);
    PlainKeysApart(MemberKeyOf(ws[j]), ws[j].agentLabel, MemberKeyOf(ws[k]), ws[k].agentLabel);
    i := MemberListed(s, ts, ws, members, k);
    OwnLane(s, ts, ws, members, sessions, lanes, i, x);
  }

  lemma {:induction false} ReportOf(ws: seq<SessionWire>, x: Session) returns (k: nat)
    requires x in Derived(ws).sessions
    ensures k < |ws| && x == SessionOf(ws[k])
  {
    var n := |ws| - 1;
    if x in Derived(ws[..n]).sessions {
      k := ReportOf(ws[..n], x);
    } else {
      k := n;
    }
  }

  lemma {:induction false} FirstOf(ws: seq<SessionWire>, key: string, k: nat) returns (j: nat)
    requires k < |ws| && AgentKeyOf(ws[k]) == key
    ensures FirstReport(ws, j, key)
  {
    if h :| 0 <= h < k && AgentKeyOf(ws[h]) == key {
      j := FirstOf(ws, key, h);
    } else {
      j := k;
    }
  }

  lemma MemberListed(s: StoreState, ts: TeamState, ws: seq<SessionWire>, members: seq<Member>, k: nat) returns (i: nat)
    requires FromSessions(ts, ws) && Listed(members, Loaded(s, ts).world.members) && k < |ws|
    ensures i < |members| && members[i].key == MemberKeyOf(ws[k])
  {
    var p := MemberKeyOf(ws[k]);
    var rows := Loaded(s, ts).world.members;
    assert Names(ws, k, p);
    MembersAreReported(ws, p);
    DerivedOk(ws);
    KeyedFrom(ts.members, (x: Member) => x.key);
    RowsAreRoster(Derived(ws), ts.members, rows);
    assert p in rows && rows[p] in members;
    i :| i < |members| && members[i] == rows[p];
  }
}
