// The board's lanes (Lanes in frontend/internal/state/derive.go): for each
// member, a lane per live session, or one for an agent with none.
module Lanes {
  import opened Counting
  import opened Model
  import opened Nesting
  import opened Sorting

  // ---------------------------------------------------------------- sessions by agent

  predicate StartsBefore(a: Session, b: Session) {
    if a.startedAt != b.startedAt then a.startedAt < b.startedAt else LexLess(a.key, b.key)
  }

  // The live sessions of an agent.
  function LiveOf(sessions: seq<Session>, agent: string): seq<Session> {
    Only(sessions, (s: Session) => s.Live() && s.agentKey == agent)
  }

  // The finished session an idle agent shows: the most recently started one.
  function LastOf(sessions: seq<Session>, agent: string): (last: Option<Session>)
    ensures last.Some? ==> !last.value.Live()
  {
    if sessions == [] then None
    else
      var before, s := LastOf(sessions[..|sessions| - 1], agent), sessions[|sessions| - 1];
      if s.Live() || s.agentKey != agent then before
      else if before.None? || s.startedAt > before.value.startedAt then Some(s) else before
  }

  function ListAt(m: map<string, seq<Session>>, key: string): seq<Session> {
    if key in m then m[key] else []
  }

  function LastAt(m: map<string, Session>, key: string): Option<Session> {
    if key in m then Some(m[key]) else None
  }

  ghost predicate Grouped(live: map<string, seq<Session>>, last: map<string, Session>, sessions: seq<Session>) {
    forall k :: ListAt(live, k) == LiveOf(sessions, k) && LastAt(last, k) == LastOf(sessions, k)
  }

  lemma GroupStep(sessions: seq<Session>, i: nat, k: string)
    requires i < |sessions|
    ensures var s, t := sessions[i], sessions[..i];
      && LiveOf(sessions[..i + 1], k) == LiveOf(t, k) + When(s.Live() && s.agentKey == k, s)
      && LastOf(sessions[..i + 1], k) ==
        (if s.Live() || s.agentKey != k then LastOf(t, k)
         else if LastOf(t, k).None? || s.startedAt > LastOf(t, k).value.startedAt then Some(s) else LastOf(t, k))
  {
    assert sessions[..i + 1] == sessions[..i] + [sessions[i]];
    assert sessions[..i + 1][..i] == sessions[..i];
    OnlyStep(sessions[..i], sessions[i], (s: Session) => s.Live() && s.agentKey == k);
  }

  lemma GroupLive(live: map<string, seq<Session>>, last: map<string, Session>, sessions: seq<Session>, i: nat)
    requires i < |sessions| && Grouped(live, last, sessions[..i]) && sessions[i].Live()
    ensures Grouped(live[sessions[i].agentKey := ListAt(live, sessions[i].agentKey) + [sessions[i]]], last, sessions[..i + 1])
  {
    var s := sessions[i];
    var live' := live[s.agentKey := ListAt(live, s.agentKey) + [s]];
    forall k ensures ListAt(live', k) == LiveOf(sessions[..i + 1], k) && LastAt(last, k) == LastOf(sessions[..i + 1], k) {
      GroupStep(sessions, i, k);
      assert ListAt(live, k) == LiveOf(sessions[..i], k) && LastAt(last, k) == LastOf(sessions[..i], k);
    }
  }

  lemma GroupIdle(live: map<string, seq<Session>>, last: map<string, Session>, sessions: seq<Session>, i: nat)
    requires i < |sessions| && Grouped(live, last, sessions[..i]) && !sessions[i].Live()
    ensures var s := sessions[i];
      Grouped(live, if s.agentKey !in last || s.startedAt > last[s.agentKey].startedAt then last[s.agentKey := s] else last,
              sessions[..i + 1])
  {
    var s := sessions[i];
    var last' := if s.agentKey !in last || s.startedAt > last[s.agentKey].startedAt then last[s.agentKey := s] else last;
    forall k ensures ListAt(live, k) == LiveOf(sessions[..i + 1], k) && LastAt(last', k) == LastOf(sessions[..i + 1], k) {
      GroupStep(sessions, i, k);
      assert ListAt(live, k) == LiveOf(sessions[..i], k) && LastAt(last, k) == LastOf(sessions[..i], k);
    }
  }

  method Group(sessions: seq<Session>) returns (live: map<string, seq<Session>>, last: map<string, Session>)
    ensures Grouped(live, last, sessions)
  {
    live, last := map[], map[];
    for i := 0 to |sessions|
      invariant Grouped(live, last, sessions[..i])
    {
      var s := sessions[i];
      if s.Live() {
        GroupLive(live, last, sessions, i);
        live := live[s.agentKey := ListAt(live, s.agentKey) + [s]];
        continue;
      }
      GroupIdle(live, last, sessions, i);
      if s.agentKey !in last || s.startedAt > last[s.agentKey].startedAt {
        last := last[s.agentKey := s];
      }
    }
    assert sessions[..|sessions|] == sessions;
  }

  // The keys of the live sessions of the whole board.
  function LiveKeySet(sessions: seq<Session>): set<string> {
    set s | s in sessions && s.Live() :: s.key
  }

  method LiveKeys(sessions: seq<Session>) returns (keys: set<string>)
    ensures keys == LiveKeySet(sessions)
  {
    keys := {};
    for i := 0 to |sessions|
      invariant forall k :: k in keys <==> exists s :: s in sessions[..i] && s.Live() && s.key == k
    {
      assert sessions[..i + 1] == sessions[..i] + [sessions[i]];
      if sessions[i].Live() {
        keys := keys + {sessions[i].key};
      }
    }
    assert sessions[..|sessions|] == sessions;
  }

  // ---------------------------------------------------------------- lanes of an agent

  // What a lane is about: its agent and its session.
  datatype Core = Core(agentKey: string, session: Option<Session>)

  function CoreOf(l: AgentLane): Core {
    Core(l.agentKey, l.session)
  }

  function LiveCore(agent: string): Session -> Core {
    (s: Session) => Core(agent, Some(s))
  }

  // A lane per live session in the order they began, or one idle lane.
  function AgentCores(agent: string, sessions: seq<Session>): seq<Core> {
    var live := LiveOf(sessions, agent);
    if live == [] then [Core(agent, LastOf(sessions, agent))] else Map(Sorted(live, StartsBefore), LiveCore(agent))
  }

  function CoresIn(sessions: seq<Session>): Agent -> seq<Core> {
    (a: Agent) => AgentCores(a.key, sessions)
  }

  function MemberCores(agents: seq<Agent>, sessions: seq<Session>): seq<Core> {
    Gathered(agents, CoresIn(sessions))
  }

  ghost predicate AllUnnested(lanes: seq<AgentLane>) {
    forall l :: l in lanes ==> l.Unnested()
  }

  // A lane before it is nested.
  function FreshLane(agent: string, session: Option<Session>, multi: bool): AgentLane {
    AgentLane(agent, session, multi, "", false, false, 0, 0)
  }

  method LiveLanes(agent: string, list: seq<Session>) returns (lanes: seq<AgentLane>)
    ensures |lanes| == |list| && forall j :: 0 <= j < |list| ==> lanes[j] == FreshLane(agent, Some(list[j]), |list| > 1)
  {
    lanes := [];
    for i := 0 to |list|
      invariant |lanes| == i && forall j :: 0 <= j < i ==> lanes[j] == FreshLane(agent, Some(list[j]), |list| > 1)
    {
      lanes := lanes + [FreshLane(agent, Some(list[i]), |list| > 1)];
    }
  }

  lemma LiveLaneCores(agent: string, list: seq<Session>, lanes: seq<AgentLane>)
    requires |lanes| == |list| && forall j :: 0 <= j < |list| ==> lanes[j] == FreshLane(agent, Some(list[j]), |list| > 1)
    ensures Map(lanes, CoreOf) == Map(list, LiveCore(agent)) && AllUnnested(lanes)
  {
    forall j | 0 <= j < |list| ensures Map(lanes, CoreOf)[j] == Map(list, LiveCore(agent))[j] {
      assert CoreOf(lanes[j]) == Core(agent, Some(list[j])) == LiveCore(agent)(list[j]);
    }
  }

  lemma IdleLaneCore(agent: string, last: Option<Session>)
    ensures Map([FreshLane(agent, last, false)], CoreOf) == [Core(agent, last)] && AllUnnested([FreshLane(agent, last, false)])
  {
    assert CoreOf(FreshLane(agent, last, false)) == Core(agent, last);
  }

  method AgentLanes(agent: string, live: map<string, seq<Session>>, last: map<string, Session>, ghost sessions: seq<Session>)
    returns (lanes: seq<AgentLane>)
    requires Grouped(live, last, sessions)
    ensures Map(lanes, CoreOf) == AgentCores(agent, sessions) && AllUnnested(lanes) && MultiShown(lanes, sessions)
  {
    assert ListAt(live, agent) == LiveOf(sessions, agent) && LastAt(last, agent) == LastOf(sessions, agent);
    var list := ListAt(live, agent);
    if |list| == 0 {
      IdleLaneCore(agent, LastOf(sessions, agent));
      lanes := [FreshLane(agent, LastAt(last, agent), false)];
    } else {
      SortedMembers(list, StartsBefore);
      list := Sorted(list, StartsBefore);
      lanes := LiveLanes(agent, list);
      LiveLaneCores(agent, list, lanes);
    }
  }

  // ---------------------------------------------------------------- lanes of a member

  // Busy lanes come before idle ones.
  predicate Busier(a: AgentLane, b: AgentLane) {
    !a.Idle() && b.Idle()
  }

  lemma MapConcat<S, T>(a: seq<S>, b: seq<S>, f: S -> T)
    ensures Map(a + b, f) == Map(a, f) + Map(b, f)
  {
  }

  lemma Without<S>(a: seq<S>, t: seq<S>, x: S, b: seq<S>, rest: seq<S>, i: nat)
    requires a == t + [x] && i < |b| && b == b[..i] + [x] + b[i + 1..] && rest == b[..i] + b[i + 1..]
    requires multiset(a) == multiset(b)
    ensures multiset(t) == multiset(rest)
  {
    assert multiset(b) == multiset(b[..i]) + multiset{x} + multiset(b[i + 1..]);
    assert multiset(t) == multiset(a) - multiset{x};
    assert multiset(rest) == multiset(b) - multiset{x};
  }

  lemma MapWithout<S, T>(b: seq<S>, rest: seq<S>, x: S, i: nat, f: S -> T)
    requires i < |b| && b == b[..i] + [x] + b[i + 1..] && rest == b[..i] + b[i + 1..]
    ensures multiset(Map(b, f)) == multiset(Map(rest, f)) + multiset{f(x)}
  {
    MapConcat(b[..i], b[i + 1..], f);
    MapConcat(b[..i] + [x], b[i + 1..], f);
    MapAppend(b[..i], x, f);
  }

  lemma {:induction false} MapMultiset<S, T>(a: seq<S>, b: seq<S>, f: S -> T)
    requires multiset(a) == multiset(b)
    ensures multiset(Map(a, f)) == multiset(Map(b, f))
    decreases |a|
  {
    if a == [] {
      assert |multiset(b)| == 0;
    } else {
      var x, t := a[|a| - 1], a[..|a| - 1];
      assert a == t + [x];
      assert x in multiset(b);
      var i :| 0 <= i < |b| && b[i] == x;
      var rest := b[..i] + b[i + 1..];
      assert b == b[..i] + [x] + b[i + 1..];
      Without(a, t, x, b, rest, i);
      MapMultiset(t, rest, f);
      MapWithout(b, rest, x, i, f);
      MapAppend(t, x, f);
    }
  }

  // A list read in an order that takes each place once is a rearrangement.
  lemma {:induction false} Rearranged<T(!new)>(xs: seq<T>, ys: seq<T>, places: seq<int>)
    requires |xs| == |ys| == |places| && NoRepeats(places)
    requires forall k :: 0 <= k < |places| ==> 0 <= places[k] < |xs| && ys[k] == xs[places[k]]
    ensures multiset(ys) == multiset(xs)
    decreases |xs|
  {
    if xs != [] {
      var n := |xs| - 1;
      var p := LastPlace(places, n);
      var ys', places' := ys[..p] + ys[p + 1..], places[..p] + places[p + 1..];
      assert NoRepeats(places');
      forall k | 0 <= k < |places'| ensures 0 <= places'[k] < n && ys'[k] == xs[..n][places'[k]] {
        var j := if k < p then k else k + 1;
        assert places'[k] == places[j] && ys'[k] == ys[j] && places[j] != n;
      }
      Rearranged(xs[..n], ys', places');
      assert xs == xs[..n] + [xs[n]];
      assert ys == ys[..p] + [xs[n]] + ys[p + 1..];
    }
  }

  // As many different places as there are: the last one is among them.
  lemma LastPlace(places: seq<int>, n: nat) returns (p: nat)
    requires |places| == n + 1 && NoRepeats(places) && forall k :: 0 <= k < |places| ==> 0 <= places[k] <= n
    ensures p < |places| && places[p] == n
  {
    NoRepeatsSize(places);
    var lower := seq(n, i => i);
    NoRepeatsSize(lower);
    if n !in places {
      forall v | v in Elements(places) ensures v in Elements(lower) {
        assert lower[v] == v;
      }
      SubsetSize(Elements(places), Elements(lower));
    }
    p :| 0 <= p < |places| && places[p] == n;
  }

  predicate Works(c: Core) { c.session.Some? && c.session.value.Live() }

  predicate Rests(c: Core) { !Works(c) }

  // Each lane says whether its agent has more than one live session.
  ghost predicate MultiShown(lanes: seq<AgentLane>, sessions: seq<Session>) {
    forall l :: l in lanes ==> (l.multi <==> |LiveOf(sessions, l.agentKey)| > 1)
  }

  // The list a member's lanes are nested from: those of its agents one after
  // another, the working ones first.
  ghost predicate IsBase(base: seq<AgentLane>, agents: seq<Agent>, sessions: seq<Session>) {
    && Map(base, CoreOf) == Only(MemberCores(agents, sessions), Works) + Only(MemberCores(agents, sessions), Rests)
    && AllUnnested(base) && MultiShown(base, sessions)
  }

  // A member's lanes: that list, nested.
  ghost predicate IsNested(agents: seq<Agent>, sessions: seq<Session>, lanes: seq<AgentLane>) {
    exists base, spots :: IsBase(base, agents, sessions) && IsNesting(base, LiveKeySet(sessions), lanes, spots)
  }

  method MemberLanes(m: Member, live: map<string, seq<Session>>, last: map<string, Session>, liveKeys: set<string>, ghost sessions: seq<Session>)
    returns (lanes: seq<AgentLane>)
    requires Grouped(live, last, sessions) && liveKeys == LiveKeySet(sessions)
    ensures ListOf(lanes, m, sessions) && IsNested(m.agents, sessions, lanes)
  {
    var built := BuildLanes(m, live, last, sessions);
    var base := Sorted(built, Busier);
    BuiltIsBase(built, m.agents, sessions);
    SortedKeeps(built, Busier);
    SortedMembers(built, Busier);
    lanes := NestSubagents(base, liveKeys);
    ghost var spots :| IsNesting(base, liveKeys, lanes, spots);
    MapMultiset(base, built, CoreOf);
    SpotsRearrange(base, lanes, spots, liveKeys);
  }

  lemma BuiltIsBase(built: seq<AgentLane>, agents: seq<Agent>, sessions: seq<Session>)
    requires Map(built, CoreOf) == MemberCores(agents, sessions) && AllUnnested(built) && MultiShown(built, sessions)
    ensures IsBase(Sorted(built, Busier), agents, sessions)
  {
    SortedMembers(built, Busier);
    SortedInTwo(built, Busier, Busy, Waiting);
    MapConcat(Only(built, Busy), Only(built, Waiting), CoreOf);
    MapOnly(built, CoreOf, Busy, Works);
    MapOnly(built, CoreOf, Waiting, Rests);
  }

  lemma MemberCoresStep(agents: seq<Agent>, i: nat, sessions: seq<Session>)
    requires i < |agents|
    ensures MemberCores(agents[..i + 1], sessions) == MemberCores(agents[..i], sessions) + AgentCores(agents[i].key, sessions)
  {
    GatheredAppend(agents[..i], agents[i], CoresIn(sessions));
    assert agents[..i + 1] == agents[..i] + [agents[i]];
  }

  method BuildLanes(m: Member, live: map<string, seq<Session>>, last: map<string, Session>, ghost sessions: seq<Session>)
    returns (lanes: seq<AgentLane>)
    requires Grouped(live, last, sessions)
    ensures Map(lanes, CoreOf) == MemberCores(m.agents, sessions) && AllUnnested(lanes) && MultiShown(lanes, sessions)
  {
    lanes := [];
    for i := 0 to |m.agents|
      invariant Map(lanes, CoreOf) == MemberCores(m.agents[..i], sessions) && AllUnnested(lanes) && MultiShown(lanes, sessions)
    {
      var more := AgentLanes(m.agents[i].key, live, last, sessions);
      MapConcat(lanes, more, CoreOf);
      MemberCoresStep(m.agents, i, sessions);
      lanes := lanes + more;
    }
    assert m.agents[..|m.agents|] == m.agents;
  }

  predicate Busy(l: AgentLane) { !l.Idle() }

  predicate Waiting(l: AgentLane) { l.Idle() }

  lemma SpotsRearrange(base: seq<AgentLane>, lanes: seq<AgentLane>, spots: seq<Spot>, liveKeys: set<string>)
    requires |lanes| == |spots| == |base| && Good(spots, Parents(base))
    requires forall k :: 0 <= k < |lanes| ==> lanes[k] == DrawnLane(base, liveKeys, spots[k])
    ensures multiset(Map(lanes, CoreOf)) == multiset(Map(base, CoreOf))
  {
    var places := seq(|spots|, k requires 0 <= k < |spots| => spots[k].lane as int);
    var xs, ys := Map(base, CoreOf), Map(lanes, CoreOf);
    forall j, k | 0 <= j < k < |places| ensures places[j] != places[k] {
      assert spots[j].lane != spots[k].lane;
    }
    forall k | 0 <= k < |places| ensures 0 <= places[k] < |xs| && ys[k] == xs[places[k]] {
      assert ys[k] == CoreOf(lanes[k]) && lanes[k] == DrawnLane(base, liveKeys, spots[k]);
      assert xs[places[k]] == CoreOf(base[spots[k].lane]);
    }
    Rearranged(xs, ys, places);
  }

  // ---------------------------------------------------------------- the board

  function AllAgents(members: seq<Member>): seq<Agent> {
    Gathered(members, (m: Member) => m.agents)
  }

  // The lanes of every member, one list after another.
  function Flat(lanes: seq<seq<AgentLane>>): seq<AgentLane> {
    Gathered(lanes, (own: seq<AgentLane>) => own)
  }

  // Each member's list is nested.
  ghost predicate EachNested(lanes: seq<seq<AgentLane>>, members: seq<Member>, sessions: seq<Session>) {
    |lanes| == |members| && forall i :: 0 <= i < |lanes| ==> IsNested(members[i].agents, sessions, lanes[i])
  }

  // The list holds the lanes of this member's agents.
  ghost predicate ListOf(own: seq<AgentLane>, m: Member, sessions: seq<Session>) {
    multiset(Map(own, CoreOf)) == multiset(MemberCores(m.agents, sessions))
  }

  // Each member's list does.
  ghost predicate Placed(lanes: seq<seq<AgentLane>>, members: seq<Member>, sessions: seq<Session>) {
    |lanes| == |members| && forall i :: 0 <= i < |lanes| ==> ListOf(lanes[i], members[i], sessions)
  }

  method Lanes(members: seq<Member>, sessions: seq<Session>) returns (lanes: seq<seq<AgentLane>>)
    ensures Placed(lanes, members, sessions) && EachNested(lanes, members, sessions)
  {
    var live, last := Group(sessions);
    var liveKeys := LiveKeys(sessions);
    lanes := [];
    for i := 0 to |members|
      invariant Placed(lanes, members[..i], sessions) && EachNested(lanes, members[..i], sessions)
    {
      var own := MemberLanes(members[i], live, last, liveKeys, sessions);
      PlacedStep(lanes, own, members, i, sessions);
      NestedStep(lanes, own, members, i, sessions);
      lanes := lanes + [own];
    }
    assert members[..|members|] == members;
  }

  lemma NestedStep(lanes: seq<seq<AgentLane>>, own: seq<AgentLane>, members: seq<Member>, i: nat, sessions: seq<Session>)
    requires i < |members| && EachNested(lanes, members[..i], sessions) && IsNested(members[i].agents, sessions, own)
    ensures EachNested(lanes + [own], members[..i + 1], sessions)
  {
    forall j | 0 <= j <= i ensures IsNested(members[..i + 1][j].agents, sessions, (lanes + [own])[j]) {
      if j < i { assert (lanes + [own])[j] == lanes[j] && members[..i + 1][j] == members[..i][j]; }
    }
  }

  lemma PlacedStep(lanes: seq<seq<AgentLane>>, own: seq<AgentLane>, members: seq<Member>, i: nat, sessions: seq<Session>)
    requires i < |members| && Placed(lanes, members[..i], sessions) && ListOf(own, members[i], sessions)
    ensures Placed(lanes + [own], members[..i + 1], sessions)
  {
    forall j | 0 <= j <= i ensures ListOf((lanes + [own])[j], members[..i + 1][j], sessions) {
      if j < i { assert (lanes + [own])[j] == lanes[j] && members[..i + 1][j] == members[..i][j]; }
    }
  }

  lemma OneMoreMember(t: seq<seq<AgentLane>>, own: seq<AgentLane>, ms: seq<Member>, m: Member, sessions: seq<Session>)
    requires multiset(Map(Flat(t), CoreOf)) == multiset(MemberCores(AllAgents(ms), sessions))
    requires multiset(Map(own, CoreOf)) == multiset(MemberCores(m.agents, sessions))
    ensures multiset(Map(Flat(t + [own]), CoreOf)) == multiset(MemberCores(AllAgents(ms + [m]), sessions))
  {
    GatheredAppend(t, own, (x: seq<AgentLane>) => x);
    GatheredAppend(ms, m, (x: Member) => x.agents);
    MapConcat(Flat(t), own, CoreOf);
    GatheredConcat(AllAgents(ms), m.agents, CoresIn(sessions));
  }

  lemma LastMember(lanes: seq<seq<AgentLane>>, members: seq<Member>, sessions: seq<Session>,
                   t: seq<seq<AgentLane>>, own: seq<AgentLane>, ms: seq<Member>, m: Member)
    requires lanes == t + [own] && members == ms + [m]
    requires multiset(Map(Flat(t), CoreOf)) == multiset(MemberCores(AllAgents(ms), sessions))
    requires multiset(Map(own, CoreOf)) == multiset(MemberCores(m.agents, sessions))
    ensures multiset(Map(Flat(lanes), CoreOf)) == multiset(MemberCores(AllAgents(members), sessions))
  {
    OneMoreMember(t, own, ms, m, sessions);
  }

  lemma ButLast<T>(s: seq<T>)
    requires s != []
    ensures s == s[..|s| - 1] + [s[|s| - 1]]
  {
  }

  // Across the board the lanes are those of all the agents.
  lemma {:induction false} BoardLanes(lanes: seq<seq<AgentLane>>, members: seq<Member>, sessions: seq<Session>)
    requires Placed(lanes, members, sessions)
    ensures multiset(Map(Flat(lanes), CoreOf)) == multiset(MemberCores(AllAgents(members), sessions))
  {
    if lanes == [] {
      assert Map(Flat(lanes), CoreOf) == [] == MemberCores(AllAgents(members), sessions);
    } else {
      var i := |lanes| - 1;
      var t, own, ms, m := lanes[..i], lanes[i], members[..i], members[i];
      assert ListOf(own, m, sessions);
      BoardLanes(t, ms, sessions);
      ButLast(lanes);
      ButLast(members);
      LastMember(lanes, members, sessions, t, own, ms, m);
    }
  }

  // ---------------------------------------------------------------- order and last sessions

  // The session an idle agent shows is the first of those it started last.
  lemma {:induction false} LastOfIs(sessions: seq<Session>, agent: string)
    ensures match LastOf(sessions, agent)
      case None => forall i :: 0 <= i < |sessions| && sessions[i].agentKey == agent ==> sessions[i].Live()
      case Some(x) => exists i :: IsLastStarted(sessions, agent, i) && sessions[i] == x
  {
    if sessions != [] {
      var n := |sessions| - 1;
      LastOfIs(sessions[..n], agent);
      var before, s := LastOf(sessions[..n], agent), sessions[n];
      if before.Some? {
        var i :| IsLastStarted(sessions[..n], agent, i) && sessions[..n][i] == before.value;
        assert sessions[i] == sessions[..n][i];
        if s.Live() || s.agentKey != agent || s.startedAt <= before.value.startedAt {
          assert IsLastStarted(sessions, agent, i);
        } else {
          assert IsLastStarted(sessions, agent, n);
        }
      } else if !s.Live() && s.agentKey == agent {
        assert IsLastStarted(sessions, agent, n);
      }
    }
  }

  ghost predicate Finished(sessions: seq<Session>, agent: string, i: int) {
    0 <= i < |sessions| && sessions[i].agentKey == agent && !sessions[i].Live()
  }

  ghost predicate IsLastStarted(sessions: seq<Session>, agent: string, i: int) {
    && Finished(sessions, agent, i)
    && forall j :: Finished(sessions, agent, j) ==>
         sessions[j].startedAt < sessions[i].startedAt || (sessions[j].startedAt == sessions[i].startedAt && i <= j)
  }

  // The lanes of an agent at work, in the order its sessions began; by key if two
  // began together.
  lemma LiveInOrder(sessions: seq<Session>, agent: string, j: nat, k: nat)
    requires (forall a, b :: 0 <= a < b < |sessions| ==> sessions[a].key != sessions[b].key)
    requires LiveOf(sessions, agent) != [] && j < k < |AgentCores(agent, sessions)|
    ensures var a, b := AgentCores(agent, sessions)[j].session, AgentCores(agent, sessions)[k].session;
      && a.Some? && b.Some?
      && (a.value.startedAt < b.value.startedAt || (a.value.startedAt == b.value.startedAt && LexLess(a.value.key, b.value.key)))
  {
    var live := LiveOf(sessions, agent);
    OnlyDistinct(sessions, (s: Session) => s.Live() && s.agentKey == agent);
    OnlyMembers(sessions, (s: Session) => s.Live() && s.agentKey == agent);
    var on := Elements(live);
    KeysDiffer(sessions, live);
    StartsTotal(on);
    SortedOrdered(live, StartsBefore, on);
    var sorted := Sorted(live, StartsBefore);
    assert AgentCores(agent, sessions)[j] == LiveCore(agent)(sorted[j]);
    assert AgentCores(agent, sessions)[k] == LiveCore(agent)(sorted[k]);
    assert StartsBefore(sorted[j], sorted[k]);
  }

  lemma KeysDiffer(sessions: seq<Session>, live: seq<Session>)
    requires (forall a, b :: 0 <= a < b < |sessions| ==> sessions[a].key != sessions[b].key)
    requires forall x :: x in live ==> x in sessions
    ensures forall x, y :: x in Elements(live) && y in Elements(live) && x != y ==> x.key != y.key
  {
    forall x, y | x in Elements(live) && y in Elements(live) && x != y ensures x.key != y.key {
      var a :| 0 <= a < |sessions| && sessions[a] == x;
      var b :| 0 <= b < |sessions| && sessions[b] == y;
    }
  }

  lemma StartsTotal(on: set<Session>)
    requires forall x, y :: x in on && y in on && x != y ==> x.key != y.key
    ensures TotalOn(StartsBefore, on)
  {
    LexLaws();
  }

  // ---------------------------------------------------------------- coverage

  function AgentsNamed(agents: seq<Agent>, key: string): nat {
    |Only(agents, (a: Agent) => a.key == key)|
  }

  lemma AgentsNamedStep(agents: seq<Agent>, a: Agent, key: string)
    ensures AgentsNamed(agents + [a], key) == AgentsNamed(agents, key) + if a.key == key then 1 else 0
  {
    OnlyStep(agents, a, (x: Agent) => x.key == key);
  }

  lemma {:induction false} OnlyCount<T(!new)>(xs: seq<T>, p: T -> bool, x: T)
    ensures multiset(Only(xs, p))[x] == if p(x) then multiset(xs)[x] else 0
  {
    if xs != [] {
      OnlyCount(xs[..|xs| - 1], p, x);
      LastApart(xs);
      OnlyStep(xs[..|xs| - 1], xs[|xs| - 1], p);
      assert xs == xs[..|xs| - 1] + [xs[|xs| - 1]];
    }
  }

  lemma {:induction false} LiveCoreCount(xs: seq<Session>, agent: string, s: Session)
    ensures multiset(Map(xs, LiveCore(agent)))[Core(agent, Some(s))] == multiset(xs)[s]
  {
    if xs != [] {
      var t, x := xs[..|xs| - 1], xs[|xs| - 1];
      LiveCoreCount(t, agent, s);
      assert xs == t + [x];
      MapAppend(t, x, LiveCore(agent));
      assert LiveCore(agent)(x) == Core(agent, Some(x));
    }
  }

  lemma LiveCoreAgent(xs: seq<Session>, agent: string)
    ensures forall c :: c in Map(xs, LiveCore(agent)) ==> c.agentKey == agent
  {
    forall c | c in Map(xs, LiveCore(agent)) ensures c.agentKey == agent {
      var i :| 0 <= i < |xs| && Map(xs, LiveCore(agent))[i] == c;
      assert c == LiveCore(agent)(xs[i]);
    }
  }

  // An agent's own lanes show each of its live sessions once, and no other.
  lemma AgentShows(agent: string, sessions: seq<Session>, key: string, s: Session)
    requires s.Live()
    ensures multiset(AgentCores(agent, sessions))[Core(key, Some(s))]
      == if key == agent && s.agentKey == agent then multiset(sessions)[s] else 0
  {
    var live := LiveOf(sessions, agent);
    OnlyCount(sessions, (x: Session) => x.Live() && x.agentKey == agent, s);
    if live == [] {
      assert multiset(live)[s] == 0;
      assert Core(agent, LastOf(sessions, agent)) != Core(key, Some(s));
    } else {
      SortedKeeps(live, StartsBefore);
      LiveCoreCount(Sorted(live, StartsBefore), agent, s);
      LiveCoreAgent(Sorted(live, StartsBefore), agent);
    }
  }

  lemma SumOfCounts(u: seq<Core>, v: seq<Core>, c: Core)
    ensures multiset(u + v)[c] == multiset(u)[c] + multiset(v)[c]
  {
  }

  lemma ShownStep(agents: seq<Agent>, t: seq<Agent>, a: Agent, sessions: seq<Session>, key: string, s: Session)
    requires s.Live() && multiset(sessions)[s] == 1 && agents == t + [a]
    ensures multiset(MemberCores(agents, sessions))[Core(key, Some(s))]
      == multiset(MemberCores(t, sessions))[Core(key, Some(s))] + if key == a.key && s.agentKey == a.key then 1 else 0
  {
    AgentShows(a.key, sessions, key, s);
    MemberCoresStep(agents, |t|, sessions);
    assert agents[..|t|] == t && agents[..|t| + 1] == agents;
    SumOfCounts(MemberCores(t, sessions), AgentCores(a.key, sessions), Core(key, Some(s)));
  }

  lemma NoLanes(sessions: seq<Session>, c: Core)
    ensures multiset(MemberCores([], sessions))[c] == 0
  {
  }

  // A live session is shown under its own agent's key only, once for each time
  // the agent is listed: so it is in exactly one lane if and only if its agent
  // is listed exactly once.
  lemma {:induction false} SessionShown(agents: seq<Agent>, sessions: seq<Session>, key: string, s: Session)
    requires s.Live() && multiset(sessions)[s] == 1
    ensures multiset(MemberCores(agents, sessions))[Core(key, Some(s))]
      == if key == s.agentKey then AgentsNamed(agents, s.agentKey) else 0
  {
    if agents == [] {
      NoLanes(sessions, Core(key, Some(s)));
    } else {
      var t, a := agents[..|agents| - 1], agents[|agents| - 1];
      assert agents == t + [a];
      SessionShown(t, sessions, key, s);
      ShownStep(agents, t, a, sessions, key, s);
      AgentsNamedStep(t, a, s.agentKey);
    }
  }

  // An agent with no live session has the one lane, of the session it shows idle.
  lemma AgentShowsIdle(agent: string, sessions: seq<Session>, c: Core)
    requires LiveOf(sessions, c.agentKey) == []
    ensures multiset(AgentCores(agent, sessions))[c]
      == if c == Core(agent, LastOf(sessions, agent)) then 1 else 0
  {
    var live := LiveOf(sessions, agent);
    if live != [] {
      LiveCoreAgent(Sorted(live, StartsBefore), agent);
    }
  }

  lemma {:induction false} IdleShown(agents: seq<Agent>, sessions: seq<Session>, c: Core)
    requires LiveOf(sessions, c.agentKey) == []
    ensures multiset(MemberCores(agents, sessions))[c]
      == if c == Core(c.agentKey, LastOf(sessions, c.agentKey)) then AgentsNamed(agents, c.agentKey) else 0
  {
    if agents == [] {
      NoLanes(sessions, c);
    } else {
      var t, a := agents[..|agents| - 1], agents[|agents| - 1];
      assert agents == t + [a];
      IdleShown(t, sessions, c);
      AgentsNamedStep(t, a, c.agentKey);
      AgentShowsIdle(a.key, sessions, c);
      MemberCoresStep(agents, |t|, sessions);
      assert agents[..|t|] == t && agents[..|t| + 1] == agents;
      SumOfCounts(MemberCores(t, sessions), AgentCores(a.key, sessions), c);
    }
  }

  // Of all the lanes exactly one is this agent's, and it is this one.
  ghost predicate OnlyLane(lanes: seq<AgentLane>, idle: Core) {
    forall c: Core :: c.agentKey == idle.agentKey ==> multiset(Map(lanes, CoreOf))[c] == if c == idle then 1 else 0
  }

  function LaneTotal(agents: seq<Agent>, sessions: seq<Session>): nat {
    if agents == [] then 0
    else
      var live := |LiveOf(sessions, agents[|agents| - 1].key)|;
      LaneTotal(agents[..|agents| - 1], sessions) + if live > 1 then live else 1
  }

  // Every agent has as many lanes as live sessions, and one if it has none.
  lemma {:induction false} LanesCounted(agents: seq<Agent>, sessions: seq<Session>)
    ensures |MemberCores(agents, sessions)| == LaneTotal(agents, sessions)
  {
    if agents != [] {
      LanesCounted(agents[..|agents| - 1], sessions);
      MemberCoresStep(agents, |agents| - 1, sessions);
      assert agents[..|agents|] == agents;
      SortedMembers(LiveOf(sessions, agents[|agents| - 1].key), StartsBefore);
    }
  }

  ghost predicate AgentKeysOnce(agents: seq<Agent>) {
    forall i, j :: 0 <= i < j < |agents| ==> agents[i].key != agents[j].key
  }

  lemma {:induction false} ListedOnce(agents: seq<Agent>, key: string)
    requires AgentKeysOnce(agents)
    ensures AgentsNamed(agents, key) == if exists a :: a in agents && a.key == key then 1 else 0
  {
    if agents != [] {
      var t, a := agents[..|agents| - 1], agents[|agents| - 1];
      ListedOnce(t, key);
      AgentsNamedStep(t, a, key);
      assert agents == t + [a];
      if a.key == key {
        forall b | b in t ensures b.key != key {
          var i :| 0 <= i < |t| && t[i] == b;
          assert agents[i] == b && agents[|t|] == a;
        }
      }
    }
  }

  // The sessions of the store, each once, with their agents all listed once.
  ghost predicate Covered(agents: seq<Agent>, sessions: seq<Session>) {
    && AgentKeysOnce(agents)
    && (forall i, j :: 0 <= i < j < |sessions| ==> sessions[i] != sessions[j])
    && (forall s :: s in sessions && s.Live() ==> exists a :: a in agents && a.key == s.agentKey)
  }

  lemma {:induction false} DistinctCount<T(!new)>(xs: seq<T>, x: T)
    requires (forall i, j :: 0 <= i < j < |xs| ==> xs[i] != xs[j]) && x in xs
    ensures multiset(xs)[x] == 1
  {
    var n := |xs| - 1;
    LastApart(xs);
    if xs[n] != x {
      assert xs == xs[..n] + [xs[n]];
      DistinctCount(xs[..n], x);
    } else {
      assert x !in xs[..n];
    }
  }

  // On a covered board every live session is in exactly one lane, that of its
  // agent, and there is a lane per live session plus one per idle agent.
  lemma EverySessionOneLane(members: seq<Member>, sessions: seq<Session>, lanes: seq<AgentLane>)
    requires Covered(AllAgents(members), sessions)
    requires multiset(Map(lanes, CoreOf)) == multiset(MemberCores(AllAgents(members), sessions))
    ensures forall s :: s in sessions && s.Live() ==>
      multiset(Map(lanes, CoreOf))[Core(s.agentKey, Some(s))] == 1
    ensures forall s, key :: s in sessions && s.Live() && key != s.agentKey ==>
      multiset(Map(lanes, CoreOf))[Core(key, Some(s))] == 0
    ensures forall a :: a in AllAgents(members) && LiveOf(sessions, a.key) == [] ==>
      OnlyLane(lanes, Core(a.key, LastOf(sessions, a.key)))
    ensures |lanes| == LaneTotal(AllAgents(members), sessions)
  {
    var agents := AllAgents(members);
    forall a, c: Core | a in agents && LiveOf(sessions, a.key) == [] && c.agentKey == a.key
      ensures multiset(Map(lanes, CoreOf))[c] == if c == Core(a.key, LastOf(sessions, a.key)) then 1 else 0
    {
      IdleShown(agents, sessions, c);
      ListedOnce(agents, a.key);
    }
    forall s, key | s in sessions && s.Live()
      ensures multiset(Map(lanes, CoreOf))[Core(key, Some(s))] == if key == s.agentKey then 1 else 0
    {
      DistinctCount(sessions, s);
      SessionShown(agents, sessions, key, s);
      ListedOnce(agents, s.agentKey);
    }
    LanesCounted(agents, sessions);
    assert |lanes| == |Map(lanes, CoreOf)| == |multiset(Map(lanes, CoreOf))|;
    assert |MemberCores(agents, sessions)| == |multiset(MemberCores(agents, sessions))|;
  }

  // ---------------------------------------------------------------- nesting on the board

  ghost predicate SessionKeysOnce(sessions: seq<Session>) {
    forall i, j :: 0 <= i < j < |sessions| ==> sessions[i].key != sessions[j].key
  }

  lemma CoresOfAgent(agent: string, sessions: seq<Session>)
    ensures forall c :: c in AgentCores(agent, sessions) && Works(c) ==> c.session.value in sessions && c.session.value.agentKey == c.agentKey
  {
    var live := LiveOf(sessions, agent);
    OnlyMembers(sessions, (s: Session) => s.Live() && s.agentKey == agent);
    if live != [] {
      SortedMembers(live, StartsBefore);
      forall c | c in AgentCores(agent, sessions) ensures c.session.value in sessions && c.session.value.agentKey == c.agentKey {
        var i :| 0 <= i < |AgentCores(agent, sessions)| && AgentCores(agent, sessions)[i] == c;
        assert c == LiveCore(agent)(Sorted(live, StartsBefore)[i]);
      }
    }
  }

  lemma {:induction false} CoresOfMember(agents: seq<Agent>, sessions: seq<Session>)
    ensures forall c :: c in MemberCores(agents, sessions) && Works(c) ==> c.session.value in sessions && c.session.value.agentKey == c.agentKey
  {
    if agents != [] {
      var n := |agents| - 1;
      CoresOfMember(agents[..n], sessions);
      CoresOfAgent(agents[n].key, sessions);
      MemberCoresStep(agents, n, sessions);
      assert agents[..n + 1] == agents;
    }
  }

  lemma TwiceCounts<T>(xs: seq<T>, i: nat, j: nat)
    requires i < j < |xs| && xs[i] == xs[j]
    ensures multiset(xs)[xs[i]] >= 2
  {
    assert xs == xs[..j] + xs[j..];
    assert xs[i] in xs[..j] && xs[j] in xs[j..];
  }

  // With agents and sessions each listed once no session is at work in two lanes.
  lemma WorkingOnce(agents: seq<Agent>, sessions: seq<Session>, base: seq<AgentLane>)
    requires AgentKeysOnce(agents) && SessionKeysOnce(sessions)
    requires multiset(Map(base, CoreOf)) == multiset(MemberCores(agents, sessions))
    ensures OneLaneEach(base)
  {
    var cores := Map(base, CoreOf);
    CoresOfMember(agents, sessions);
    forall i, j | 0 <= i < j < |base| && !base[i].Idle() && !base[j].Idle()
      ensures base[i].session.value.key != base[j].session.value.key
    {
      assert cores[i] == CoreOf(base[i]) && cores[j] == CoreOf(base[j]);
      assert cores[i] in multiset(cores) && cores[j] in multiset(cores);
      var x := base[i].session.value;
      if x.key == base[j].session.value.key {
        SameKeySameSession(sessions, x, base[j].session.value);
        assert cores[i] == cores[j] == Core(x.agentKey, Some(x));
        TwiceCounts(cores, i, j);
        DistinctCount(sessions, x);
        SessionShown(agents, sessions, x.agentKey, x);
        ListedOnce(agents, x.agentKey);
      }
    }
  }

  lemma SameKeySameSession(sessions: seq<Session>, x: Session, y: Session)
    requires SessionKeysOnce(sessions) && x in sessions && y in sessions && x.key == y.key
    ensures x == y
  {
    var a :| 0 <= a < |sessions| && sessions[a] == x;
    var b :| 0 <= b < |sessions| && sessions[b] == y;
  }

  // In each member's list: every lane once, those that supervise without a cycle
  // drawn right above theirs, and a lane nested just when it works and names the
  // session at work in another lane of the list.
  lemma NestedInList(agents: seq<Agent>, sessions: seq<Session>, lanes: seq<AgentLane>, base: seq<AgentLane>, spots: seq<Spot>, k: nat)
    requires AgentKeysOnce(agents) && SessionKeysOnce(sessions)
    requires IsBase(base, agents, sessions) && IsNesting(base, LiveKeySet(sessions), lanes, spots)
    requires Acyclic(Parents(base)) && k < |lanes|
    ensures lanes[k].nested <==> exists j :: Names(lanes, k, j)
  {
    BaseCores(base, agents, sessions);
    WorkingOnce(agents, sessions, base);
    NestedUnderTheNamed(base, LiveKeySet(sessions), lanes, spots, k);
  }

  lemma BaseCores(base: seq<AgentLane>, agents: seq<Agent>, sessions: seq<Session>)
    requires IsBase(base, agents, sessions)
    ensures multiset(Map(base, CoreOf)) == multiset(MemberCores(agents, sessions))
  {
    var cores := MemberCores(agents, sessions);
    OnlyBoth(cores, Works, Rests);
  }

  lemma {:induction false} OnlyBoth<T(!new)>(xs: seq<T>, p: T -> bool, q: T -> bool)
    requires forall x :: q(x) <==> !p(x)
    ensures multiset(Only(xs, p) + Only(xs, q)) == multiset(xs)
  {
    if xs != [] {
      var t, x := xs[..|xs| - 1], xs[|xs| - 1];
      OnlyBoth(t, p, q);
      InEither(Only(t, p), x, Only(t, q));
      LastApart(xs);
    }
  }

  lemma InEither<T>(a: seq<T>, x: T, b: seq<T>)
    ensures multiset((a + [x]) + b) == multiset(a + b) + multiset{x} && multiset(a + (b + [x])) == multiset(a + b) + multiset{x}
  {
  }
}
