// What a snapshot of the store shows while the store goes on (the copies of
// Snapshot in frontend/internal/state/store.go): its own rows stay as they were
// taken, the agents and assertions it points at are the store's.
module Snapshots {
  import opened Entities
  import opened Fold
  import opened Model
  import opened Tables
  import opened Store

  // ---------------------------------------------------------------- what may come after

  datatype Call = Applying(event: Event) | Loading(team: TeamState) | Refreshing(team: TeamState)

  function Called(s: StoreState, c: Call): StoreState {
    match c
    case Applying(ev) => Applied(s, ev)
    case Loading(ts) => Loaded(s, ts)
    case Refreshing(ts) => Refreshed(s, ts)
  }

  function After(s: StoreState, calls: seq<Call>): StoreState
    decreases |calls|
  {
    if calls == [] then s else After(Called(s, calls[0]), calls[1..])
  }

  // The last world before the rows are replaced.
  function LastWorld(s: StoreState, calls: seq<Call>): World
    decreases |calls|
  {
    if calls == [] || !calls[0].Applying? then s.world else LastWorld(Called(s, calls[0]), calls[1..])
  }

  // ---------------------------------------------------------------- what is shown

  function First<T>(n: nat, later: seq<T>, xs: seq<T>): seq<T> {
    if n <= |later| then later[..n] else xs
  }

  function MixedMembers(m: map<string, Member>, later: map<string, Member>): map<string, Member> {
    map k | k in m :: m[k].(agents := First(|m[k].agents|, MemberAt(later, k).agents, m[k].agents))
  }

  function MixedContracts(m: map<string, Contract>, later: map<string, Contract>): map<string, Contract> {
    map k | k in m :: m[k].(assertions := First(|m[k].assertions|, ContractAt(later, k).assertions, m[k].assertions))
  }

  // A world as it was, but for its agents and assertions: these are as they are
  // in a later one.
  function Mixed(w: World, later: World): World {
    w.(members := MixedMembers(w.members, later.members), contracts := MixedContracts(w.contracts, later.contracts))
  }

  ghost function MixedRows(v: EntityView, later: EntityView): EntityView {
    map k | k in v :: Seen(v[k].own, First(|v[k].kids|, KidsAt(later, k), v[k].kids))
  }

  // The lists of agents and assertions have only grown.
  ghost predicate Longer(v: EntityView, later: EntityView) {
    forall k :: k in v ==> k in later && |v[k].kids| <= |later[k].kids|
  }

  lemma MixedMembersShown(v: EntityView, m: map<string, Member>, later: EntityView, n: map<string, Member>)
    requires ShowsMembers(v, m) && ShowsMembers(later, n) && Longer(v, later)
    ensures ShowsMembers(MixedRows(v, later), MixedMembers(m, n))
  {
    forall k | k in m ensures k in n && MixedRows(v, later)[MemberKey(k)] == MemberRow(MixedMembers(m, n)[k]) {
      assert v[MemberKey(k)] == MemberRow(m[k]) && later[MemberKey(k)] == MemberRow(n[k]);
    }
  }

  lemma MixedContractsShown(v: EntityView, m: map<string, Contract>, later: EntityView, n: map<string, Contract>)
    requires ShowsContracts(v, m) && ShowsContracts(later, n) && Longer(v, later)
    ensures ShowsContracts(MixedRows(v, later), MixedContracts(m, n))
  {
    forall k | k in m ensures k in n && MixedRows(v, later)[ContractKey(k)] == ContractRow(MixedContracts(m, n)[k]) {
      assert v[ContractKey(k)] == ContractRow(m[k]) && later[ContractKey(k)] == ContractRow(n[k]);
    }
  }

  lemma PlainRows(v: EntityView, later: EntityView)
    ensures MixedRows(v, later).Keys == v.Keys
    ensures forall k :: k in v && v[k].kids == [] ==> MixedRows(v, later)[k] == v[k]
  {
  }

  lemma MixedShown(v: EntityView, w: World, later: EntityView, u: World)
    requires Shows(v, w) && Shows(later, u) && Longer(v, later)
    ensures Shows(MixedRows(v, later), Mixed(w, u))
  {
    MixedMembersShown(v, w.members, later, u.members);
    MixedContractsShown(v, w.contracts, later, u.contracts);
    PlainRows(v, later);
    PlainShown(v, MixedRows(v, later), w);
  }

  lemma PlainShown(v: EntityView, m: EntityView, w: World)
    requires Shows(v, w) && m.Keys == v.Keys && forall k :: k in v && v[k].kids == [] ==> m[k] == v[k]
    ensures ShowsSessions(m, w.sessions) && ShowsIntents(m, w.intents) && ShowsClaims(m, w.claims)
    ensures ShowsDecisions(m, w.decisions) && ShowsConflicts(m, w.conflicts)
  {
  }

  // ---------------------------------------------------------------- the store goes on

  // None of the copies is part of the store.
  ghost predicate Apart(snap: Snapshot, s: Store)
    reads s.rows
  {
    forall r :: r in snap.rows.Values ==> r !in s.rows.Repr
  }

  // Nor is what they point at.
  ghost predicate Detached(snap: Snapshot, s: Store)
    reads s.rows, snap.rows.Values
  {
    Apart(snap, s) && forall r :: r in KidsOf(snap.rows) ==> r !in s.rows.Repr
  }

  ghost predicate Attached(snap: Snapshot, s: Store)
    reads s.rows, s.rows.table, snap.rows.Values
  {
    Apart(snap, s) && PointersKept(Values(snap.rows), s.rows.table.view)
  }

  method Make(s: Store, c: Call)
    requires s.Valid()
    modifies s, s.rows.Repr
    ensures s.Valid() && fresh(s.rows.Repr - old(s.rows.Repr)) && s.State() == Called(old(s.State()), c)
    ensures c.Applying? ==> PointersKept(old(s.rows.table.view), s.rows.table.view)
    ensures !c.Applying? ==> fresh(s.rows.Repr - {s.rows, s.rows.table})
  {
    match c {
      case Applying(ev) => var _, _ := s.Apply(ev);
      case Loading(ts) => s.Load(ts);
      case Refreshing(ts) => s.Refresh(ts);
    }
  }

  // Nothing the store does reaches copies it has no row in common with.
  method MakeDetached(s: Store, snap: Snapshot, c: Call)
    requires s.Valid() && Detached(snap, s)
    modifies s, s.rows.Repr
    ensures s.Valid() && fresh(s.rows.Repr - old(s.rows.Repr)) && s.State() == Called(old(s.State()), c)
    ensures Detached(snap, s) && unchanged(snap.rows.Values, KidsOf(snap.rows))
  {
    Make(s, c);
  }

  method CallsDetached(s: Store, snap: Snapshot, calls: seq<Call>)
    requires s.Valid() && Detached(snap, s)
    modifies s, s.rows.Repr
    ensures s.Valid() && s.State() == After(old(s.State()), calls)
    ensures unchanged(snap.rows.Values, KidsOf(snap.rows))
    decreases |calls|
  {
    if calls != [] {
      MakeDetached(s, snap, calls[0]);
      CallsDetached(s, snap, calls[1..]);
    }
  }

  method ApplyApart(s: Store, snap: Snapshot, ev: Event)
    requires s.Valid() && Apart(snap, s)
    modifies s, s.rows.Repr
    ensures s.Valid() && fresh(s.rows.Repr - old(s.rows.Repr)) && s.State() == Applied(old(s.State()), ev)
    ensures PointersKept(old(s.rows.table.view), s.rows.table.view)
    ensures Apart(snap, s) && unchanged(snap.rows.Values)
  {
    var _, _ := s.Apply(ev);
  }

  // Events folded in place leave the copies pointing where the rows do.
  method ApplyAttached(s: Store, snap: Snapshot, ev: Event)
    requires s.Valid() && Attached(snap, s)
    modifies s, s.rows.Repr
    ensures s.Valid() && fresh(s.rows.Repr - old(s.rows.Repr)) && s.State() == Applied(old(s.State()), ev)
    ensures Attached(snap, s) && unchanged(snap.rows.Values)
  {
    ghost var v := s.rows.table.view;
    ApplyApart(s, snap, ev);
    KeptTwice(Values(snap.rows), v, s.rows.table.view);
  }

  method Replaced(s: Store, c: Call)
    requires s.Valid() && !c.Applying?
    modifies s, s.rows, s.rows.table
    ensures s.Valid() && fresh(s.rows.Repr - {s.rows, s.rows.table}) && s.State() == Called(old(s.State()), c)
  {
    match c {
      case Loading(ts) => s.Load(ts);
      case Refreshing(ts) => s.Refresh(ts);
    }
  }

  // The copies and what they point at are rows, not the maps that hold them.
  ghost predicate Rowed(snap: Snapshot, held: set<object>)
    reads snap.rows.Values
  {
    && (forall r :: r in snap.rows.Values ==> r !in held)
    && (forall r :: r in KidsOf(snap.rows) ==> r !in held)
  }

  lemma AttachedIsRowed(snap: Snapshot, s: Store)
    requires s.Valid() && Attached(snap, s)
    ensures Rowed(snap, {s, s.rows, s.rows.table})
  {
    KidsWithin(snap.rows, s.rows);
  }

  // A snapshot made anew points at rows the store no longer has.
  method MakeAnew(s: Store, snap: Snapshot, c: Call)
    requires s.Valid() && Rowed(snap, {s, s.rows, s.rows.table}) && !c.Applying?
    modifies s, s.rows, s.rows.table
    ensures s.Valid() && fresh(s.rows.Repr - {s.rows, s.rows.table}) && s.State() == Called(old(s.State()), c)
    ensures Detached(snap, s) && unchanged(snap.rows.Values, KidsOf(snap.rows))
  {
    Replaced(s, c);
  }

  // ---------------------------------------------------------------- the snapshot, later

  predicate AllApplying(calls: seq<Call>) {
    forall i :: 0 <= i < |calls| ==> calls[i].Applying?
  }

  // How many events come before the rows are replaced.
  function Stretch(calls: seq<Call>): (n: nat)
    ensures n <= |calls| && AllApplying(calls[..n]) && (n < |calls| ==> !calls[n].Applying?)
    decreases |calls|
  {
    if calls == [] || !calls[0].Applying? then 0
    else
      var n := Stretch(calls[1..]);
      assert calls[..n + 1] == [calls[0]] + calls[1..][..n];
      n + 1
  }

  lemma {:induction false} LastOfStretch(s: StoreState, calls: seq<Call>)
    ensures LastWorld(s, calls) == After(s, calls[..Stretch(calls)]).world
    decreases |calls|
  {
    if calls != [] && calls[0].Applying? {
      var n := Stretch(calls[1..]);
      LastOfStretch(Called(s, calls[0]), calls[1..]);
      assert calls[..n + 1][1..] == calls[1..][..n];
    }
  }

  lemma {:induction false} AfterBoth(s: StoreState, a: seq<Call>, b: seq<Call>)
    ensures After(s, a + b) == After(After(s, a), b)
    decreases |a|
  {
    if a == [] {
      assert a + b == b;
    } else {
      AfterBoth(Called(s, a[0]), a[1..], b);
      assert (a + b)[1..] == a[1..] + b;
    }
  }

  lemma FollowsShown(look: EntityView, v: EntityView, w: World, later: EntityView, u: World)
    requires Follows(look, v, later) && Shows(v, w) && Shows(later, u)
    ensures Shows(look, Mixed(w, u))
  {
    MixedShown(v, w, later, u);
    assert look == MixedRows(v, later);
  }

  method ApplyAll(s: Store, snap: Snapshot, calls: seq<Call>)
    requires s.Valid() && Attached(snap, s) && AllApplying(calls)
    modifies s, s.rows.Repr
    ensures s.Valid() && fresh(s.rows.Repr - old(s.rows.Repr)) && s.State() == After(old(s.State()), calls)
    ensures Attached(snap, s) && unchanged(snap.rows.Values)
  {
    ghost var s0 := s.State();
    for i := 0 to |calls|
      invariant s.Valid() && fresh(s.rows.Repr - old(s.rows.Repr)) && After(s.State(), calls[i..]) == After(s0, calls)
      invariant Attached(snap, s) && unchanged(snap.rows.Values)
    {
      assert calls[i..][1..] == calls[i + 1..];
      ApplyAttached(s, snap, calls[i].event);
    }
  }

  // Folding events after a snapshot was taken.
  method Folding(s: Store, calls: seq<Call>) returns (snap: Snapshot)
    requires s.Valid() && AllApplying(calls)
    modifies s, s.rows.Repr
    ensures s.Valid() && fresh(s.rows.Repr - old(s.rows.Repr)) && s.State() == After(old(s.State()), calls)
    ensures Attached(snap, s) && Follows(Look(snap.rows), old(s.rows.view), s.rows.view)
    ensures snap.events == old(s.events) && snap.sequence == old(s.sequence) && snap.boardRevision == old(s.boardRevision)
    ensures forall r :: r in snap.rows.Values ==> fresh(r)
  {
    ghost var v := s.rows.view;
    OutlineOf(s.rows.table.view, s.rows.heap, s.rows.places, v);
    snap := s.Snapshot();
    ApplyAll(s, snap, calls);
    LooksLive(snap.rows, s.rows, v);
  }

  // From the moment the rows are replaced.
  method Replacing(s: Store, snap: Snapshot, calls: seq<Call>)
    requires s.Valid() && Attached(snap, s) && (calls != [] ==> !calls[0].Applying?)
    modifies s, s.rows.Repr
    ensures s.Valid() && s.State() == After(old(s.State()), calls)
    ensures unchanged(snap.rows.Values, KidsOf(snap.rows))
  {
    if calls != [] {
      AttachedIsRowed(snap, s);
      MakeAnew(s, snap, calls[0]);
      CallsDetached(s, snap, calls[1..]);
    }
  }

  method ReplacingSeen(s: Store, snap: Snapshot, calls: seq<Call>)
    requires s.Valid() && Attached(snap, s) && (calls != [] ==> !calls[0].Applying?)
    modifies s, s.rows.Repr
    ensures s.Valid() && s.State() == After(old(s.State()), calls)
    ensures Look(snap.rows) == old(Look(snap.rows))
  {
    Replacing(s, snap, calls);
    LookKept(snap.rows);
  }

  // What a snapshot shows after any use of the store: everything as it was when
  // it was taken, but the agents and assertions it had as they were last before
  // the rows were replaced.
  method Later(s: Store, calls: seq<Call>) returns (snap: Snapshot)
    requires s.Valid()
    modifies s, s.rows.Repr
    ensures s.Valid() && s.State() == After(old(s.State()), calls)
    ensures Shows(Look(snap.rows), Mixed(old(s.world), LastWorld(old(s.State()), calls)))
    ensures snap.events == old(s.events) && snap.sequence == old(s.sequence) && snap.boardRevision == old(s.boardRevision)
  {
    ghost var s0, v := s.State(), s.rows.view;
    var n := Stretch(calls);
    LastOfStretch(s0, calls);
    assert calls == calls[..n] + calls[n..];
    AfterBoth(s0, calls[..n], calls[n..]);
    snap := Folding(s, calls[..n]);
    FollowsShown(Look(snap.rows), v, s0.world, s.rows.view, s.world);
    ReplacingSeen(s, snap, calls[n..]);
  }

  // ---------------------------------------------------------------- which events reach a snapshot

  predicate FirstWith(agents: seq<Agent>, key: string, i: nat) {
    i < |agents| && agents[i].key == key && forall j :: 0 <= j < i ==> agents[j].key != key
  }

  function Renamed(a: Agent, title: string, status: string, at: Time): Agent {
    a.(title := title, status := status, lastSeenAt := at)
  }

  // The event names this agent, which is not as the event says it is.
  predicate AgentMoves(w: World, ev: Event, k: string, i: nat)
    requires k in w.members && i < |w.members[k].agents|
  {
    var agents := w.members[k].agents;
    match ev.change
    case AgentRegistered(member, key, title, status) =>
      member == k && FirstWith(agents, key, i) && agents[i] != Renamed(agents[i], title, OrDefault(status, ACTIVE), ev.occurredAt)
    case AgentStatusChanged(member, key, status) =>
      member == k && FirstWith(agents, key, i) && agents[i] != Renamed(agents[i], agents[i].title, status, ev.occurredAt)
    case _ => false
  }

  // The event publishes again what this active assertion is about, or withdraws it.
  predicate AssertionMoves(w: World, ev: Event, k: string, i: nat)
    requires k in w.contracts && i < |w.contracts[k].assertions|
  {
    var x := w.contracts[k].assertions[i];
    match ev.change
    case ContractPublished(contract, _, assertion) =>
      contract == k && x.status == ACTIVE && assertion.Some?
      && assertion.value.sessionKey == x.sessionKey && assertion.value.role == x.role
    case ContractWithdrawn(contract, session) => contract == k && x.status == ACTIVE && x.sessionKey == session
    case _ => false
  }

  lemma {:induction false} RegisteredAgent(agents: seq<Agent>, a: Agent, i: nat)
    requires i < |agents|
    ensures i < |Registered(agents, a)|
    ensures Registered(agents, a)[i]
         == if FirstWith(agents, a.key, i) then Renamed(agents[i], a.title, a.status, a.lastSeenAt) else agents[i]
  {
    if agents[0].key != a.key && i > 0 {
      RegisteredAgent(agents[1..], a, i - 1);
      assert forall j :: 0 < j < i ==> agents[1..][j - 1] == agents[j];
    }
  }

  lemma {:induction false} RestatedAgent(agents: seq<Agent>, key: string, status: string, at: Time, i: nat)
    requires i < |agents|
    ensures i < |Restated(agents, key, status, at)|
    ensures Restated(agents, key, status, at)[i]
         == if FirstWith(agents, key, i) then Renamed(agents[i], agents[i].title, status, at) else agents[i]
  {
    if agents[0].key != key && i > 0 {
      RestatedAgent(agents[1..], key, status, at, i - 1);
      assert forall j :: 0 < j < i ==> agents[1..][j - 1] == agents[j];
    }
  }

  // An agent changes on exactly these events.
  lemma AgentChanges(w: World, ev: Event, k: string, i: nat)
    requires k in w.members && i < |w.members[k].agents|
    ensures k in Folded(w, ev).members && i < |Folded(w, ev).members[k].agents|
    ensures Folded(w, ev).members[k].agents[i] != w.members[k].agents[i] <==> AgentMoves(w, ev, k, i)
  {
    var agents := w.members[k].agents;
    match ev.change {
      case AgentRegistered(member, key, title, status) =>
        RegisteredAgent(agents, Agent(key, w.members[k].key, title, OrDefault(status, ACTIVE), ev.occurredAt), i);
      case AgentStatusChanged(member, key, status) =>
        RestatedAgent(agents, key, status, ev.occurredAt, i);
      case _ =>
    }
  }

  // An assertion changes on exactly these.
  lemma AssertionChanges(w: World, ev: Event, k: string, i: nat)
    requires k in w.contracts && i < |w.contracts[k].assertions|
    ensures k in Folded(w, ev).contracts && i < |Folded(w, ev).contracts[k].assertions|
    ensures Folded(w, ev).contracts[k].assertions[i] != w.contracts[k].assertions[i] <==> AssertionMoves(w, ev, k, i)
  {
    var x := w.contracts[k].assertions[i];
    assert ACTIVE[0] != SUPERSEDED[0] && ACTIVE[0] != WITHDRAWN[0];
    assert x.status == ACTIVE ==> x != x.(status := SUPERSEDED) && x != x.(status := WITHDRAWN);
  }

  // A world that has all the agents and assertions of another, and perhaps more.
  ghost predicate Within(w: World, later: World) {
    && (forall k :: k in w.members ==> k in later.members && |w.members[k].agents| <= |later.members[k].agents|)
    && (forall k :: k in w.contracts ==> k in later.contracts && |w.contracts[k].assertions| <= |later.contracts[k].assertions|)
  }

  lemma FirstSame<T>(n: nat, a: seq<T>, b: seq<T>, xs: seq<T>)
    requires n <= |a| && n <= |b|
    ensures First(n, a, xs) == First(n, b, xs) <==> forall i :: 0 <= i < n ==> a[i] == b[i]
  {
    if First(n, a, xs) == First(n, b, xs) {
      forall i | 0 <= i < n ensures a[i] == b[i] {
        assert a[..n][i] == b[..n][i];
      }
    }
  }

  lemma MixedMembersSame(m: map<string, Member>, n: map<string, Member>, l: map<string, Member>)
    requires forall k :: k in m ==> k in n && k in l && |m[k].agents| <= |n[k].agents| && |m[k].agents| <= |l[k].agents|
    ensures MixedMembers(m, n) == MixedMembers(m, l) <==>
      forall k, i :: k in m && 0 <= i < |m[k].agents| ==> n[k].agents[i] == l[k].agents[i]
  {
    forall k | k in m
      ensures MixedMembers(m, n)[k] == MixedMembers(m, l)[k]
        <==> forall i :: 0 <= i < |m[k].agents| ==> n[k].agents[i] == l[k].agents[i]
    {
      FirstSame(|m[k].agents|, n[k].agents, l[k].agents, m[k].agents);
    }
  }

  lemma MixedContractsSame(m: map<string, Contract>, n: map<string, Contract>, l: map<string, Contract>)
    requires forall k :: k in m ==>
      k in n && k in l && |m[k].assertions| <= |n[k].assertions| && |m[k].assertions| <= |l[k].assertions|
    ensures MixedContracts(m, n) == MixedContracts(m, l) <==>
      forall k, i :: k in m && 0 <= i < |m[k].assertions| ==> n[k].assertions[i] == l[k].assertions[i]
  {
    forall k | k in m
      ensures MixedContracts(m, n)[k] == MixedContracts(m, l)[k]
        <==> forall i :: 0 <= i < |m[k].assertions| ==> n[k].assertions[i] == l[k].assertions[i]
    {
      FirstSame(|m[k].assertions|, n[k].assertions, l[k].assertions, m[k].assertions);
    }
  }

  lemma MixedSame(w: World)
    ensures Mixed(w, w) == w
  {
    forall k | k in w.members ensures MixedMembers(w.members, w.members)[k] == w.members[k] {
      assert w.members[k].agents[..|w.members[k].agents|] == w.members[k].agents;
    }
    forall k | k in w.contracts ensures MixedContracts(w.contracts, w.contracts)[k] == w.contracts[k] {
      assert w.contracts[k].assertions[..|w.contracts[k].assertions|] == w.contracts[k].assertions;
    }
  }

  lemma WithinKept(w: World, later: World, ev: Event)
    requires Within(w, later)
    ensures Within(w, Folded(later, ev))
  {
    var f := Folded(later, ev);
    forall k | k in w.members ensures k in f.members && |w.members[k].agents| <= |f.members[k].agents| {
      MemberKept(later, ev, k);
    }
    forall k | k in w.contracts ensures k in f.contracts && |w.contracts[k].assertions| <= |f.contracts[k].assertions| {
      ContractKept(later, ev, k);
    }
  }

  lemma MemberKept(w: World, ev: Event, k: string)
    requires k in w.members
    ensures k in Folded(w, ev).members && |w.members[k].agents| <= |Folded(w, ev).members[k].agents|
  {
    if |w.members[k].agents| > 0 {
      AgentChanges(w, ev, k, |w.members[k].agents| - 1);
    }
  }

  lemma ContractKept(w: World, ev: Event, k: string)
    requires k in w.contracts
    ensures k in Folded(w, ev).contracts && |w.contracts[k].assertions| <= |Folded(w, ev).contracts[k].assertions|
  {
    if |w.contracts[k].assertions| > 0 {
      AssertionChanges(w, ev, k, |w.contracts[k].assertions| - 1);
    }
  }

  ghost predicate ReachesAgent(w: World, later: World, ev: Event)
    requires Within(w, later)
  {
    exists k, i :: k in w.members && 0 <= i < |w.members[k].agents| && AgentMoves(later, ev, k, i)
  }

  ghost predicate ReachesAssertion(w: World, later: World, ev: Event)
    requires Within(w, later)
  {
    exists k, i :: k in w.contracts && 0 <= i < |w.contracts[k].assertions| && AssertionMoves(later, ev, k, i)
  }

  lemma MembersMove(w: World, later: World, ev: Event)
    requires Within(w, later)
    ensures MixedMembers(w.members, Folded(later, ev).members) != MixedMembers(w.members, later.members)
      <==> ReachesAgent(w, later, ev)
  {
    WithinKept(w, later, ev);
    MixedMembersSame(w.members, Folded(later, ev).members, later.members);
    forall k, i | k in w.members && 0 <= i < |w.members[k].agents|
      ensures Folded(later, ev).members[k].agents[i] != later.members[k].agents[i] <==> AgentMoves(later, ev, k, i)
    {
      AgentChanges(later, ev, k, i);
    }
  }

  lemma ContractsMove(w: World, later: World, ev: Event)
    requires Within(w, later)
    ensures MixedContracts(w.contracts, Folded(later, ev).contracts) != MixedContracts(w.contracts, later.contracts)
      <==> ReachesAssertion(w, later, ev)
  {
    WithinKept(w, later, ev);
    MixedContractsSame(w.contracts, Folded(later, ev).contracts, later.contracts);
    forall k, i | k in w.contracts && 0 <= i < |w.contracts[k].assertions|
      ensures Folded(later, ev).contracts[k].assertions[i] != later.contracts[k].assertions[i] <==> AssertionMoves(later, ev, k, i)
    {
      AssertionChanges(later, ev, k, i);
    }
  }

  // What a snapshot shows changes with an event if and only if the event reaches
  // an agent or an assertion that the snapshot has.
  lemma SnapshotMoves(w: World, later: World, ev: Event)
    requires Within(w, later)
    ensures Mixed(w, Folded(later, ev)) != Mixed(w, later)
      <==> ReachesAgent(w, later, ev) || ReachesAssertion(w, later, ev)
  {
    MembersMove(w, later, ev);
    ContractsMove(w, later, ev);
  }

  // None of the events folded before the rows are replaced reaches what the
  // snapshot has.
  ghost predicate Unreached(w: World, s: StoreState, calls: seq<Call>)
    requires Within(w, s.world)
    decreases |calls|
  {
    calls == [] || !calls[0].Applying? || s.authoritative ||
      (var ev := calls[0].event;
       if Accepts(s, ev) then
         WithinKept(w, s.world, Stamped(s, ev));
         && !ReachesAgent(w, s.world, Stamped(s, ev)) && !ReachesAssertion(w, s.world, Stamped(s, ev))
         && Unreached(w, Applied(s, ev), calls[1..])
       else Unreached(w, s, calls[1..]))
  }

  lemma {:induction false} SnapshotStays(w: World, s: StoreState, calls: seq<Call>)
    requires Within(w, s.world) && Unreached(w, s, calls)
    ensures Mixed(w, LastWorld(s, calls)) == Mixed(w, s.world)
    decreases |calls|
  {
    if s.authoritative {
      LiveWorldStays(s, calls);
    } else if calls != [] && calls[0].Applying? {
      var ev := calls[0].event;
      if Accepts(s, ev) {
        WithinKept(w, s.world, Stamped(s, ev));
        SnapshotMoves(w, s.world, Stamped(s, ev));
      }
      SnapshotStays(w, Applied(s, ev), calls[1..]);
    }
  }

  // A reader of a recording can see part of an event that came after: an agent
  // it was given, with another status.
  lemma StatusReachesReader(member: string, agent: string, title: string, status: string, at: Time)
    requires status != ACTIVE
    ensures
      var s := Applied(NEW, Event(1, false, 0, at, AgentRegistered(member, agent, title, ACTIVE)));
      var seen := Mixed(s.world, LastWorld(s, [Applying(Event(2, false, 0, at, AgentStatusChanged(member, agent, status)))]));
      && s.world.members[member].agents == [Agent(agent, member, title, ACTIVE, at)]
      && seen.members[member].agents == [Agent(agent, member, title, status, at)]
  {
    var first := Event(1, false, 0, at, AgentRegistered(member, agent, title, ACTIVE));
    var second := Event(2, false, 0, at, AgentStatusChanged(member, agent, status));
    var s := Applied(NEW, first);
    assert s.world == Folded(EMPTY_WORLD, first);
    assert !Blank(ACTIVE) by { assert ACTIVE[0] == 'a'; }
    var a := Agent(agent, member, title, ACTIVE, at);
    assert s.world.members[member].agents == [a];
    assert LastWorld(s, [Applying(second)]) == Folded(s.world, second);
    assert Restated([a], agent, status, at) == [a.(status := status)];
  }

  // Under a loaded snapshot no event is folded, and what a reader was given is
  // what it was for good.
  lemma {:induction false} LiveSnapshotStays(s: StoreState, calls: seq<Call>)
    requires s.authoritative
    ensures Mixed(s.world, LastWorld(s, calls)) == s.world
    decreases |calls|
  {
    LiveWorldStays(s, calls);
    MixedSame(s.world);
  }

  lemma {:induction false} LiveWorldStays(s: StoreState, calls: seq<Call>)
    requires s.authoritative
    ensures LastWorld(s, calls) == s.world
    decreases |calls|
  {
    if calls != [] && calls[0].Applying? {
      LiveWorldStays(Called(s, calls[0]), calls[1..]);
    }
  }
}
