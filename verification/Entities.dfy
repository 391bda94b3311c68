// The rows of the entity maps (frontend/internal/state/store.go) as one map, its
// keys saying which of the seven maps they are keys of, and the world they show.
module Entities {
  import opened Fold
  import opened Model
  import opened Tables

  datatype RowKey =
    | MemberKey(key: string) | SessionKey(key: string) | IntentKey(key: string) | ClaimKey(key: string)
    | ContractKey(key: string) | DecisionKey(key: string) | ConflictKey(key: string)

  // A row's own fields. Members and contracts have pointers besides.
  datatype Own =
    | MemberOwn(key: string, displayName: string, role: string, lastSeenAt: Time)
    | SessionOwn(session: Session)
    | IntentOwn(intent: Intent)
    | ClaimOwn(claim: Claim)
    | ContractOwn(key: string, kind: string, updatedAt: Time)
    | DecisionOwn(decision: Decision)
    | ConflictOwn(conflict: Conflict)

  // What is pointed at: a member's agents and a contract's assertions.
  datatype Child = AgentChild(agent: Agent) | AssertionChild(assertion: Assertion)

  type EntityRows = Family<RowKey, Own, Child>

  type EntityView = map<RowKey, Seen<Own, Child>>

  // ---------------------------------------------------------------- what the rows show

  function AgentKids(agents: seq<Agent>): (kids: seq<Child>)
    ensures |kids| == |agents| && forall i :: 0 <= i < |agents| ==> kids[i] == AgentChild(agents[i])
  {
    seq(|agents|, i requires 0 <= i < |agents| => AgentChild(agents[i]))
  }

  function AssertionKids(xs: seq<Assertion>): (kids: seq<Child>)
    ensures |kids| == |xs| && forall i :: 0 <= i < |xs| ==> kids[i] == AssertionChild(xs[i])
  {
    seq(|xs|, i requires 0 <= i < |xs| => AssertionChild(xs[i]))
  }

  function MemberRow(m: Member): Seen<Own, Child> {
    Seen(MemberOwn(m.key, m.displayName, m.role, m.lastSeenAt), AgentKids(m.agents))
  }

  function ContractRow(c: Contract): Seen<Own, Child> {
    Seen(ContractOwn(c.key, c.kind, c.updatedAt), AssertionKids(c.assertions))
  }

  ghost predicate ShowsMembers(v: EntityView, m: map<string, Member>) {
    && (forall k :: k in m <==> MemberKey(k) in v)
    && (forall k :: k in m ==> v[MemberKey(k)] == MemberRow(m[k]))
  }

  ghost predicate ShowsSessions(v: EntityView, m: map<string, Session>) {
    && (forall k :: k in m <==> SessionKey(k) in v)
    && (forall k :: k in m ==> v[SessionKey(k)] == Seen(SessionOwn(m[k]), []))
  }

  ghost predicate ShowsIntents(v: EntityView, m: map<string, Intent>) {
    && (forall k :: k in m <==> IntentKey(k) in v)
    && (forall k :: k in m ==> v[IntentKey(k)] == Seen(IntentOwn(m[k]), []))
  }

  ghost predicate ShowsClaims(v: EntityView, m: map<string, Claim>) {
    && (forall k :: k in m <==> ClaimKey(k) in v)
    && (forall k :: k in m ==> v[ClaimKey(k)] == Seen(ClaimOwn(m[k]), []))
  }

  ghost predicate ShowsContracts(v: EntityView, m: map<string, Contract>) {
    && (forall k :: k in m <==> ContractKey(k) in v)
    && (forall k :: k in m ==> v[ContractKey(k)] == ContractRow(m[k]))
  }

  ghost predicate ShowsDecisions(v: EntityView, m: map<string, Decision>) {
    && (forall k :: k in m <==> DecisionKey(k) in v)
    && (forall k :: k in m ==> v[DecisionKey(k)] == Seen(DecisionOwn(m[k]), []))
  }

  ghost predicate ShowsConflicts(v: EntityView, m: map<string, Conflict>) {
    && (forall k :: k in m <==> ConflictKey(k) in v)
    && (forall k :: k in m ==> v[ConflictKey(k)] == Seen(ConflictOwn(m[k]), []))
  }

  // The rows are those of a world, and no others.
  ghost predicate Shows(v: EntityView, w: World) {
    && ShowsMembers(v, w.members)
    && ShowsSessions(v, w.sessions)
    && ShowsIntents(v, w.intents)
    && ShowsClaims(v, w.claims)
    && ShowsContracts(v, w.contracts)
    && ShowsDecisions(v, w.decisions)
    && ShowsConflicts(v, w.conflicts)
  }

  // The rows of one world only.
  lemma ShowsOne(v: EntityView, w: World, u: World)
    requires Shows(v, w) && Shows(v, u)
    ensures w == u
  {
    MembersOne(v, w.members, u.members);
    ContractsOne(v, w.contracts, u.contracts);
    PlainOne(v, w, u);
  }

  lemma MembersOne(v: EntityView, m: map<string, Member>, n: map<string, Member>)
    requires ShowsMembers(v, m) && ShowsMembers(v, n)
    ensures m == n
  {
    forall k | k in m ensures k in n && m[k] == n[k] {
      var row := v[MemberKey(k)];
      assert row == MemberRow(m[k]) && row == MemberRow(n[k]);
      forall i | 0 <= i < |row.kids| ensures m[k].agents[i] == n[k].agents[i] {
        assert row.kids[i] == AgentChild(m[k].agents[i]) && row.kids[i] == AgentChild(n[k].agents[i]);
      }
      assert m[k].agents == n[k].agents;
    }
  }

  lemma ContractsOne(v: EntityView, m: map<string, Contract>, n: map<string, Contract>)
    requires ShowsContracts(v, m) && ShowsContracts(v, n)
    ensures m == n
  {
    forall k | k in m ensures k in n && m[k] == n[k] {
      var row := v[ContractKey(k)];
      assert row == ContractRow(m[k]) && row == ContractRow(n[k]);
      forall i | 0 <= i < |row.kids| ensures m[k].assertions[i] == n[k].assertions[i] {
        assert row.kids[i] == AssertionChild(m[k].assertions[i]) && row.kids[i] == AssertionChild(n[k].assertions[i]);
      }
      assert m[k].assertions == n[k].assertions;
    }
  }

  lemma PlainOne(v: EntityView, w: World, u: World)
    requires Shows(v, w) && Shows(v, u)
    ensures w.sessions == u.sessions && w.intents == u.intents && w.claims == u.claims
    ensures w.decisions == u.decisions && w.conflicts == u.conflicts
  {
    forall k | k in w.sessions ensures k in u.sessions && w.sessions[k] == u.sessions[k] {
      assert v[SessionKey(k)] == Seen(SessionOwn(w.sessions[k]), []);
    }
    forall k | k in w.intents ensures k in u.intents && w.intents[k] == u.intents[k] {
      assert v[IntentKey(k)] == Seen(IntentOwn(w.intents[k]), []);
    }
    forall k | k in w.claims ensures k in u.claims && w.claims[k] == u.claims[k] {
      assert v[ClaimKey(k)] == Seen(ClaimOwn(w.claims[k]), []);
    }
    forall k | k in w.decisions ensures k in u.decisions && w.decisions[k] == u.decisions[k] {
      assert v[DecisionKey(k)] == Seen(DecisionOwn(w.decisions[k]), []);
    }
    forall k | k in w.conflicts ensures k in u.conflicts && w.conflicts[k] == u.conflicts[k] {
      assert v[ConflictKey(k)] == Seen(ConflictOwn(w.conflicts[k]), []);
    }
  }

  // A row of one kind is not a row of another.
  lemma OtherMembers(v: EntityView, m: map<string, Member>, r: RowKey, x: Seen<Own, Child>)
    requires ShowsMembers(v, m) && !r.MemberKey?
    ensures ShowsMembers(v[r := x], m)
  {
  }

  lemma OtherSessions(v: EntityView, m: map<string, Session>, r: RowKey, x: Seen<Own, Child>)
    requires ShowsSessions(v, m) && !r.SessionKey?
    ensures ShowsSessions(v[r := x], m)
  {
  }

  lemma OtherIntents(v: EntityView, m: map<string, Intent>, r: RowKey, x: Seen<Own, Child>)
    requires ShowsIntents(v, m) && !r.IntentKey?
    ensures ShowsIntents(v[r := x], m)
  {
  }

  lemma OtherClaims(v: EntityView, m: map<string, Claim>, r: RowKey, x: Seen<Own, Child>)
    requires ShowsClaims(v, m) && !r.ClaimKey?
    ensures ShowsClaims(v[r := x], m)
  {
  }

  lemma OtherContracts(v: EntityView, m: map<string, Contract>, r: RowKey, x: Seen<Own, Child>)
    requires ShowsContracts(v, m) && !r.ContractKey?
    ensures ShowsContracts(v[r := x], m)
  {
  }

  lemma OtherDecisions(v: EntityView, m: map<string, Decision>, r: RowKey, x: Seen<Own, Child>)
    requires ShowsDecisions(v, m) && !r.DecisionKey?
    ensures ShowsDecisions(v[r := x], m)
  {
  }

  lemma OtherConflicts(v: EntityView, m: map<string, Conflict>, r: RowKey, x: Seen<Own, Child>)
    requires ShowsConflicts(v, m) && !r.ConflictKey?
    ensures ShowsConflicts(v[r := x], m)
  {
  }

  lemma PutMember(v: EntityView, m: map<string, Member>, key: string, x: Member)
    requires ShowsMembers(v, m)
    ensures ShowsMembers(v[MemberKey(key) := MemberRow(x)], m[key := x])
  {
  }

  lemma ShowsMember(v: EntityView, w: World, key: string, x: Member)
    requires Shows(v, w)
    ensures Shows(v[MemberKey(key) := MemberRow(x)], w.(members := w.members[key := x]))
  {
    PutMember(v, w.members, key, x);
    OtherSessions(v, w.sessions, MemberKey(key), MemberRow(x));
    OtherIntents(v, w.intents, MemberKey(key), MemberRow(x));
    OtherClaims(v, w.claims, MemberKey(key), MemberRow(x));
    OtherContracts(v, w.contracts, MemberKey(key), MemberRow(x));
    OtherDecisions(v, w.decisions, MemberKey(key), MemberRow(x));
    OtherConflicts(v, w.conflicts, MemberKey(key), MemberRow(x));
  }

  lemma PutSession(v: EntityView, m: map<string, Session>, key: string, x: Session)
    requires ShowsSessions(v, m)
    ensures ShowsSessions(v[SessionKey(key) := Seen(SessionOwn(x), [])], m[key := x])
  {
  }

  lemma ShowsSession(v: EntityView, w: World, key: string, x: Session)
    requires Shows(v, w)
    ensures Shows(v[SessionKey(key) := Seen(SessionOwn(x), [])], w.(sessions := w.sessions[key := x]))
  {
    PutSession(v, w.sessions, key, x);
    OtherMembers(v, w.members, SessionKey(key), Seen(SessionOwn(x), []));
    OtherIntents(v, w.intents, SessionKey(key), Seen(SessionOwn(x), []));
    OtherClaims(v, w.claims, SessionKey(key), Seen(SessionOwn(x), []));
    OtherContracts(v, w.contracts, SessionKey(key), Seen(SessionOwn(x), []));
    OtherDecisions(v, w.decisions, SessionKey(key), Seen(SessionOwn(x), []));
    OtherConflicts(v, w.conflicts, SessionKey(key), Seen(SessionOwn(x), []));
  }

  lemma PutIntent(v: EntityView, m: map<string, Intent>, key: string, x: Intent)
    requires ShowsIntents(v, m)
    ensures ShowsIntents(v[IntentKey(key) := Seen(IntentOwn(x), [])], m[key := x])
  {
  }

  lemma ShowsIntent(v: EntityView, w: World, key: string, x: Intent)
    requires Shows(v, w)
    ensures Shows(v[IntentKey(key) := Seen(IntentOwn(x), [])], w.(intents := w.intents[key := x]))
  {
    PutIntent(v, w.intents, key, x);
    OtherMembers(v, w.members, IntentKey(key), Seen(IntentOwn(x), []));
    OtherSessions(v, w.sessions, IntentKey(key), Seen(IntentOwn(x), []));
    OtherClaims(v, w.claims, IntentKey(key), Seen(IntentOwn(x), []));
    OtherContracts(v, w.contracts, IntentKey(key), Seen(IntentOwn(x), []));
    OtherDecisions(v, w.decisions, IntentKey(key), Seen(IntentOwn(x), []));
    OtherConflicts(v, w.conflicts, IntentKey(key), Seen(IntentOwn(x), []));
  }

  lemma PutClaim(v: EntityView, m: map<string, Claim>, key: string, x: Claim)
    requires ShowsClaims(v, m)
    ensures ShowsClaims(v[ClaimKey(key) := Seen(ClaimOwn(x), [])], m[key := x])
  {
  }

  lemma ShowsClaim(v: EntityView, w: World, key: string, x: Claim)
    requires Shows(v, w)
    ensures Shows(v[ClaimKey(key) := Seen(ClaimOwn(x), [])], w.(claims := w.claims[key := x]))
  {
    PutClaim(v, w.claims, key, x);
    OtherMembers(v, w.members, ClaimKey(key), Seen(ClaimOwn(x), []));
    OtherSessions(v, w.sessions, ClaimKey(key), Seen(ClaimOwn(x), []));
    OtherIntents(v, w.intents, ClaimKey(key), Seen(ClaimOwn(x), []));
    OtherContracts(v, w.contracts, ClaimKey(key), Seen(ClaimOwn(x), []));
    OtherDecisions(v, w.decisions, ClaimKey(key), Seen(ClaimOwn(x), []));
    OtherConflicts(v, w.conflicts, ClaimKey(key), Seen(ClaimOwn(x), []));
  }

  lemma PutContract(v: EntityView, m: map<string, Contract>, key: string, x: Contract)
    requires ShowsContracts(v, m)
    ensures ShowsContracts(v[ContractKey(key) := ContractRow(x)], m[key := x])
  {
  }

  lemma ShowsContract(v: EntityView, w: World, key: string, x: Contract)
    requires Shows(v, w)
    ensures Shows(v[ContractKey(key) := ContractRow(x)], w.(contracts := w.contracts[key := x]))
  {
    PutContract(v, w.contracts, key, x);
    OtherMembers(v, w.members, ContractKey(key), ContractRow(x));
    OtherSessions(v, w.sessions, ContractKey(key), ContractRow(x));
    OtherIntents(v, w.intents, ContractKey(key), ContractRow(x));
    OtherClaims(v, w.claims, ContractKey(key), ContractRow(x));
    OtherDecisions(v, w.decisions, ContractKey(key), ContractRow(x));
    OtherConflicts(v, w.conflicts, ContractKey(key), ContractRow(x));
  }

  lemma PutDecision(v: EntityView, m: map<string, Decision>, key: string, x: Decision)
    requires ShowsDecisions(v, m)
    ensures ShowsDecisions(v[DecisionKey(key) := Seen(DecisionOwn(x), [])], m[key := x])
  {
  }

  lemma ShowsDecision(v: EntityView, w: World, key: string, x: Decision)
    requires Shows(v, w)
    ensures Shows(v[DecisionKey(key) := Seen(DecisionOwn(x), [])], w.(decisions := w.decisions[key := x]))
  {
    PutDecision(v, w.decisions, key, x);
    OtherMembers(v, w.members, DecisionKey(key), Seen(DecisionOwn(x), []));
    OtherSessions(v, w.sessions, DecisionKey(key), Seen(DecisionOwn(x), []));
    OtherIntents(v, w.intents, DecisionKey(key), Seen(DecisionOwn(x), []));
    OtherClaims(v, w.claims, DecisionKey(key), Seen(DecisionOwn(x), []));
    OtherContracts(v, w.contracts, DecisionKey(key), Seen(DecisionOwn(x), []));
    OtherConflicts(v, w.conflicts, DecisionKey(key), Seen(DecisionOwn(x), []));
  }

  lemma PutConflict(v: EntityView, m: map<string, Conflict>, key: string, x: Conflict)
    requires ShowsConflicts(v, m)
    ensures ShowsConflicts(v[ConflictKey(key) := Seen(ConflictOwn(x), [])], m[key := x])
  {
  }

  lemma ShowsConflict(v: EntityView, w: World, key: string, x: Conflict)
    requires Shows(v, w)
    ensures Shows(v[ConflictKey(key) := Seen(ConflictOwn(x), [])], w.(conflicts := w.conflicts[key := x]))
  {
    PutConflict(v, w.conflicts, key, x);
    OtherMembers(v, w.members, ConflictKey(key), Seen(ConflictOwn(x), []));
    OtherSessions(v, w.sessions, ConflictKey(key), Seen(ConflictOwn(x), []));
    OtherIntents(v, w.intents, ConflictKey(key), Seen(ConflictOwn(x), []));
    OtherClaims(v, w.claims, ConflictKey(key), Seen(ConflictOwn(x), []));
    OtherContracts(v, w.contracts, ConflictKey(key), Seen(ConflictOwn(x), []));
    OtherDecisions(v, w.decisions, ConflictKey(key), Seen(ConflictOwn(x), []));
  }
}
