// The rows of a world, changed in place by an event, are the rows of the folded
// world.
module Showing {
  import opened Entities
  import opened Fold
  import opened Folding
  import opened Model
  import opened Tables

  // ---------------------------------------------------------------- what an event leaves alone

  lemma FoldedSession(w: World, ev: Event)
    requires ConcernsSession(ev.change)
    ensures var c := ev.change; var s := SessionAfter(SessionAt(w.sessions, c.sessionKey), c, ev.occurredAt);
      var w1 := w.(sessions := w.sessions[c.sessionKey := s]);
      && s.key == SessionAt(w.sessions, c.sessionKey).key
      && Folded(w, ev) == if c.SessionEnded? then
           w1.(claims := ReleasedClaims(w.claims, s.key), intents := ClosedIntents(w.intents, s.key, ev.occurredAt))
         else w1
  {
  }

  lemma FoldedIntent(w: World, ev: Event)
    requires ConcernsIntent(ev.change)
    ensures var c := ev.change; var i := IntentAfter(IntentAt(w.intents, c.intentKey), c, ev.occurredAt);
      var w1 := w.(intents := w.intents[c.intentKey := i]);
      Folded(w, ev) == if c.statusLine != "" && (c.IntentDeclared? || i.sessionKey != "") then
        w1.(sessions := w.sessions[i.sessionKey := SessionAt(w.sessions, i.sessionKey).(statusLine := c.statusLine)])
      else w1
  {
  }

  lemma FoldedClaim(w: World, ev: Event)
    requires ConcernsClaim(ev.change)
    ensures var c := ev.change;
      Folded(w, ev) == w.(claims := w.claims[c.claimKey := ClaimAfter(ClaimAt(w.claims, c.claimKey), c, ev.occurredAt)])
  {
  }

  lemma FoldedConflict(w: World, ev: Event)
    requires ConcernsConflict(ev.change)
    ensures var c := ev.change;
      Folded(w, ev) == w.(conflicts := w.conflicts[c.conflictKey := ConflictAfter(ConflictAt(w.conflicts, c.conflictKey), c, ev.occurredAt)])
  {
  }

  lemma FoldedRecorded(w: World, ev: Event)
    requires ev.change.DecisionRecorded?
    ensures var c := ev.change; var ds := w.decisions;
      var d := Recorded(DecisionAt(ds, c.decisionKey), c.decisionKey in ds, c, ev.occurredAt);
      && d.key == DecisionAt(ds, c.decisionKey).key
      && Folded(w, ev) == w.(decisions := Overtaken(ds[c.decisionKey := d], c.supersedes, d.key, ev.occurredAt))
  {
  }

  lemma FoldedEnded(w: World, ev: Event)
    requires ev.change.DecisionSuperseded?
    ensures var c := ev.change;
      Folded(w, ev) == if c.newStatus == SUPERSEDED || c.newStatus == REVOKED then
        w.(decisions := w.decisions[c.decisionKey :=
          Superseded(DecisionAt(w.decisions, c.decisionKey), c.newStatus, c.supersededBy, ev.occurredAt)])
      else w
  {
  }

  lemma FoldedMember(w: World, ev: Event)
    requires ConcernsMember(ev.change) || ev.change.AgentStatusChanged?
    ensures Folded(w, ev) == w.(members := FoldedMembers(w.members, ev.change, ev.occurredAt))
  {
  }

  lemma FoldedContract(w: World, ev: Event)
    requires ConcernsContract(ev.change)
    ensures var c := ev.change;
      Folded(w, ev) == w.(contracts := w.contracts[c.contractKey := ContractAfter(ContractAt(w.contracts, c.contractKey), c, ev.occurredAt)])
  {
  }

  // ---------------------------------------------------------------- rows without pointers

  lemma ShowsSessionIn(v: EntityView, w: World, key: string)
    requires Shows(v, w)
    ensures SessionIn(v, key) == SessionAt(w.sessions, key)
    ensures forall x :: WithSession(v, key, x) == v[SessionKey(key) := Seen(SessionOwn(x), [])]
  {
  }

  lemma ShowsIntentIn(v: EntityView, w: World, key: string)
    requires Shows(v, w)
    ensures IntentIn(v, key) == IntentAt(w.intents, key)
    ensures forall x :: WithIntent(v, key, x) == v[IntentKey(key) := Seen(IntentOwn(x), [])]
  {
  }

  lemma ShowsClaimIn(v: EntityView, w: World, key: string)
    requires Shows(v, w)
    ensures ClaimIn(v, key) == ClaimAt(w.claims, key)
    ensures forall x :: WithClaim(v, key, x) == v[ClaimKey(key) := Seen(ClaimOwn(x), [])]
  {
  }

  lemma ShowsDecisionIn(v: EntityView, w: World, key: string)
    requires Shows(v, w)
    ensures DecisionIn(v, key) == DecisionAt(w.decisions, key) && (DecisionKey(key) in v <==> key in w.decisions)
    ensures forall x :: WithDecision(v, key, x) == v[DecisionKey(key) := Seen(DecisionOwn(x), [])]
  {
  }

  lemma ShowsConflictIn(v: EntityView, w: World, key: string)
    requires Shows(v, w)
    ensures ConflictIn(v, key) == ConflictAt(w.conflicts, key)
    ensures forall x :: WithConflict(v, key, x) == v[ConflictKey(key) := Seen(ConflictOwn(x), [])]
  {
  }

  // ---------------------------------------------------------------- sessions

  lemma ShowsReleased(v: EntityView, w: World, session: string)
    requires Shows(v, w)
    ensures Shows(ReleasedIn(v, session), w.(claims := ReleasedClaims(w.claims, session)))
  {
    var v' := ReleasedIn(v, session);
    forall k | k in w.claims ensures v'[ClaimKey(k)] == Seen(ClaimOwn(ReleasedClaim(w.claims[k], session)), []) {
      assert v[ClaimKey(k)] == Seen(ClaimOwn(w.claims[k]), []);
    }
    OthersUnchanged(v, Held(session), Releasing);
    assert ShowsClaims(v', ReleasedClaims(w.claims, session));
  }

  lemma OthersUnchanged(v: EntityView, asked: (RowKey, Own) -> bool, change: Own -> Own)
    ensures var v' := ChangedRows(v, {}, asked, change);
      v'.Keys == v.Keys && forall r :: r in v && !asked(r, v[r].own) ==> v'[r] == v[r]
  {
  }

  lemma ShowsClosed(v: EntityView, w: World, session: string, at: Time)
    requires Shows(v, w)
    ensures Shows(ClosedIn(v, session, at), w.(intents := ClosedIntents(w.intents, session, at)))
  {
    var v' := ClosedIn(v, session, at);
    forall k | k in w.intents ensures v'[IntentKey(k)] == Seen(IntentOwn(ClosedIntent(w.intents[k], session, at)), []) {
      assert v[IntentKey(k)] == Seen(IntentOwn(w.intents[k]), []);
    }
    OthersUnchanged(v, Pending(session), Closing(at));
    assert ShowsIntents(v', ClosedIntents(w.intents, session, at));
  }

  lemma ShowsSessionChanged(v: EntityView, w: World, c: Change, at: Time)
    requires Shows(v, w) && ConcernsSession(c)
    ensures var s := SessionAfter(SessionAt(w.sessions, c.sessionKey), c, at);
      && SessionIn(SessionChanged(v, c, at), c.sessionKey) == s
      && Shows(SessionChanged(v, c, at), w.(sessions := w.sessions[c.sessionKey := s]))
  {
    var s := SessionAfter(SessionAt(w.sessions, c.sessionKey), c, at);
    ShowsSessionIn(v, w, c.sessionKey);
    ShowsSession(v, w, c.sessionKey, s);
  }

  lemma ShowsAfterSession(v: EntityView, w: World, ev: Event)
    requires Shows(v, w) && ConcernsSession(ev.change)
    ensures Shows(AfterSession(v, ev.change, ev.occurredAt), Folded(w, ev))
  {
    var c, at := ev.change, ev.occurredAt;
    FoldedSession(w, ev);
    ShowsSessionChanged(v, w, c, at);
    if c.SessionEnded? {
      var s := SessionAfter(SessionAt(w.sessions, c.sessionKey), c, at);
      var v1, w1 := SessionChanged(v, c, at), w.(sessions := w.sessions[c.sessionKey := s]);
      ShowsReleased(v1, w1, s.key);
      ShowsClosed(ReleasedIn(v1, s.key), w1.(claims := ReleasedClaims(w.claims, s.key)), s.key, at);
    }
  }

  // ---------------------------------------------------------------- intents, claims, conflicts

  lemma ShowsIntentChanged(v: EntityView, w: World, c: Change, at: Time)
    requires Shows(v, w) && ConcernsIntent(c)
    ensures IntentIn(v, c.intentKey) == IntentAt(w.intents, c.intentKey)
    ensures Shows(IntentChanged(v, c, at),
      w.(intents := w.intents[c.intentKey := IntentAfter(IntentAt(w.intents, c.intentKey), c, at)]))
  {
    ShowsIntentIn(v, w, c.intentKey);
    ShowsIntent(v, w, c.intentKey, IntentAfter(IntentAt(w.intents, c.intentKey), c, at));
  }

  lemma ShowsStatusLine(v: EntityView, w: World, key: string, line: string)
    requires Shows(v, w)
    ensures Shows(WithSession(v, key, SessionIn(v, key).(statusLine := line)),
      w.(sessions := w.sessions[key := SessionAt(w.sessions, key).(statusLine := line)]))
  {
    ShowsSessionIn(v, w, key);
    ShowsSession(v, w, key, SessionAt(w.sessions, key).(statusLine := line));
  }

  lemma ShowsAfterIntent(v: EntityView, w: World, ev: Event)
    requires Shows(v, w) && ConcernsIntent(ev.change)
    ensures Shows(AfterIntent(v, ev.change, ev.occurredAt), Folded(w, ev))
  {
    var c, at := ev.change, ev.occurredAt;
    var i := IntentAfter(IntentAt(w.intents, c.intentKey), c, at);
    FoldedIntent(w, ev);
    ShowsIntentChanged(v, w, c, at);
    if c.statusLine != "" && (c.IntentDeclared? || i.sessionKey != "") {
      ShowsStatusLine(IntentChanged(v, c, at), w.(intents := w.intents[c.intentKey := i]), i.sessionKey, c.statusLine);
    }
  }

  lemma ShowsAfterClaim(v: EntityView, w: World, ev: Event)
    requires Shows(v, w) && ConcernsClaim(ev.change)
    ensures Shows(ClaimChanged(v, ev.change, ev.occurredAt), Folded(w, ev))
  {
    var c := ev.change;
    FoldedClaim(w, ev);
    ShowsClaimIn(v, w, c.claimKey);
    ShowsClaim(v, w, c.claimKey, ClaimAfter(ClaimAt(w.claims, c.claimKey), c, ev.occurredAt));
  }

  lemma ShowsAfterConflict(v: EntityView, w: World, ev: Event)
    requires Shows(v, w) && ConcernsConflict(ev.change)
    ensures Shows(ConflictChanged(v, ev.change, ev.occurredAt), Folded(w, ev))
  {
    var c := ev.change;
    FoldedConflict(w, ev);
    ShowsConflictIn(v, w, c.conflictKey);
    ShowsConflict(v, w, c.conflictKey, ConflictAfter(ConflictAt(w.conflicts, c.conflictKey), c, ev.occurredAt));
  }

  // ---------------------------------------------------------------- decisions

  lemma ShowsOvertaken(v: EntityView, w: World, previous: string, successor: string, at: Time)
    requires Shows(v, w)
    ensures Shows(DecisionOvertaken(v, previous, successor, at),
      w.(decisions := Overtaken(w.decisions, previous, successor, at)))
  {
    ShowsDecisionIn(v, w, previous);
    if previous != "" && previous in w.decisions && w.decisions[previous].Active() {
      ShowsDecision(v, w, previous,
        w.decisions[previous].(status := SUPERSEDED, supersededBy := successor, endedAt := at, updatedAt := at));
    }
  }

  lemma ShowsRecorded(v: EntityView, w: World, c: Change, at: Time)
    requires Shows(v, w) && c.DecisionRecorded?
    ensures DecisionIn(v, c.decisionKey) == DecisionAt(w.decisions, c.decisionKey)
    ensures Shows(DecisionSet(v, c, at), w.(decisions := w.decisions[c.decisionKey :=
      Recorded(DecisionAt(w.decisions, c.decisionKey), c.decisionKey in w.decisions, c, at)]))
  {
    ShowsDecisionIn(v, w, c.decisionKey);
    ShowsDecision(v, w, c.decisionKey, Recorded(DecisionAt(w.decisions, c.decisionKey), c.decisionKey in w.decisions, c, at));
  }

  lemma ShowsEnded(v: EntityView, w: World, key: string, status: string, successor: string, at: Time)
    requires Shows(v, w)
    ensures Shows(WithDecision(v, key, Superseded(DecisionIn(v, key), status, successor, at)),
      w.(decisions := w.decisions[key := Superseded(DecisionAt(w.decisions, key), status, successor, at)]))
  {
    ShowsDecisionIn(v, w, key);
    ShowsDecision(v, w, key, Superseded(DecisionAt(w.decisions, key), status, successor, at));
  }

  lemma ShowsAfterRecorded(v: EntityView, w: World, ev: Event)
    requires Shows(v, w) && ev.change.DecisionRecorded?
    ensures Shows(AfterDecision(v, ev.change, ev.occurredAt), Folded(w, ev))
  {
    var c, at := ev.change, ev.occurredAt;
    var d := Recorded(DecisionAt(w.decisions, c.decisionKey), c.decisionKey in w.decisions, c, at);
    FoldedRecorded(w, ev);
    ShowsRecorded(v, w, c, at);
    ShowsOvertaken(DecisionSet(v, c, at), w.(decisions := w.decisions[c.decisionKey := d]), c.supersedes, d.key, at);
  }

  lemma ShowsAfterEnded(v: EntityView, w: World, ev: Event)
    requires Shows(v, w) && ev.change.DecisionSuperseded?
    ensures Shows(AfterDecision(v, ev.change, ev.occurredAt), Folded(w, ev))
  {
    var c := ev.change;
    FoldedEnded(w, ev);
    ShowsEnded(v, w, c.decisionKey, c.newStatus, c.supersededBy, ev.occurredAt);
  }

  // ---------------------------------------------------------------- members

  lemma KidsOfMore(a: Agent, agents: seq<Agent>)
    ensures AgentKids([a] + agents) == [AgentChild(a)] + AgentKids(agents)
  {
  }

  lemma {:induction false} RegisteredShown(agents: seq<Agent>, a: Agent)
    ensures RegisteredKids(AgentKids(agents), a) == AgentKids(Registered(agents, a))
  {
    if agents == [] {
      assert AgentKids([a]) == [AgentChild(a)];
    } else {
      var first, rest := agents[0], agents[1..];
      KidsOfMore(first, rest);
      assert agents == [first] + rest && AgentKids(agents)[1..] == AgentKids(rest);
      if first.key == a.key {
        KidsOfMore(first.(title := a.title, status := a.status, lastSeenAt := a.lastSeenAt), rest);
      } else {
        RegisteredShown(rest, a);
        KidsOfMore(first, Registered(rest, a));
      }
    }
  }

  lemma {:induction false} RestatedShown(agents: seq<Agent>, key: string, status: string, at: Time)
    ensures RestatedKids(AgentKids(agents), key, status, at) == AgentKids(Restated(agents, key, status, at))
  {
    if agents != [] {
      var first, rest := agents[0], agents[1..];
      KidsOfMore(first, rest);
      assert agents == [first] + rest && AgentKids(agents)[1..] == AgentKids(rest);
      if first.key == key {
        KidsOfMore(first.(status := status, lastSeenAt := at), rest);
      } else {
        RestatedShown(rest, key, status, at);
        KidsOfMore(first, Restated(rest, key, status, at));
      }
    }
  }

  lemma ShowsMemberMade(v: EntityView, w: World, key: string)
    requires Shows(v, w)
    ensures MemberMade(v, key)[MemberKey(key)] == MemberRow(MemberAt(w.members, key))
    ensures MemberMade(v, key) == v[MemberKey(key) := MemberRow(MemberAt(w.members, key))]
  {
    assert AgentKids([]) == [];
  }

  lemma ShowsJoined(v: EntityView, w: World, key: string, name: string, role: string, at: Time)
    requires Shows(v, w)
    ensures JoinedIn(v, key, name, role, at) == v[MemberKey(key) :=
      MemberRow(MemberAt(w.members, key).(displayName := name, role := role, lastSeenAt := at))]
  {
    assert AgentKids([]) == [];
  }

  lemma ShowsRegistered(v: EntityView, w: World, key: string, agent: string, title: string, status: string, at: Time)
    requires Shows(v, w)
    ensures var m := MemberAt(w.members, key);
      RegisteredIn(v, key, agent, title, status, at)
        == v[MemberKey(key) := MemberRow(m.(agents := Registered(m.agents, Agent(agent, m.key, title, status, at))))]
  {
    var m := MemberAt(w.members, key);
    ShowsMemberMade(v, w, key);
    RegisteredShown(m.agents, Agent(agent, m.key, title, status, at));
  }

  lemma ShowsRestated(v: EntityView, w: World, key: string, agent: string, status: string, at: Time)
    requires Shows(v, w)
    ensures RestatedIn(v, key, agent, status, at)
      == if key in w.members then
           v[MemberKey(key) := MemberRow(w.members[key].(agents := Restated(w.members[key].agents, agent, status, at)))]
         else v
  {
    if key in w.members {
      RestatedShown(w.members[key].agents, agent, status, at);
    }
  }

  lemma MemberShown(v: EntityView, w: World, c: Change, at: Time)
    requires Shows(v, w) && ConcernsMember(c)
    ensures AfterMember(v, c, at) == v[MemberKey(c.memberKey) := MemberRow(MemberAfter(MemberAt(w.members, c.memberKey), c, at))]
  {
    match c {
      case MemberJoined(key, name, role) => ShowsJoined(v, w, key, name, role, at);
      case AgentRegistered(key, agent, title, status) => ShowsRegistered(v, w, key, agent, title, OrDefault(status, ACTIVE), at);
    }
  }

  lemma ShowsAfterMember(v: EntityView, w: World, ev: Event)
    requires Shows(v, w) && (ConcernsMember(ev.change) || ev.change.AgentStatusChanged?)
    ensures Shows(AfterMember(v, ev.change, ev.occurredAt), Folded(w, ev))
  {
    var c, at := ev.change, ev.occurredAt;
    var key := c.memberKey;
    FoldedMember(w, ev);
    if ConcernsMember(c) {
      MemberShown(v, w, c, at);
      ShowsMember(v, w, key, MemberAfter(MemberAt(w.members, key), c, at));
    } else {
      ShowsRestated(v, w, key, c.agentKey, c.status, at);
      if key in w.members {
        ShowsMember(v, w, key, w.members[key].(agents := Restated(w.members[key].agents, c.agentKey, c.status, at)));
      }
    }
  }

  // ---------------------------------------------------------------- contracts

  lemma PublishedShown(xs: seq<Assertion>, a: Assertion, at: Time)
    ensures PublishedKids(AssertionKids(xs), a, at) == AssertionKids(Published(xs, a, at))
  {
    assert ChangedWhere(AssertionKids(xs), |xs|, OnSide(a.sessionKey, a.role), Marked(SUPERSEDED))
        == AssertionKids(SupersededAll(xs, a.sessionKey, a.role));
  }

  lemma WithdrawnShown(xs: seq<Assertion>, session: string)
    ensures ChangedWhere(AssertionKids(xs), |xs|, OfSession(session), Marked(WITHDRAWN)) == AssertionKids(WithdrawnAll(xs, session))
  {
  }

  lemma ShowsPublished(v: EntityView, w: World, c: Change, at: Time)
    requires Shows(v, w) && c.ContractPublished?
    ensures PublishedIn(v, c.contractKey, c.kind, c.assertion, at)
      == v[ContractKey(c.contractKey) := ContractRow(ContractAfter(ContractAt(w.contracts, c.contractKey), c, at))]
  {
    var x := ContractAt(w.contracts, c.contractKey);
    assert AssertionKids([]) == [];
    assert KindSetIn(v, c.contractKey, c.kind, at)[ContractKey(c.contractKey)]
        == ContractRow(x.(kind := if c.kind != "" then c.kind else x.kind, updatedAt := at));
    if c.assertion.Some? {
      PublishedShown(x.assertions, c.assertion.value, at);
    }
  }

  lemma ShowsWithdrawn(v: EntityView, w: World, c: Change, at: Time)
    requires Shows(v, w) && c.ContractWithdrawn?
    ensures WithdrawnIn(v, c.contractKey, c.sessionKey)
      == v[ContractKey(c.contractKey) := ContractRow(ContractAfter(ContractAt(w.contracts, c.contractKey), c, at))]
  {
    assert AssertionKids([]) == [];
    WithdrawnShown(ContractAt(w.contracts, c.contractKey).assertions, c.sessionKey);
  }

  lemma ContractShown(v: EntityView, w: World, c: Change, at: Time)
    requires Shows(v, w) && ConcernsContract(c)
    ensures AfterContract(v, c, at) == v[ContractKey(c.contractKey) := ContractRow(ContractAfter(ContractAt(w.contracts, c.contractKey), c, at))]
  {
    if c.ContractPublished? {
      ShowsPublished(v, w, c, at);
    } else {
      ShowsWithdrawn(v, w, c, at);
    }
  }

  lemma ShowsAfterContract(v: EntityView, w: World, ev: Event)
    requires Shows(v, w) && ConcernsContract(ev.change)
    ensures Shows(AfterContract(v, ev.change, ev.occurredAt), Folded(w, ev))
  {
    var c, at := ev.change, ev.occurredAt;
    FoldedContract(w, ev);
    ContractShown(v, w, c, at);
    ShowsContract(v, w, c.contractKey, ContractAfter(ContractAt(w.contracts, c.contractKey), c, at));
  }

  // ---------------------------------------------------------------- any event

  lemma ShowsAfter(v: EntityView, w: World, ev: Event)
    requires Shows(v, w)
    ensures Shows(ViewAfter(v, ev.change, ev.occurredAt), Folded(w, ev))
  {
    var c, at := ev.change, ev.occurredAt;
    if ConcernsMember(c) || c.AgentStatusChanged? {
      ShowsAfterMember(v, w, ev);
    } else if ConcernsContract(c) {
      ShowsAfterContract(v, w, ev);
    } else if ConcernsSession(c) {
      ShowsAfterSession(v, w, ev);
    } else if ConcernsIntent(c) {
      ShowsAfterIntent(v, w, ev);
    } else if ConcernsClaim(c) {
      ShowsAfterClaim(v, w, ev);
    } else if ConcernsConflict(c) {
      ShowsAfterConflict(v, w, ev);
    } else if c.DecisionRecorded? {
      ShowsAfterRecorded(v, w, ev);
    } else if c.DecisionSuperseded? {
      ShowsAfterEnded(v, w, ev);
    }
  }
}
