// The fold of one event into the entities, in place (mutate and replace in
// frontend/internal/state/store.go): each step on the rows, and what the rows
// hold after it.
module Folding {
  import opened Entities
  import opened Fold
  import opened Model
  import opened Tables

  // ---------------------------------------------------------------- reading and writing a row

  function SessionIn(v: EntityView, key: string): Session {
    SessionFrom(if SessionKey(key) in v then v[SessionKey(key)].own else SessionOwn(SessionAt(map[], key)), key)
  }

  function SessionFrom(own: Own, key: string): Session {
    if own.SessionOwn? then own.session else SessionAt(map[], key)
  }

  ghost function WithSession(v: EntityView, key: string, x: Session): EntityView {
    v[SessionKey(key) := Seen(SessionOwn(x), KidsAt(v, SessionKey(key)))]
  }

  method GetSession(f: EntityRows, key: string) returns (x: Session)
    requires f.Valid()
    ensures x == SessionIn(f.view, key)
  {
    var own := f.Get(SessionKey(key), SessionOwn(SessionAt(map[], key)));
    x := SessionFrom(own, key);
  }

  method SetSession(f: EntityRows, key: string, x: Session)
    requires f.Valid()
    modifies f, f.table.Repr
    ensures f.Valid() && fresh(f.Repr - old(f.Repr)) && PointersKept(old(f.table.view), f.table.view)
    ensures f.view == WithSession(old(f.view), key, x)
  {
    f.Set(SessionKey(key), SessionOwn(x));
  }

  function IntentIn(v: EntityView, key: string): Intent {
    IntentFrom(if IntentKey(key) in v then v[IntentKey(key)].own else IntentOwn(IntentAt(map[], key)), key)
  }

  function IntentFrom(own: Own, key: string): Intent {
    if own.IntentOwn? then own.intent else IntentAt(map[], key)
  }

  ghost function WithIntent(v: EntityView, key: string, x: Intent): EntityView {
    v[IntentKey(key) := Seen(IntentOwn(x), KidsAt(v, IntentKey(key)))]
  }

  method GetIntent(f: EntityRows, key: string) returns (x: Intent)
    requires f.Valid()
    ensures x == IntentIn(f.view, key)
  {
    var own := f.Get(IntentKey(key), IntentOwn(IntentAt(map[], key)));
    x := IntentFrom(own, key);
  }

  method SetIntent(f: EntityRows, key: string, x: Intent)
    requires f.Valid()
    modifies f, f.table.Repr
    ensures f.Valid() && fresh(f.Repr - old(f.Repr)) && PointersKept(old(f.table.view), f.table.view)
    ensures f.view == WithIntent(old(f.view), key, x)
  {
    f.Set(IntentKey(key), IntentOwn(x));
  }

  function ClaimIn(v: EntityView, key: string): Claim {
    ClaimFrom(if ClaimKey(key) in v then v[ClaimKey(key)].own else ClaimOwn(ClaimAt(map[], key)), key)
  }

  function ClaimFrom(own: Own, key: string): Claim {
    if own.ClaimOwn? then own.claim else ClaimAt(map[], key)
  }

  ghost function WithClaim(v: EntityView, key: string, x: Claim): EntityView {
    v[ClaimKey(key) := Seen(ClaimOwn(x), KidsAt(v, ClaimKey(key)))]
  }

  method GetClaim(f: EntityRows, key: string) returns (x: Claim)
    requires f.Valid()
    ensures x == ClaimIn(f.view, key)
  {
    var own := f.Get(ClaimKey(key), ClaimOwn(ClaimAt(map[], key)));
    x := ClaimFrom(own, key);
  }

  method SetClaim(f: EntityRows, key: string, x: Claim)
    requires f.Valid()
    modifies f, f.table.Repr
    ensures f.Valid() && fresh(f.Repr - old(f.Repr)) && PointersKept(old(f.table.view), f.table.view)
    ensures f.view == WithClaim(old(f.view), key, x)
  {
    f.Set(ClaimKey(key), ClaimOwn(x));
  }

  function DecisionIn(v: EntityView, key: string): Decision {
    DecisionFrom(if DecisionKey(key) in v then v[DecisionKey(key)].own else DecisionOwn(DecisionAt(map[], key)), key)
  }

  function DecisionFrom(own: Own, key: string): Decision {
    if own.DecisionOwn? then own.decision else DecisionAt(map[], key)
  }

  ghost function WithDecision(v: EntityView, key: string, x: Decision): EntityView {
    v[DecisionKey(key) := Seen(DecisionOwn(x), KidsAt(v, DecisionKey(key)))]
  }

  method GetDecision(f: EntityRows, key: string) returns (x: Decision)
    requires f.Valid()
    ensures x == DecisionIn(f.view, key)
  {
    var own := f.Get(DecisionKey(key), DecisionOwn(DecisionAt(map[], key)));
    x := DecisionFrom(own, key);
  }

  method SetDecision(f: EntityRows, key: string, x: Decision)
    requires f.Valid()
    modifies f, f.table.Repr
    ensures f.Valid() && fresh(f.Repr - old(f.Repr)) && PointersKept(old(f.table.view), f.table.view)
    ensures f.view == WithDecision(old(f.view), key, x)
  {
    f.Set(DecisionKey(key), DecisionOwn(x));
  }

  function ConflictIn(v: EntityView, key: string): Conflict {
    ConflictFrom(if ConflictKey(key) in v then v[ConflictKey(key)].own else ConflictOwn(ConflictAt(map[], key)), key)
  }

  function ConflictFrom(own: Own, key: string): Conflict {
    if own.ConflictOwn? then own.conflict else ConflictAt(map[], key)
  }

  ghost function WithConflict(v: EntityView, key: string, x: Conflict): EntityView {
    v[ConflictKey(key) := Seen(ConflictOwn(x), KidsAt(v, ConflictKey(key)))]
  }

  method GetConflict(f: EntityRows, key: string) returns (x: Conflict)
    requires f.Valid()
    ensures x == ConflictIn(f.view, key)
  {
    var own := f.Get(ConflictKey(key), ConflictOwn(ConflictAt(map[], key)));
    x := ConflictFrom(own, key);
  }

  method SetConflict(f: EntityRows, key: string, x: Conflict)
    requires f.Valid()
    modifies f, f.table.Repr
    ensures f.Valid() && fresh(f.Repr - old(f.Repr)) && PointersKept(old(f.table.view), f.table.view)
    ensures f.view == WithConflict(old(f.view), key, x)
  {
    f.Set(ConflictKey(key), ConflictOwn(x));
  }

  // ---------------------------------------------------------------- sessions

  method SessionAfterEvent(s0: Session, c: Change, at: Time) returns (s: Session)
    requires ConcernsSession(c)
    ensures s == SessionAfter(s0, c, at)
  {
    s := s0;
    match c {
      case SessionStarted(_, member, agent, parent, line) =>
        s := s.(memberKey := member, agentKey := agent);
        s := s.(parentKey := parent);
        s := s.(statusLine := OrDefault(line, "starting up"));
        s := s.(status := LIVE);
        s := s.(startedAt := at, lastHeartbeatAt := at);
      case StatusLineUpdated(_, line) =>
        s := s.(statusLine := line, lastHeartbeatAt := at);
        s := s.(status := LIVE);
      case Heartbeat(_) =>
        s := s.(lastHeartbeatAt := at);
        if s.status == STALE {
          s := s.(status := LIVE);
        }
      case SessionStalled(_) =>
        s := s.(status := STALE);
      case SessionEnded(_, status, line) =>
        s := s.(status := OrDefault(status, ENDED));
        s := s.(endedAt := at);
        s := s.(statusLine := OrDefault(line, "finished"));
    }
  }

  ghost function SessionChanged(v: EntityView, c: Change, at: Time): EntityView
    requires ConcernsSession(c)
  {
    WithSession(v, c.sessionKey, SessionAfter(SessionIn(v, c.sessionKey), c, at))
  }

  method MutateSession(f: EntityRows, c: Change, at: Time)
    requires f.Valid() && ConcernsSession(c)
    modifies f, f.table.Repr
    ensures f.Valid() && fresh(f.Repr - old(f.Repr)) && PointersKept(old(f.table.view), f.table.view)
    ensures f.view == SessionChanged(old(f.view), c, at)
  {
    var s := GetSession(f, c.sessionKey);
    s := SessionAfterEvent(s, c, at);
    SetSession(f, c.sessionKey, s);
  }

  // The status line an intent event brings is its session's.
  method MutateStatusLine(f: EntityRows, key: string, line: string)
    requires f.Valid()
    modifies f, f.table.Repr
    ensures f.Valid() && fresh(f.Repr - old(f.Repr)) && PointersKept(old(f.table.view), f.table.view)
    ensures f.view == WithSession(old(f.view), key, SessionIn(old(f.view), key).(statusLine := line))
  {
    var s := GetSession(f, key);
    SetSession(f, key, s.(statusLine := line));
  }

  // ---------------------------------------------------------------- intents

  method IntentAfterEvent(i0: Intent, c: Change, at: Time) returns (i: Intent)
    requires ConcernsIntent(c)
    ensures i == IntentAfter(i0, c, at)
  {
    i := i0;
    match c {
      case IntentDeclared(_, session, summary, kind, status, line) =>
        i := i.(sessionKey := session, summary := summary, kind := OrDefault(kind, "change"));
        i := i.(status := OrDefault(status, DECLARED));
        i := i.(updatedAt := at);
        i := i.(revision := i.revision + 1);
      case IntentUpdated(_, summary, status, line, completed) =>
        if summary != "" {
          i := i.(summary := summary);
          i := i.(revision := i.revision + 1);
        }
        if status != "" {
          i := i.(status := status);
        } else if completed {
          i := i.(status := DONE);
        }
        i := i.(updatedAt := at);
    }
  }

  ghost function IntentChanged(v: EntityView, c: Change, at: Time): EntityView
    requires ConcernsIntent(c)
  {
    WithIntent(v, c.intentKey, IntentAfter(IntentIn(v, c.intentKey), c, at))
  }

  method MutateIntent(f: EntityRows, c: Change, at: Time) returns (session: string)
    requires f.Valid() && ConcernsIntent(c)
    modifies f, f.table.Repr
    ensures f.Valid() && fresh(f.Repr - old(f.Repr)) && PointersKept(old(f.table.view), f.table.view)
    ensures f.view == IntentChanged(old(f.view), c, at)
    ensures session == IntentAfter(IntentIn(old(f.view), c.intentKey), c, at).sessionKey
  {
    var i := GetIntent(f, c.intentKey);
    i := IntentAfterEvent(i, c, at);
    SetIntent(f, c.intentKey, i);
    session := i.sessionKey;
  }

  // ---------------------------------------------------------------- claims

  method ClaimAfterEvent(x0: Claim, c: Change, at: Time) returns (x: Claim)
    requires ConcernsClaim(c)
    ensures x == ClaimAfter(x0, c, at)
  {
    x := x0;
    match c {
      case ClaimCreated(_, session, intent, mode, paths, ttl) =>
        x := x.(sessionKey := session, intentKey := intent);
        x := x.(mode := OrDefault(mode, "write"));
        x := x.(paths := paths);
        x := x.(status := ACTIVE);
        var seconds := ttl;
        if seconds == 0 {
          seconds := 1800;
        }
        x := x.(expiresAt := at + seconds);
      case ClaimReleased(_) =>
        x := x.(status := RELEASED);
      case ClaimExpired(_) =>
        x := x.(status := EXPIRED);
    }
  }

  ghost function ClaimChanged(v: EntityView, c: Change, at: Time): EntityView
    requires ConcernsClaim(c)
  {
    WithClaim(v, c.claimKey, ClaimAfter(ClaimIn(v, c.claimKey), c, at))
  }

  method MutateClaim(f: EntityRows, c: Change, at: Time)
    requires f.Valid() && ConcernsClaim(c)
    modifies f, f.table.Repr
    ensures f.Valid() && fresh(f.Repr - old(f.Repr)) && PointersKept(old(f.table.view), f.table.view)
    ensures f.view == ClaimChanged(old(f.view), c, at)
  {
    var x := GetClaim(f, c.claimKey);
    x := ClaimAfterEvent(x, c, at);
    SetClaim(f, c.claimKey, x);
  }

  // ---------------------------------------------------------------- decisions

  method DecisionAfterEvent(d0: Decision, existed: bool, c: Change, at: Time) returns (d: Decision)
    requires c.DecisionRecorded?
    ensures d == Recorded(d0, existed, c, at)
  {
    d := d0;
    if c.revision > 0 {
      d := d.(revision := c.revision);
    } else if !existed || d.revision == 0 {
      d := d.(revision := 1);
    } else if c.statement != d.statement {
      d := d.(revision := d.revision + 1);
    }
    d := d.(title := OrDefault(c.title, d.title), statement := c.statement);
    d := d.(status := DecisionFoldStatus(c.status));
    d := d.(supersedes := c.supersedes);
    d := d.(endedAt := ZERO_TIME, supersededBy := "");
    if d.recordedAt == ZERO_TIME {
      d := d.(recordedAt := at);
    }
    d := d.(updatedAt := at);
  }

  ghost function DecisionSet(v: EntityView, c: Change, at: Time): EntityView
    requires c.DecisionRecorded?
  {
    WithDecision(v, c.decisionKey, Recorded(DecisionIn(v, c.decisionKey), DecisionKey(c.decisionKey) in v, c, at))
  }

  // The decision another one names as superseded, if it was in force.
  ghost function DecisionOvertaken(v: EntityView, previous: string, successor: string, at: Time): EntityView {
    if previous != "" && DecisionKey(previous) in v && DecisionIn(v, previous).Active() then
      WithDecision(v, previous,
        DecisionIn(v, previous).(status := SUPERSEDED, supersededBy := successor, endedAt := at, updatedAt := at))
    else v
  }

  method RecordDecision(f: EntityRows, c: Change, at: Time) returns (key: string)
    requires f.Valid() && c.DecisionRecorded?
    modifies f, f.table.Repr
    ensures f.Valid() && fresh(f.Repr - old(f.Repr)) && PointersKept(old(f.table.view), f.table.view)
    ensures f.view == DecisionSet(old(f.view), c, at) && key == DecisionIn(old(f.view), c.decisionKey).key
  {
    var existed := DecisionKey(c.decisionKey) in f.table.rows;
    var d := GetDecision(f, c.decisionKey);
    d := DecisionAfterEvent(d, existed, c, at);
    SetDecision(f, c.decisionKey, d);
    key := d.key;
  }

  method OvertakeDecision(f: EntityRows, previous: string, successor: string, at: Time)
    requires f.Valid()
    modifies f, f.table.Repr
    ensures f.Valid() && fresh(f.Repr - old(f.Repr)) && PointersKept(old(f.table.view), f.table.view)
    ensures f.view == DecisionOvertaken(old(f.view), previous, successor, at)
  {
    if previous != "" && DecisionKey(previous) in f.table.rows {
      var p := GetDecision(f, previous);
      if p.Active() {
        SetDecision(f, previous, p.(status := SUPERSEDED, supersededBy := successor, endedAt := at, updatedAt := at));
      }
    }
  }

  method EndDecision(f: EntityRows, key: string, status: string, successor: string, at: Time)
    requires f.Valid()
    modifies f, f.table.Repr
    ensures f.Valid() && fresh(f.Repr - old(f.Repr)) && PointersKept(old(f.table.view), f.table.view)
    ensures f.view == WithDecision(old(f.view), key, Superseded(DecisionIn(old(f.view), key), status, successor, at))
  {
    var d := GetDecision(f, key);
    d := d.(status := status, endedAt := at, updatedAt := at);
    if successor != "" {
      d := d.(supersededBy := successor);
    }
    SetDecision(f, key, d);
  }

  // ---------------------------------------------------------------- conflicts

  method ConflictAfterEvent(x0: Conflict, c: Change, at: Time) returns (x: Conflict)
    requires ConcernsConflict(c)
    ensures x == ConflictAfter(x0, c, at)
  {
    x := x0;
    match c {
      case ConflictRaised(_, kind, severity, status, decision) =>
        x := x.(kind := kind, severity := OrDefault(severity, "medium"));
        x := x.(status := OrDefault(status, OPEN));
        x := x.(decisionKey := decision);
        if x.raisedAt == ZERO_TIME {
          x := x.(raisedAt := at);
        }
        x := x.(occurrences := x.occurrences + 1);
      case ConflictEscalated(_, severity) =>
        if x.kind == "decision_contradiction" && x.escalatedAt == ZERO_TIME {
          x := x.(escalatedAt := at);
        }
        x := x.(severity := OrDefault(severity, x.severity));
        x := x.(occurrences := x.occurrences + 1);
      case ConflictAcknowledged(_) =>
        x := x.(status := ACKNOWLEDGED);
      case ConflictResolved(_, status) =>
        x := x.(status := OrDefault(status, RESOLVED));
        x := x.(resolvedAt := at);
    }
  }

  ghost function ConflictChanged(v: EntityView, c: Change, at: Time): EntityView
    requires ConcernsConflict(c)
  {
    WithConflict(v, c.conflictKey, ConflictAfter(ConflictIn(v, c.conflictKey), c, at))
  }

  method MutateConflict(f: EntityRows, c: Change, at: Time)
    requires f.Valid() && ConcernsConflict(c)
    modifies f, f.table.Repr
    ensures f.Valid() && fresh(f.Repr - old(f.Repr)) && PointersKept(old(f.table.view), f.table.view)
    ensures f.view == ConflictChanged(old(f.view), c, at)
  {
    var x := GetConflict(f, c.conflictKey);
    x := ConflictAfterEvent(x, c, at);
    SetConflict(f, c.conflictKey, x);
  }

  // ---------------------------------------------------------------- what a session that ends lets go

  function Held(session: string): (RowKey, Own) -> bool {
    (r: RowKey, own: Own) => r.ClaimKey? && own.ClaimOwn? && own.claim.sessionKey == session && own.claim.status == ACTIVE
  }

  function Releasing(own: Own): Own {
    if own.ClaimOwn? then ClaimOwn(own.claim.(status := RELEASED)) else own
  }

  ghost function ReleasedIn(v: EntityView, session: string): EntityView {
    ChangedRows(v, {}, Held(session), Releasing)
  }

  method ReleaseClaims(f: EntityRows, session: string)
    requires f.Valid()
    modifies f, f.table.Repr
    ensures f.Valid() && f.Repr == old(f.Repr) && PointersKept(old(f.table.view), f.table.view)
    ensures f.view == ReleasedIn(old(f.view), session)
  {
    f.WriteRows(Held(session), Releasing);
  }

  function Pending(session: string): (RowKey, Own) -> bool {
    (r: RowKey, own: Own) => r.IntentKey? && own.IntentOwn? && own.intent.sessionKey == session && own.intent.Open()
  }

  function Closing(at: Time): Own -> Own {
    (own: Own) => if own.IntentOwn? then IntentOwn(own.intent.(status := DONE, updatedAt := at)) else own
  }

  ghost function ClosedIn(v: EntityView, session: string, at: Time): EntityView {
    ChangedRows(v, {}, Pending(session), Closing(at))
  }

  method CloseIntents(f: EntityRows, session: string, at: Time)
    requires f.Valid()
    modifies f, f.table.Repr
    ensures f.Valid() && f.Repr == old(f.Repr) && PointersKept(old(f.table.view), f.table.view)
    ensures f.view == ClosedIn(old(f.view), session, at)
  {
    f.WriteRows(Pending(session), Closing(at));
  }

  // ---------------------------------------------------------------- members

  function BlankMember(key: string): Own { MemberOwn(key, key, "", ZERO_TIME) }

  function MemberFrom(own: Own, key: string): (m: Own)
    ensures m.MemberOwn?
  {
    if own.MemberOwn? then own else BlankMember(key)
  }

  ghost function MemberMade(v: EntityView, key: string): EntityView {
    Made(v, MemberKey(key), BlankMember(key))
  }

  ghost function JoinedIn(v: EntityView, key: string, name: string, role: string, at: Time): EntityView {
    var own := if MemberKey(key) in v then v[MemberKey(key)].own else BlankMember(key);
    v[MemberKey(key) := Seen(MemberFrom(own, key).(displayName := name, role := role, lastSeenAt := at), KidsAt(v, MemberKey(key)))]
  }

  method Join(f: EntityRows, key: string, name: string, role: string, at: Time)
    requires f.Valid()
    modifies f, f.table.Repr
    ensures f.Valid() && fresh(f.Repr - old(f.Repr)) && PointersKept(old(f.table.view), f.table.view)
    ensures f.view == JoinedIn(old(f.view), key, name, role, at)
  {
    var own := f.Get(MemberKey(key), BlankMember(key));
    var m := MemberFrom(own, key);
    m := m.(displayName := name);
    m := m.(role := role);
    m := m.(lastSeenAt := at);
    f.Set(MemberKey(key), m);
  }

  predicate IsAgent(c: Child, key: string) { c.AgentChild? && c.agent.key == key }

  // The first agent with a key is renamed; without one a new agent is added.
  function RegisteredKids(kids: seq<Child>, a: Agent): seq<Child> {
    if kids == [] then [AgentChild(a)]
    else if IsAgent(kids[0], a.key) then
      [AgentChild(kids[0].agent.(title := a.title, status := a.status, lastSeenAt := a.lastSeenAt))] + kids[1..]
    else [kids[0]] + RegisteredKids(kids[1..], a)
  }

  function RestatedKids(kids: seq<Child>, key: string, status: string, at: Time): seq<Child> {
    if kids == [] then []
    else if IsAgent(kids[0], key) then [AgentChild(kids[0].agent.(status := status, lastSeenAt := at))] + kids[1..]
    else [kids[0]] + RestatedKids(kids[1..], key, status, at)
  }

  ghost predicate FirstAgent(kids: seq<Child>, key: string, i: int) {
    && -1 <= i < |kids| && (i >= 0 ==> IsAgent(kids[i], key))
    && forall j :: 0 <= j < (if i < 0 then |kids| else i) ==> !IsAgent(kids[j], key)
  }

  lemma {:induction false} RegisteredAt(kids: seq<Child>, a: Agent, i: int)
    requires FirstAgent(kids, a.key, i)
    ensures RegisteredKids(kids, a) ==
      if i < 0 then kids + [AgentChild(a)]
      else kids[i := AgentChild(kids[i].agent.(title := a.title, status := a.status, lastSeenAt := a.lastSeenAt))]
  {
    if kids != [] && !IsAgent(kids[0], a.key) {
      RegisteredAt(kids[1..], a, if i < 0 then i else i - 1);
    }
  }

  lemma {:induction false} RestatedAt(kids: seq<Child>, key: string, status: string, at: Time, i: int)
    requires FirstAgent(kids, key, i)
    ensures RestatedKids(kids, key, status, at) ==
      if i < 0 then kids else kids[i := AgentChild(kids[i].agent.(status := status, lastSeenAt := at))]
  {
    if kids != [] && !IsAgent(kids[0], key) {
      RestatedAt(kids[1..], key, status, at, if i < 0 then i else i - 1);
    }
  }

  // Looking through the agents a row points at.
  method FindAgent(f: EntityRows, r: RowKey, key: string) returns (i: int)
    requires f.Valid() && r in f.view
    ensures FirstAgent(f.view[r].kids, key, i)
  {
    var n := f.Count(r);
    i := 0;
    while i < n
      invariant 0 <= i <= n && forall j :: 0 <= j < i ==> !IsAgent(f.view[r].kids[j], key)
    {
      var c := f.Kid(r, i);
      if IsAgent(c, key) {
        return;
      }
      i := i + 1;
    }
    i := -1;
  }

  method RegisterAgent(f: EntityRows, r: RowKey, agent: Agent)
    requires f.Valid() && r in f.view
    modifies f.Repr
    ensures f.Valid() && fresh(f.Repr - old(f.Repr)) && PointersKept(old(f.table.view), f.table.view)
    ensures f.view == WithKids(old(f.view), r, RegisteredKids(old(f.view)[r].kids, agent))
  {
    var i := FindAgent(f, r, agent.key);
    RegisteredAt(f.view[r].kids, agent, i);
    if i >= 0 {
      var c := f.Kid(r, i);
      f.WriteKid(r, i, AgentChild(c.agent.(title := agent.title, status := agent.status, lastSeenAt := agent.lastSeenAt)));
    } else {
      f.Append(r, AgentChild(agent));
    }
  }

  ghost function RegisteredIn(v: EntityView, key: string, agentKey: string, title: string, status: string, at: Time): EntityView {
    var w, r := MemberMade(v, key), MemberKey(key);
    WithKids(w, r, RegisteredKids(w[r].kids, Agent(agentKey, MemberFrom(w[r].own, key).key, title, status, at)))
  }

  method Register(f: EntityRows, key: string, agentKey: string, title: string, status: string, at: Time)
    requires f.Valid()
    modifies f.Repr
    ensures f.Valid() && fresh(f.Repr - old(f.Repr)) && PointersKept(old(f.table.view), f.table.view)
    ensures f.view == RegisteredIn(old(f.view), key, agentKey, title, status, at)
  {
    ghost var v := f.table.view;
    f.Make(MemberKey(key), BlankMember(key));
    ghost var v1 := f.table.view;
    var own := f.Own(MemberKey(key));
    RegisterAgent(f, MemberKey(key), Agent(agentKey, MemberFrom(own, key).key, title, status, at));
    KeptTwice(v, v1, f.table.view);
  }

  ghost function RestatedIn(v: EntityView, key: string, agentKey: string, status: string, at: Time): EntityView {
    var r := MemberKey(key);
    if r in v then WithKids(v, r, RestatedKids(v[r].kids, agentKey, status, at)) else v
  }

  // An agent found under a member has its status changed.
  method Restate(f: EntityRows, key: string, agentKey: string, status: string, at: Time)
    requires f.Valid()
    modifies f.Repr
    ensures f.Valid() && fresh(f.Repr - old(f.Repr)) && PointersKept(old(f.table.view), f.table.view)
    ensures f.view == RestatedIn(old(f.view), key, agentKey, status, at)
  {
    var r := MemberKey(key);
    if r !in f.table.rows {
      return;
    }
    var i := FindAgent(f, r, agentKey);
    RestatedAt(f.view[r].kids, agentKey, status, at, i);
    if i >= 0 {
      var c := f.Kid(r, i);
      f.WriteKid(r, i, AgentChild(c.agent.(status := status, lastSeenAt := at)));
    }
  }

  // ---------------------------------------------------------------- contracts

  function BlankContract(key: string): Own { ContractOwn(key, "http", ZERO_TIME) }

  function ContractFrom(own: Own, key: string): (c: Own)
    ensures c.ContractOwn?
  {
    if own.ContractOwn? then own else BlankContract(key)
  }

  function Marked(status: string): Child -> Child {
    (c: Child) => if c.AssertionChild? then AssertionChild(c.assertion.(status := status)) else c
  }

  function OnSide(session: string, role: string): Child -> bool {
    (c: Child) => c.AssertionChild? && c.assertion.sessionKey == session && c.assertion.role == role && c.assertion.status == ACTIVE
  }

  function OfSession(session: string): Child -> bool {
    (c: Child) => c.AssertionChild? && c.assertion.sessionKey == session && c.assertion.status == ACTIVE
  }

  // A session publishing again takes back what it asserted on that side.
  ghost function PublishedKids(kids: seq<Child>, a: Assertion, at: Time): seq<Child> {
    ChangedWhere(kids, |kids|, OnSide(a.sessionKey, a.role), Marked(SUPERSEDED))
    + [AssertionChild(a.(status := ACTIVE, updatedAt := at))]
  }

  method PublishAssertion(f: EntityRows, r: RowKey, a: Assertion, at: Time)
    requires f.Valid() && r in f.view
    modifies f.Repr
    ensures f.Valid() && fresh(f.Repr - old(f.Repr)) && PointersKept(old(f.table.view), f.table.view)
    ensures f.view == WithKids(old(f.view), r, PublishedKids(old(f.view)[r].kids, a, at))
  {
    PublishedView(f.view, r, a, at);
    f.WriteWhere(r, OnSide(a.sessionKey, a.role), Marked(SUPERSEDED));
    f.Append(r, AssertionChild(a.(status := ACTIVE, updatedAt := at)));
  }

  lemma PublishedView(v: EntityView, r: RowKey, a: Assertion, at: Time)
    requires r in v
    ensures Grown(WithKids(v, r, ChangedWhere(v[r].kids, |v[r].kids|, OnSide(a.sessionKey, a.role), Marked(SUPERSEDED))), r,
                  [AssertionChild(a.(status := ACTIVE, updatedAt := at))])
         == WithKids(v, r, PublishedKids(v[r].kids, a, at))
  {
  }

  function WithKind(own: Own, key: string, kind: string, at: Time): Own {
    var c := ContractFrom(own, key);
    c.(kind := if kind != "" then kind else c.kind, updatedAt := at)
  }

  ghost function KindSetIn(v: EntityView, key: string, kind: string, at: Time): (w: EntityView)
    ensures ContractKey(key) in w
  {
    var r := ContractKey(key);
    v[r := Seen(WithKind(if r in v then v[r].own else BlankContract(key), key, kind, at), KidsAt(v, r))]
  }

  method SetKind(f: EntityRows, key: string, kind: string, at: Time)
    requires f.Valid()
    modifies f, f.table.Repr
    ensures f.Valid() && fresh(f.Repr - old(f.Repr)) && PointersKept(old(f.table.view), f.table.view)
    ensures f.view == KindSetIn(old(f.view), key, kind, at)
  {
    var own := f.Get(ContractKey(key), BlankContract(key));
    var c := ContractFrom(own, key);
    if kind != "" {
      c := c.(kind := kind);
    }
    c := c.(updatedAt := at);
    f.Set(ContractKey(key), c);
  }

  ghost function PublishedIn(v: EntityView, key: string, kind: string, assertion: Option<Assertion>, at: Time): EntityView {
    var w, r := KindSetIn(v, key, kind, at), ContractKey(key);
    if assertion.None? then w else WithKids(w, r, PublishedKids(w[r].kids, assertion.value, at))
  }

  method Publish(f: EntityRows, key: string, kind: string, assertion: Option<Assertion>, at: Time)
    requires f.Valid()
    modifies f.Repr
    ensures f.Valid() && fresh(f.Repr - old(f.Repr)) && PointersKept(old(f.table.view), f.table.view)
    ensures f.view == PublishedIn(old(f.view), key, kind, assertion, at)
  {
    ghost var v := f.table.view;
    SetKind(f, key, kind, at);
    if assertion.Some? {
      ghost var v1 := f.table.view;
      PublishAssertion(f, ContractKey(key), assertion.value, at);
      KeptTwice(v, v1, f.table.view);
    }
  }

  ghost function WithdrawnIn(v: EntityView, key: string, session: string): EntityView {
    var w, r := Made(v, ContractKey(key), BlankContract(key)), ContractKey(key);
    WithKids(w, r, ChangedWhere(w[r].kids, |w[r].kids|, OfSession(session), Marked(WITHDRAWN)))
  }

  method Withdraw(f: EntityRows, key: string, session: string)
    requires f.Valid()
    modifies f.Repr
    ensures f.Valid() && fresh(f.Repr - old(f.Repr)) && PointersKept(old(f.table.view), f.table.view)
    ensures f.view == WithdrawnIn(old(f.view), key, session)
  {
    f.Make(ContractKey(key), BlankContract(key));
    f.WriteWhere(ContractKey(key), OfSession(session), Marked(WITHDRAWN));
  }

  // ---------------------------------------------------------------- one event

  ghost function AfterSession(v: EntityView, c: Change, at: Time): EntityView
    requires ConcernsSession(c)
  {
    var w := SessionChanged(v, c, at);
    if c.SessionEnded? then ClosedIn(ReleasedIn(w, SessionIn(w, c.sessionKey).key), SessionIn(w, c.sessionKey).key, at) else w
  }

  method FoldSession(f: EntityRows, c: Change, at: Time)
    requires f.Valid() && ConcernsSession(c)
    modifies f.Repr
    ensures f.Valid() && fresh(f.Repr - old(f.Repr)) && PointersKept(old(f.table.view), f.table.view)
    ensures f.view == AfterSession(old(f.view), c, at)
  {
    ghost var v := f.table.view;
    MutateSession(f, c, at);
    if c.SessionEnded? {
      ghost var v1 := f.table.view;
      var s := GetSession(f, c.sessionKey);
      ReleaseClaims(f, s.key);
      ghost var v2 := f.table.view;
      KeptTwice(v, v1, v2);
      CloseIntents(f, s.key, at);
      KeptTwice(v, v2, f.table.view);
    }
  }

  ghost function AfterIntent(v: EntityView, c: Change, at: Time): EntityView
    requires ConcernsIntent(c)
  {
    var w, session := IntentChanged(v, c, at), IntentAfter(IntentIn(v, c.intentKey), c, at).sessionKey;
    if c.statusLine != "" && (c.IntentDeclared? || session != "") then
      WithSession(w, session, SessionIn(w, session).(statusLine := c.statusLine))
    else w
  }

  method FoldIntent(f: EntityRows, c: Change, at: Time)
    requires f.Valid() && ConcernsIntent(c)
    modifies f.Repr
    ensures f.Valid() && fresh(f.Repr - old(f.Repr)) && PointersKept(old(f.table.view), f.table.view)
    ensures f.view == AfterIntent(old(f.view), c, at)
  {
    ghost var v := f.table.view;
    var session := MutateIntent(f, c, at);
    if c.statusLine != "" && (c.IntentDeclared? || session != "") {
      ghost var v1 := f.table.view;
      MutateStatusLine(f, session, c.statusLine);
      KeptTwice(v, v1, f.table.view);
    }
  }

  ghost function AfterDecision(v: EntityView, c: Change, at: Time): EntityView {
    if c.DecisionRecorded? then
      var w := DecisionSet(v, c, at);
      DecisionOvertaken(w, c.supersedes, DecisionIn(v, c.decisionKey).key, at)
    else if c.DecisionSuperseded? && (c.newStatus == SUPERSEDED || c.newStatus == REVOKED) then
      WithDecision(v, c.decisionKey, Superseded(DecisionIn(v, c.decisionKey), c.newStatus, c.supersededBy, at))
    else v
  }

  method FoldDecision(f: EntityRows, c: Change, at: Time)
    requires f.Valid()
    modifies f.Repr
    ensures f.Valid() && fresh(f.Repr - old(f.Repr)) && PointersKept(old(f.table.view), f.table.view)
    ensures f.view == AfterDecision(old(f.view), c, at)
  {
    if c.DecisionRecorded? {
      ghost var v := f.table.view;
      var key := RecordDecision(f, c, at);
      ghost var v1 := f.table.view;
      OvertakeDecision(f, c.supersedes, key, at);
      KeptTwice(v, v1, f.table.view);
    } else if c.DecisionSuperseded? && (c.newStatus == SUPERSEDED || c.newStatus == REVOKED) {
      EndDecision(f, c.decisionKey, c.newStatus, c.supersededBy, at);
    }
  }

  ghost function AfterMember(v: EntityView, c: Change, at: Time): EntityView {
    match c
    case MemberJoined(key, name, role) => JoinedIn(v, key, name, role, at)
    case AgentRegistered(key, agent, title, status) => RegisteredIn(v, key, agent, title, OrDefault(status, ACTIVE), at)
    case AgentStatusChanged(key, agent, status) => RestatedIn(v, key, agent, status, at)
    case _ => v
  }

  method FoldMember(f: EntityRows, c: Change, at: Time)
    requires f.Valid()
    modifies f.Repr
    ensures f.Valid() && fresh(f.Repr - old(f.Repr)) && PointersKept(old(f.table.view), f.table.view)
    ensures f.view == AfterMember(old(f.view), c, at)
  {
    match c {
      case MemberJoined(key, name, role) => Join(f, key, name, role, at);
      case AgentRegistered(key, agent, title, status) => Register(f, key, agent, title, OrDefault(status, ACTIVE), at);
      case AgentStatusChanged(key, agent, status) => Restate(f, key, agent, status, at);
      case _ =>
    }
  }

  ghost function AfterContract(v: EntityView, c: Change, at: Time): EntityView
    requires ConcernsContract(c)
  {
    match c
    case ContractPublished(key, kind, assertion) => PublishedIn(v, key, kind, assertion, at)
    case ContractWithdrawn(key, session) => WithdrawnIn(v, key, session)
  }

  method FoldContract(f: EntityRows, c: Change, at: Time)
    requires f.Valid() && ConcernsContract(c)
    modifies f.Repr
    ensures f.Valid() && fresh(f.Repr - old(f.Repr)) && PointersKept(old(f.table.view), f.table.view)
    ensures f.view == AfterContract(old(f.view), c, at)
  {
    match c {
      case ContractPublished(key, kind, assertion) => Publish(f, key, kind, assertion, at);
      case ContractWithdrawn(key, session) => Withdraw(f, key, session);
    }
  }

  ghost function ViewAfter(v: EntityView, c: Change, at: Time): EntityView {
    if ConcernsMember(c) || c.AgentStatusChanged? then AfterMember(v, c, at)
    else if ConcernsContract(c) then AfterContract(v, c, at)
    else if ConcernsSession(c) then AfterSession(v, c, at)
    else if ConcernsIntent(c) then AfterIntent(v, c, at)
    else if ConcernsClaim(c) then ClaimChanged(v, c, at)
    else if ConcernsConflict(c) then ConflictChanged(v, c, at)
    else AfterDecision(v, c, at)
  }

  method FoldEvent(f: EntityRows, c: Change, at: Time)
    requires f.Valid()
    modifies f.Repr
    ensures f.Valid() && fresh(f.Repr - old(f.Repr)) && PointersKept(old(f.table.view), f.table.view)
    ensures f.view == ViewAfter(old(f.view), c, at)
  {
    if ConcernsMember(c) || c.AgentStatusChanged? {
      FoldMember(f, c, at);
    } else if ConcernsContract(c) {
      FoldContract(f, c, at);
    } else if ConcernsSession(c) {
      FoldSession(f, c, at);
    } else if ConcernsIntent(c) {
      FoldIntent(f, c, at);
    } else if ConcernsClaim(c) {
      MutateClaim(f, c, at);
    } else if ConcernsConflict(c) {
      MutateConflict(f, c, at);
    } else {
      FoldDecision(f, c, at);
    }
  }
}
