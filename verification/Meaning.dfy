// What events mean for the entities (the fold of
// frontend/internal/state/store.go): which changes put a row into each status,
// and what a whole history says of it.
module Meaning {
  import opened Fold
  import opened Model
  import opened StoreRuns

  lemma StatusesApart()
    ensures LIVE != STALE && ENDED != LIVE && ENDED != STALE
    ensures ACTIVE != RELEASED && ACTIVE != EXPIRED && ACTIVE != SUPERSEDED && ACTIVE != REVOKED
    ensures DECLARED != DONE && ACTIVE != DONE
  {
    assert LIVE[0] == 'l' && STALE[0] == 's' && ENDED[0] == 'e' && ACTIVE[0] == 'a' && RELEASED[0] == 'r';
    assert EXPIRED[0] == 'e' && SUPERSEDED[0] == 's' && REVOKED[0] == 'r';
    assert DECLARED[1] == 'e' && DONE[1] == 'o';
  }

  // ---------------------------------------------------------------- sessions, one event

  ghost predicate SessionIs(w: World, k: string, status: string) {
    k in w.sessions && w.sessions[k].status == status
  }

  // An intent event that sets this session's status line.
  predicate SetsLine(w: World, c: Change, k: string) {
    match c
    case IntentDeclared(_, session, _, _, _, line) => line != "" && session == k
    case IntentUpdated(intent, _, _, line, _) =>
      line != "" && k != "" && intent in w.intents && w.intents[intent].sessionKey == k
    case _ => false
  }

  // The statuses a session takes: a start or a status line makes it live, a
  // heartbeat too if it was stale or unheard of, a stall stale, an end ended or
  // what it says. An intent's status line makes a session unheard of live.
  lemma SessionStatus(w: World, ev: Event, k: string, status: string)
    ensures SessionIs(Folded(w, ev), k, status) <==>
      match ev.change
      case SessionStarted(key, _, _, _, _) => if key == k then status == LIVE else SessionIs(w, k, status)
      case StatusLineUpdated(key, _) => if key == k then status == LIVE else SessionIs(w, k, status)
      case Heartbeat(key) =>
        if key == k && (k !in w.sessions || SessionIs(w, k, STALE)) then status == LIVE else SessionIs(w, k, status)
      case SessionStalled(key) => if key == k then status == STALE else SessionIs(w, k, status)
      case SessionEnded(key, given, _) =>
        if key == k then status == (if Blank(given) then ENDED else given) else SessionIs(w, k, status)
      case c => if k !in w.sessions && SetsLine(w, c, k) then status == LIVE else SessionIs(w, k, status)
  {
    StatusesApart();
  }

  // ---------------------------------------------------------------- claims, one event

  ghost predicate ClaimIs(w: World, k: string, status: string) {
    k in w.claims && w.claims[k].status == status
  }

  // The session a session event is about, by its row's own key.
  function KeyOf(w: World, session: string): string {
    if session in w.sessions then w.sessions[session].key else session
  }

  // A claim is active from its making, released or expired as told, and released
  // when it was active and its session ends.
  lemma ClaimStatus(w: World, ev: Event, k: string, status: string)
    ensures ClaimIs(Folded(w, ev), k, status) <==>
      match ev.change
      case ClaimCreated(key, _, _, _, _, _) => if key == k then status == ACTIVE else ClaimIs(w, k, status)
      case ClaimReleased(key) => if key == k then status == RELEASED else ClaimIs(w, k, status)
      case ClaimExpired(key) => if key == k then status == EXPIRED else ClaimIs(w, k, status)
      case SessionEnded(session, _, _) =>
        if ClaimIs(w, k, ACTIVE) && w.claims[k].sessionKey == KeyOf(w, session) then status == RELEASED
        else ClaimIs(w, k, status)
      case _ => ClaimIs(w, k, status)
  {
  }

  // ---------------------------------------------------------------- intents, one event

  ghost predicate IntentIs(w: World, k: string, status: string) {
    k in w.intents && w.intents[k].status == status
  }

  // An intent is declared, or what its declaration says; an update gives it the
  // status it names, or done if it completes it; the end of its session makes it
  // done if it was declared or active.
  lemma IntentStatus(w: World, ev: Event, k: string, status: string)
    ensures IntentIs(Folded(w, ev), k, status) <==>
      match ev.change
      case IntentDeclared(key, _, _, _, given, _) =>
        if key == k then status == (if Blank(given) then DECLARED else given) else IntentIs(w, k, status)
      case IntentUpdated(key, _, given, _, completed) =>
        if key != k then IntentIs(w, k, status)
        else if given != "" then status == given
        else if completed then status == DONE
        else if k in w.intents then IntentIs(w, k, status)
        else status == DECLARED
      case SessionEnded(session, _, _) =>
        if (IntentIs(w, k, DECLARED) || IntentIs(w, k, ACTIVE)) && w.intents[k].sessionKey == KeyOf(w, session) then status == DONE
        else IntentIs(w, k, status)
      case _ => IntentIs(w, k, status)
  {
  }

  // ---------------------------------------------------------------- decisions, one event

  ghost predicate DecisionIs(w: World, k: string, status: string) {
    k in w.decisions && w.decisions[k].status == status
  }

  // The board's word for the status a decision is recorded with.
  predicate RecordsAs(given: string, status: string) {
    if given == "" || given == "accepted" then status == ACTIVE else status == given
  }

  // A decision is recorded in force or as told; one that another names as
  // superseded, or that names itself, is superseded if it was in force; an event
  // that ends it ends it as superseded or as revoked and not otherwise.
  lemma DecisionStatus(w: World, ev: Event, k: string, status: string)
    ensures DecisionIs(Folded(w, ev), k, status) <==>
      match ev.change
      case DecisionRecorded(key, _, _, given, _, supersedes) =>
        if key == k then
          if supersedes == k && k != "" && RecordsAs(given, ACTIVE) then status == SUPERSEDED else RecordsAs(given, status)
        else if supersedes == k && k != "" && DecisionIs(w, k, ACTIVE) then status == SUPERSEDED
        else DecisionIs(w, k, status)
      case DecisionSuperseded(key, given, _) =>
        if key == k && (given == SUPERSEDED || given == REVOKED) then status == given else DecisionIs(w, k, status)
      case _ => DecisionIs(w, k, status)
  {
  }

  // ---------------------------------------------------------------- conflicts, one event

  ghost predicate ConflictIs(w: World, k: string, status: string) {
    k in w.conflicts && w.conflicts[k].status == status
  }

  // A conflict is open when raised, or what it says; escalating one changes no
  // status but opens one unheard of.
  lemma ConflictStatus(w: World, ev: Event, k: string, status: string)
    ensures ConflictIs(Folded(w, ev), k, status) <==>
      match ev.change
      case ConflictRaised(key, _, _, given, _) =>
        if key == k then status == (if Blank(given) then OPEN else given) else ConflictIs(w, k, status)
      case ConflictEscalated(key, _) =>
        if key == k && k !in w.conflicts then status == OPEN else ConflictIs(w, k, status)
      case ConflictAcknowledged(key) => if key == k then status == ACKNOWLEDGED else ConflictIs(w, k, status)
      case ConflictResolved(key, given) =>
        if key == k then status == (if Blank(given) then RESOLVED else given) else ConflictIs(w, k, status)
      case _ => ConflictIs(w, k, status)
  {
  }

  // ---------------------------------------------------------------- the other fields

  // A row as it was before an event, or as one unheard of begins.
  function SessionBefore(w: World, k: string): Session {
    if k in w.sessions then w.sessions[k] else Session(k, "", "", "", "", "live", 0, 0, 0)
  }

  // Who a session is of and when it began are what its last start says; when it
  // ended what its last end says; it was heard of at its starts, status lines and
  // heartbeats; and the status line shown is the last one given.
  lemma SessionFields(w: World, ev: Event, k: string)
    requires k in Folded(w, ev).sessions
    ensures var x, o, c, at := Folded(w, ev).sessions[k], SessionBefore(w, k), ev.change, ev.occurredAt;
      var starts, ends := c.SessionStarted? && c.sessionKey == k, c.SessionEnded? && c.sessionKey == k;
      && x.key == o.key
      && x.memberKey == (if starts then c.memberKey else o.memberKey)
      && x.agentKey == (if starts then c.agentKey else o.agentKey)
      && x.parentKey == (if starts then c.parentKey else o.parentKey)
      && x.startedAt == (if starts then at else o.startedAt)
      && x.endedAt == (if ends then at else o.endedAt)
      && x.lastHeartbeatAt == (if starts || ((c.StatusLineUpdated? || c.Heartbeat?) && c.sessionKey == k) then at else o.lastHeartbeatAt)
      && x.statusLine ==
        (if starts then if Blank(c.statusLine) then "starting up" else c.statusLine
         else if ends then if Blank(c.statusLine) then "finished" else c.statusLine
         else if (c.StatusLineUpdated? && c.sessionKey == k) || SetsLine(w, c, k) then c.statusLine
         else o.statusLine)
  {
  }

  // The rows there are after an event: those there were, and one it names.
  lemma SessionRows(w: World, ev: Event, k: string)
    ensures k in Folded(w, ev).sessions <==>
      k in w.sessions || (ConcernsSession(ev.change) && ev.change.sessionKey == k) || SetsLine(w, ev.change, k)
  {
  }

  function IntentBefore(w: World, k: string): Intent {
    if k in w.intents then w.intents[k] else Intent(k, "", "", "", "declared", 0, 0)
  }

  // An intent is of the session that declared it, says what was last said of it,
  // and counts a revision for each declaration and each new summary.
  lemma IntentFields(w: World, ev: Event, k: string)
    requires k in Folded(w, ev).intents
    ensures var x, o, c, at := Folded(w, ev).intents[k], IntentBefore(w, k), ev.change, ev.occurredAt;
      var declares, updates := c.IntentDeclared? && c.intentKey == k, c.IntentUpdated? && c.intentKey == k;
      var closes := c.SessionEnded? && k in w.intents && (o.status == "declared" || o.status == "active")
        && o.sessionKey == KeyOf(w, c.sessionKey);
      && x.key == o.key
      && x.sessionKey == (if declares then c.sessionKey else o.sessionKey)
      && x.summary == (if declares || (updates && c.summary != "") then c.summary else o.summary)
      && x.kind == (if !declares then o.kind else if Blank(c.kind) then "change" else c.kind)
      && x.revision == o.revision + (if declares || (updates && c.summary != "") then 1 else 0)
      && x.updatedAt == (if declares || updates || closes then at else o.updatedAt)
  {
  }

  lemma IntentRows(w: World, ev: Event, k: string)
    ensures k in Folded(w, ev).intents <==> k in w.intents || (ConcernsIntent(ev.change) && ev.change.intentKey == k)
  {
  }

  function ClaimBefore(w: World, k: string): Claim {
    if k in w.claims then w.claims[k] else Claim(k, "", "", "write", [], "active", 0)
  }

  // Whose a claim is, on what, how and until when are what its making says: half
  // an hour if it does not say how long.
  lemma ClaimFields(w: World, ev: Event, k: string)
    requires k in Folded(w, ev).claims
    ensures var x, o, c := Folded(w, ev).claims[k], ClaimBefore(w, k), ev.change;
      && x.key == o.key
      && if c.ClaimCreated? && c.claimKey == k then
           && x.sessionKey == c.sessionKey && x.intentKey == c.intentKey && x.paths == c.paths
           && x.mode == (if Blank(c.mode) then "write" else c.mode)
           && x.expiresAt == ev.occurredAt + (if c.ttlSeconds == 0 then 1800 else c.ttlSeconds)
         else x.(status := o.status) == o
  {
  }

  lemma ClaimRows(w: World, ev: Event, k: string)
    ensures k in Folded(w, ev).claims <==> k in w.claims || (ConcernsClaim(ev.change) && ev.change.claimKey == k)
  {
  }

  function DecisionBefore(w: World, k: string): Decision {
    if k in w.decisions then w.decisions[k] else Decision(k, "", "", "active", 0, "", "", 0, 0, 0)
  }

  // Whether this event records another decision in place of one in force, or of
  // the very one it records.
  ghost predicate Overtakes(w: World, c: Change, k: string) {
    c.DecisionRecorded? && c.supersedes == k && k != "" &&
      if c.decisionKey == k then RecordsAs(c.status, ACTIVE) else DecisionIs(w, k, ACTIVE)
  }

  // Recording a decision again revises it: the revision is the one given, the
  // first, or one more if the wording is new. It keeps when it was first recorded.
  lemma DecisionFields(w: World, ev: Event, k: string)
    requires k in Folded(w, ev).decisions
    ensures var x, o, c, at := Folded(w, ev).decisions[k], DecisionBefore(w, k), ev.change, ev.occurredAt;
      var records := c.DecisionRecorded? && c.decisionKey == k;
      var ends := c.DecisionSuperseded? && c.decisionKey == k && (c.newStatus == SUPERSEDED || c.newStatus == REVOKED);
      && x.key == o.key
      && x.title == (if records && !Blank(c.title) then c.title else o.title)
      && x.statement == (if records then c.statement else o.statement)
      && x.supersedes == (if records then c.supersedes else o.supersedes)
      && x.recordedAt == (if records && o.recordedAt == 0 then at else o.recordedAt)
      && x.updatedAt == (if records || ends || Overtakes(w, c, k) then at else o.updatedAt)
      && x.endedAt == (if ends || Overtakes(w, c, k) then at else if records then 0 else o.endedAt)
      && x.revision ==
        (if !records then o.revision
         else if c.revision > 0 then c.revision
         else if k !in w.decisions || o.revision == 0 then 1
         else if c.statement != o.statement then o.revision + 1
         else o.revision)
  {
  }

  // By which a decision is superseded: the one recorded in its place, or the one
  // that the event which ends it names.
  lemma DecisionSuccessor(w: World, ev: Event, k: string)
    requires k in Folded(w, ev).decisions
    ensures var x, o, c := Folded(w, ev).decisions[k], DecisionBefore(w, k), ev.change;
      x.supersededBy ==
        (if Overtakes(w, c, k) then DecisionBefore(w, c.decisionKey).key
         else if c.DecisionRecorded? && c.decisionKey == k then ""
         else if c.DecisionSuperseded? && c.decisionKey == k && (c.newStatus == SUPERSEDED || c.newStatus == REVOKED)
              && c.supersededBy != "" then c.supersededBy
         else o.supersededBy)
  {
  }

  lemma DecisionRows(w: World, ev: Event, k: string)
    ensures k in Folded(w, ev).decisions <==>
      var c := ev.change;
      || k in w.decisions
      || (c.DecisionRecorded? && c.decisionKey == k)
      || (c.DecisionSuperseded? && c.decisionKey == k && (c.newStatus == SUPERSEDED || c.newStatus == REVOKED))
  {
  }

  function ConflictBefore(w: World, k: string): Conflict {
    if k in w.conflicts then w.conflicts[k] else Conflict(k, "", "medium", "open", "", 0, 0, 0, 0)
  }

  // A conflict is counted each time it is raised or escalated, was raised when it
  // first was, and was escalated when a person was first asked about a decision.
  lemma ConflictFields(w: World, ev: Event, k: string)
    requires k in Folded(w, ev).conflicts
    ensures var x, o, c, at := Folded(w, ev).conflicts[k], ConflictBefore(w, k), ev.change, ev.occurredAt;
      var raises, escalates := c.ConflictRaised? && c.conflictKey == k, c.ConflictEscalated? && c.conflictKey == k;
      && x.key == o.key
      && x.kind == (if raises then c.kind else o.kind)
      && x.decisionKey == (if raises then c.decisionKey else o.decisionKey)
      && x.severity == (if raises then if Blank(c.severity) then "medium" else c.severity
                        else if escalates && !Blank(c.severity) then c.severity else o.severity)
      && x.occurrences == o.occurrences + (if raises || escalates then 1 else 0)
      && x.raisedAt == (if raises && o.raisedAt == 0 then at else o.raisedAt)
      && x.escalatedAt == (if escalates && o.kind == "decision_contradiction" && o.escalatedAt == 0 then at else o.escalatedAt)
      && x.resolvedAt == (if c.ConflictResolved? && c.conflictKey == k then at else o.resolvedAt)
  {
  }

  lemma ConflictRows(w: World, ev: Event, k: string)
    ensures k in Folded(w, ev).conflicts <==> k in w.conflicts || (ConcernsConflict(ev.change) && ev.change.conflictKey == k)
  {
  }

  // ---------------------------------------------------------------- members and contracts

  // A member is named and given a role by joining, and made known by an agent too.
  lemma MemberFields(w: World, ev: Event, k: string)
    ensures k in Folded(w, ev).members <==> k in w.members || (ConcernsMember(ev.change) && ev.change.memberKey == k)
    ensures k in Folded(w, ev).members ==>
      var x, c := Folded(w, ev).members[k], ev.change;
      var o := if k in w.members then w.members[k] else Member(k, k, "", 0, []);
      var joins := c.MemberJoined? && c.memberKey == k;
      && x.key == o.key
      && x.displayName == (if joins then c.displayName else o.displayName)
      && x.role == (if joins then c.role else o.role)
      && x.lastSeenAt == (if joins then ev.occurredAt else o.lastSeenAt)
  {
  }

  // An agent of a key its member does not have comes last of the member's agents.
  lemma {:induction false} NewAgentIsLast(agents: seq<Agent>, a: Agent)
    requires forall i :: 0 <= i < |agents| ==> agents[i].key != a.key
    ensures Registered(agents, a) == agents + [a]
  {
    if agents != [] {
      NewAgentIsLast(agents[1..], a);
    }
  }

  lemma NewAgent(w: World, ev: Event, k: string, m: Member)
    requires ev.change.AgentRegistered? && ev.change.memberKey == k
    requires m == if k in w.members then w.members[k] else Member(k, k, "", 0, [])
    requires forall i :: 0 <= i < |m.agents| ==> m.agents[i].key != ev.change.agentKey
    ensures k in Folded(w, ev).members
    ensures Folded(w, ev).members[k].agents == m.agents + [Agent(ev.change.agentKey, m.key, ev.change.title,
      if AllSpace(ev.change.status) then "active" else ev.change.status, ev.occurredAt)]
  {
    var c := ev.change;
    NewAgentIsLast(m.agents, Agent(c.agentKey, m.key, c.title, OrDefault(c.status, ACTIVE), ev.occurredAt));
  }

  // The first of a member's agents that has this key.
  ghost predicate FirstOfKey(agents: seq<Agent>, i: int, key: string) {
    0 <= i < |agents| && agents[i].key == key && forall j :: 0 <= j < i ==> agents[j].key != key
  }

  lemma {:induction false} RegisteredSize(agents: seq<Agent>, a: Agent)
    ensures |agents| <= |Registered(agents, a)| <= |agents| + 1
  {
    if agents != [] { RegisteredSize(agents[1..], a); }
  }

  lemma {:induction false} RegisteredAt(agents: seq<Agent>, a: Agent, i: nat)
    requires i < |agents| <= |Registered(agents, a)|
    ensures Registered(agents, a)[i]
      == if FirstOfKey(agents, i, a.key) then agents[i].(title := a.title, status := a.status, lastSeenAt := a.lastSeenAt) else agents[i]
  {
    var rest := agents[1..];
    if agents[0].key != a.key && i > 0 {
      RegisteredSize(rest, a);
      RegisteredAt(rest, a, i - 1);
      FirstInRest(agents, i, a.key);
    }
  }

  lemma FirstInRest(agents: seq<Agent>, i: int, key: string)
    requires 0 < i < |agents| && agents[0].key != key
    ensures FirstOfKey(agents, i, key) <==> FirstOfKey(agents[1..], i - 1, key)
  {
    var rest := agents[1..];
    assert rest[i - 1] == agents[i];
    if FirstOfKey(rest, i - 1, key) {
      forall j | 0 <= j < i ensures agents[j].key != key {
        if j > 0 { assert rest[j - 1] == agents[j]; }
      }
    }
  }

  lemma {:induction false} RestatedAt(agents: seq<Agent>, key: string, status: string, at: Time, i: nat)
    requires i < |agents|
    ensures |Restated(agents, key, status, at)| == |agents|
    ensures Restated(agents, key, status, at)[i]
      == if FirstOfKey(agents, i, key) then agents[i].(status := status, lastSeenAt := at) else agents[i]
    decreases |agents|
  {
    var rest := agents[1..];
    if agents[0].key != key {
      if i > 0 {
        RestatedAt(rest, key, status, at, i - 1);
        FirstInRest(agents, i, key);
      } else if rest != [] {
        RestatedAt(rest, key, status, at, 0);
      }
    }
  }

  // What an agent is after an event: registered anew under its key it is renamed,
  // stated and seen; a status of its own states it and shows it seen; nothing else
  // changes it.
  lemma AgentFields(w: World, ev: Event, k: string, i: nat)
    requires k in w.members && i < |w.members[k].agents|
    ensures k in Folded(w, ev).members && i < |Folded(w, ev).members[k].agents|
    ensures Folded(w, ev).members[k].agents[i] == AgentNow(w.members[k].agents, i, ev.change, k, ev.occurredAt)
  {
    var agents, c := w.members[k].agents, ev.change;
    if c.AgentRegistered? && c.memberKey == k {
      var a := Agent(c.agentKey, w.members[k].key, c.title, OrDefault(c.status, ACTIVE), ev.occurredAt);
      RegisteredSize(agents, a);
      RegisteredAt(agents, a, i);
    } else if c.AgentStatusChanged? && c.memberKey == k {
      RestatedAt(agents, c.agentKey, c.status, ev.occurredAt, i);
    }
  }

  ghost function AgentNow(agents: seq<Agent>, i: nat, c: Change, k: string, at: Time): Agent
    requires i < |agents|
  {
    match c
    case AgentRegistered(member, key, title, status) =>
      if member != k || !FirstOfKey(agents, i, key) then agents[i]
      else agents[i].(title := title, status := if AllSpace(status) then "active" else status, lastSeenAt := at)
    case AgentStatusChanged(member, key, status) =>
      if member != k || !FirstOfKey(agents, i, key) then agents[i]
      else agents[i].(status := status, lastSeenAt := at)
    case _ => agents[i]
  }

  predicate AllSpace(s: string) {
    forall i :: 0 <= i < |s| ==> s[i] in " \t\n\r" || s[i] == 11 as char || s[i] == 12 as char
  }

  // A contract is of the kind last published, and its publications come one after
  // the other, each active when it comes.
  lemma ContractFields(w: World, ev: Event, k: string)
    ensures k in Folded(w, ev).contracts <==> k in w.contracts || (ConcernsContract(ev.change) && ev.change.contractKey == k)
    ensures k in Folded(w, ev).contracts ==>
      var x, c, at := Folded(w, ev).contracts[k], ev.change, ev.occurredAt;
      var o := if k in w.contracts then w.contracts[k] else Contract(k, "http", [], 0);
      var publishes := c.ContractPublished? && c.contractKey == k;
      && x.key == o.key
      && x.kind == (if publishes && c.kind != "" then c.kind else o.kind)
      && x.updatedAt == (if publishes then at else o.updatedAt)
      && |x.assertions| == |o.assertions| + (if publishes && c.assertion.Some? then 1 else 0)
      && (publishes && c.assertion.Some? ==>
            x.assertions[|o.assertions|] == c.assertion.value.(status := "active", updatedAt := at))
  {
  }

  // A publication is superseded by its session's next one on the same side, and
  // withdrawn with what its session publishes; nothing else changes it.
  lemma AssertionFields(w: World, ev: Event, k: string, i: nat)
    requires k in w.contracts && i < |w.contracts[k].assertions|
    ensures k in Folded(w, ev).contracts && i < |Folded(w, ev).contracts[k].assertions|
    ensures var o := w.contracts[k].assertions[i];
      Folded(w, ev).contracts[k].assertions[i] == o.(status := if o.status == "active" then StatusNow(o, ev.change, k) else o.status)
  {
  }

  function StatusNow(o: Assertion, c: Change, k: string): string {
    match c
    case ContractPublished(key, _, next) =>
      if key == k && next.Some? && next.value.sessionKey == o.sessionKey && next.value.role == o.role then "superseded" else "active"
    case ContractWithdrawn(key, session) => if key == k && session == o.sessionKey then "withdrawn" else "active"
    case _ => "active"
  }

  // ---------------------------------------------------------------- whole histories

  predicate LiveStatus(status: string) { status == LIVE || status == STALE }

  // The events that end a session, and those after which it is live or stale,
  // whatever it was.
  predicate Ends(ev: Event, k: string) {
    var c := ev.change;
    c.SessionEnded? && c.sessionKey == k && !LiveStatus(if Blank(c.status) then ENDED else c.status)
  }

  predicate Revives(ev: Event, k: string) {
    var c := ev.change;
    || ((c.SessionStarted? || c.StatusLineUpdated? || c.SessionStalled?) && c.sessionKey == k)
    || (c.SessionEnded? && c.sessionKey == k && LiveStatus(if Blank(c.status) then ENDED else c.status))
  }

  ghost predicate Working(w: World, k: string) {
    k in w.sessions && w.sessions[k].Live()
  }

  lemma WorkingStep(w: World, ev: Event, k: string)
    ensures Working(Folded(w, ev), k) <==>
      Revives(ev, k) || (!Ends(ev, k) && (Working(w, k) || (k !in w.sessions && k in Folded(w, ev).sessions)))
    ensures k in w.sessions || Revives(ev, k) || Ends(ev, k) ==> k in Folded(w, ev).sessions
  {
    StatusesApart();
    SessionStatus(w, ev, k, LIVE);
    SessionStatus(w, ev, k, STALE);
  }

  // A session that has ended is not live or stale again until it starts, has a
  // status line or stalls: no heartbeat and no event of its intents wakes it.
  lemma {:induction false} EndedStaysEnded(w: World, end: Event, evs: seq<Event>, k: string)
    requires Ends(end, k) && forall ev :: ev in evs ==> !Revives(ev, k)
    ensures var z := FoldAll(Folded(w, end), evs); k in z.sessions && !z.sessions[k].Live()
    decreases |evs|
  {
    if evs == [] {
      WorkingStep(w, end, k);
      assert !Revives(end, k);
    } else {
      var before, ev := evs[..|evs| - 1], evs[|evs| - 1];
      assert ev in evs && forall e :: e in before ==> e in evs;
      EndedStaysEnded(w, end, before, k);
      WorkingStep(FoldAll(Folded(w, end), before), ev, k);
    }
  }

  // This event is the last that revives or ends the session.
  ghost predicate LastWord(evs: seq<Event>, k: string, i: int) {
    && 0 <= i < |evs| && (Revives(evs[i], k) || Ends(evs[i], k))
    && forall j :: i < j < |evs| ==> !Revives(evs[j], k) && !Ends(evs[j], k)
  }

  // Over any history: a session there is is live or stale if and only if no end
  // was the last word on it.
  lemma {:induction false} WorkingExactlyWhen(evs: seq<Event>, k: string)
    ensures var w := FoldAll(EMPTY_WORLD, evs);
      && (Working(w, k) <==> k in w.sessions && !(exists i :: LastWord(evs, k, i) && Ends(evs[i], k)))
      && ((exists i :: LastWord(evs, k, i)) ==> k in w.sessions)
    decreases |evs|
  {
    if evs != [] {
      var n := |evs| - 1;
      var before, ev := evs[..n], evs[n];
      var w := FoldAll(EMPTY_WORLD, before);
      WorkingExactlyWhen(before, k);
      WorkingStep(w, ev, k);
      LastWordNext(evs, k);
    }
  }

  lemma LastWordNext(evs: seq<Event>, k: string)
    requires evs != []
    ensures var n := |evs| - 1; forall i ::
      LastWord(evs, k, i) <==> if Revives(evs[n], k) || Ends(evs[n], k) then i == n else LastWord(evs[..n], k, i)
    ensures var n := |evs| - 1; !(Revives(evs[n], k) && Ends(evs[n], k))
    ensures var n := |evs| - 1; forall i :: LastWord(evs[..n], k, i) ==> evs[..n][i] == evs[i]
  {
    StatusesApart();
  }

  // An event that takes a claim from the session it was last made for.
  predicate TakesClaim(ev: Event, k: string, owner: string) {
    match ev.change
    case ClaimCreated(key, _, _, _, _, _) => key == k
    case ClaimReleased(key) => key == k
    case ClaimExpired(key) => key == k
    case SessionEnded(session, _, _) => session == owner
    case _ => false
  }

  // The claim was made then, and nothing has taken it since.
  ghost predicate HeldSince(evs: seq<Event>, k: string, i: int) {
    && 0 <= i < |evs| && evs[i].change.ClaimCreated? && evs[i].change.claimKey == k
    && forall j :: i < j < |evs| ==> !TakesClaim(evs[j], k, evs[i].change.sessionKey)
  }

  // Over any history: a claim is active if and only if it was made and since then
  // neither released, expired nor made again, nor its session ended; and then it
  // is that session's.
  lemma {:induction false} HeldExactlyWhen(evs: seq<Event>, k: string)
    ensures var w := FoldAll(EMPTY_WORLD, evs);
      && (ClaimIs(w, k, ACTIVE) <==> exists i :: HeldSince(evs, k, i))
      && forall i :: HeldSince(evs, k, i) ==> k in w.claims && w.claims[k].sessionKey == evs[i].change.sessionKey
    decreases |evs|
  {
    if evs != [] {
      var n := |evs| - 1;
      var before, ev := evs[..n], evs[n];
      var w := FoldAll(EMPTY_WORLD, before);
      HeldExactlyWhen(before, k);
      RunsKeepWorldOk(before);
      HeldStep(w, ev, evs, before, k);
    }
  }

  lemma HeldStep(w: World, ev: Event, evs: seq<Event>, before: seq<Event>, k: string)
    requires evs == before + [ev] && SessionsOk(w.sessions)
    requires ClaimIs(w, k, ACTIVE) <==> exists i :: HeldSince(before, k, i)
    requires forall i :: HeldSince(before, k, i) ==> k in w.claims && w.claims[k].sessionKey == before[i].change.sessionKey
    ensures ClaimIs(Folded(w, ev), k, ACTIVE) <==> exists i :: HeldSince(evs, k, i)
    ensures forall i :: HeldSince(evs, k, i) ==>
      k in Folded(w, ev).claims && Folded(w, ev).claims[k].sessionKey == evs[i].change.sessionKey
  {
    var n := |before|;
    assert evs[..n] == before;
    StatusesApart();
    ClaimStatus(w, ev, k, ACTIVE);
    forall i ensures HeldSince(evs, k, i) <==>
      (i == n && ev.change.ClaimCreated? && ev.change.claimKey == k)
      || (HeldSince(before, k, i) && !TakesClaim(ev, k, before[i].change.sessionKey))
    {
      HeldNext(evs, k, i);
    }
    if ev.change.ClaimCreated? && ev.change.claimKey == k {
      assert HeldSince(evs, k, n);
    } else if ClaimIs(w, k, ACTIVE) {
      var i :| HeldSince(before, k, i);
      var owner := w.claims[k].sessionKey;
      assert ev.change.SessionEnded? ==> KeyOf(w, ev.change.sessionKey) == ev.change.sessionKey;
      if !TakesClaim(ev, k, owner) {
        assert HeldSince(evs, k, i);
      }
    }
  }

  lemma HeldNext(evs: seq<Event>, k: string, i: int)
    requires evs != []
    ensures var n := |evs| - 1; HeldSince(evs, k, i) <==>
      (i == n && evs[n].change.ClaimCreated? && evs[n].change.claimKey == k)
      || (HeldSince(evs[..n], k, i) && !TakesClaim(evs[n], k, evs[..n][i].change.sessionKey))
  {
  }

  // An event that puts a decision in force, and one after which it is not,
  // whatever it was.
  predicate Enforces(ev: Event, k: string) {
    var c := ev.change;
    c.DecisionRecorded? && c.decisionKey == k && RecordsAs(c.status, ACTIVE) && (c.supersedes != k || k == "")
  }

  predicate Sets(ev: Event, k: string) {
    match ev.change
    case DecisionRecorded(key, _, _, _, _, supersedes) => key == k || (supersedes == k && k != "")
    case DecisionSuperseded(key, given, _) => key == k && (given == SUPERSEDED || given == REVOKED)
    case _ => false
  }

  ghost predicate EnforcedSince(evs: seq<Event>, k: string, i: int) {
    0 <= i < |evs| && Enforces(evs[i], k) && forall j :: i < j < |evs| ==> !Sets(evs[j], k)
  }

  lemma EnforcedStep(w: World, ev: Event, k: string)
    ensures DecisionIs(Folded(w, ev), k, ACTIVE) <==> Enforces(ev, k) || (DecisionIs(w, k, ACTIVE) && !Sets(ev, k))
  {
    StatusesApart();
    DecisionStatus(w, ev, k, ACTIVE);
  }

  // Over any history: a decision is in force if and only if it was recorded so,
  // and since then neither recorded again, nor ended, nor recorded in place of.
  lemma {:induction false} InForceExactlyWhen(evs: seq<Event>, k: string)
    ensures DecisionIs(FoldAll(EMPTY_WORLD, evs), k, ACTIVE) <==> exists i :: EnforcedSince(evs, k, i)
    decreases |evs|
  {
    if evs != [] {
      var n := |evs| - 1;
      var before, ev := evs[..n], evs[n];
      assert evs == before + [ev];
      InForceExactlyWhen(before, k);
      EnforcedStep(FoldAll(EMPTY_WORLD, before), ev, k);
      EnforcedNext(evs, before, ev, k);
    }
  }

  lemma EnforcedNext(evs: seq<Event>, before: seq<Event>, ev: Event, k: string)
    requires evs == before + [ev]
    ensures (exists i :: EnforcedSince(evs, k, i)) <==> Enforces(ev, k) || ((exists i :: EnforcedSince(before, k, i)) && !Sets(ev, k))
  {
    var n := |before|;
    assert evs[n] == ev && before == evs[..n];
    forall i ensures EnforcedSince(evs, k, i) <==> (i == n && Enforces(ev, k)) || (EnforcedSince(before, k, i) && !Sets(ev, k)) {
      if EnforcedSince(evs, k, i) && i < n { assert !Sets(evs[n], k); }
    }
    if Enforces(ev, k) {
      assert EnforcedSince(evs, k, n);
    } else if !Sets(ev, k) && exists i :: EnforcedSince(before, k, i) {
      var i :| EnforcedSince(before, k, i);
      assert EnforcedSince(evs, k, i);
    }
  }
}
