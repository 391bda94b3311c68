// What one event does to the entities of a team (the fold of
// frontend/internal/state/store.go), as functions on the whole world.
module Fold {
  import opened Model
  import opened Text

  datatype World = World(
    members: map<string, Member>,
    sessions: map<string, Session>,
    intents: map<string, Intent>,
    claims: map<string, Claim>,
    contracts: map<string, Contract>,
    decisions: map<string, Decision>,
    conflicts: map<string, Conflict>)

  const EMPTY_WORLD := World(map[], map[], map[], map[], map[], map[], map[])

  // Nothing but white space: what is left of v after trimming is empty.
  predicate Blank(v: string) {
    forall i :: 0 <= i < |v| ==> IsSpace(v[i])
  }

  function OrDefault(v: string, def: string): string {
    if Blank(v) then def else v
  }

  // Later rows win under a repeated key.
  function Keyed<T>(xs: seq<T>, key: T -> string): map<string, T>
    decreases |xs|
  {
    if xs == [] then map[]
    else Keyed(xs[..|xs| - 1], key)[key(xs[|xs| - 1]) := xs[|xs| - 1]]
  }

  // The row under a key, or the blank row the store creates for it.
  function MemberAt(m: map<string, Member>, key: string): Member {
    if key in m then m[key] else Member(key, key, "", ZERO_TIME, [])
  }

  function SessionAt(m: map<string, Session>, key: string): Session {
    if key in m then m[key] else Session(key, "", "", "", "", LIVE, ZERO_TIME, ZERO_TIME, ZERO_TIME)
  }

  function IntentAt(m: map<string, Intent>, key: string): Intent {
    if key in m then m[key] else Intent(key, "", "", "", DECLARED, 0, ZERO_TIME)
  }

  function ClaimAt(m: map<string, Claim>, key: string): Claim {
    if key in m then m[key] else Claim(key, "", "", "write", [], ACTIVE, ZERO_TIME)
  }

  function ContractAt(m: map<string, Contract>, key: string): Contract {
    if key in m then m[key] else Contract(key, "http", [], ZERO_TIME)
  }

  function DecisionAt(m: map<string, Decision>, key: string): Decision {
    if key in m then m[key] else Decision(key, "", "", ACTIVE, 0, "", "", ZERO_TIME, ZERO_TIME, ZERO_TIME)
  }

  function ConflictAt(m: map<string, Conflict>, key: string): Conflict {
    if key in m then m[key] else Conflict(key, "", "medium", OPEN, "", ZERO_TIME, ZERO_TIME, ZERO_TIME, 0)
  }

  // ---------------------------------------------------------------- pieces

  // Registering a known agent key renames it in place; a new one is appended.
  function Registered(agents: seq<Agent>, a: Agent): seq<Agent> {
    if agents == [] then [a]
    else if agents[0].key == a.key then
      [agents[0].(title := a.title, status := a.status, lastSeenAt := a.lastSeenAt)] + agents[1..]
    else [agents[0]] + Registered(agents[1..], a)
  }

  // The first agent with a key has its status changed, if there is one.
  function Restated(agents: seq<Agent>, key: string, status: string, at: Time): seq<Agent> {
    if agents == [] then []
    else if agents[0].key == key then [agents[0].(status := status, lastSeenAt := at)] + agents[1..]
    else [agents[0]] + Restated(agents[1..], key, status, at)
  }

  function ReleasedClaim(c: Claim, session: string): Claim {
    if c.sessionKey == session && c.status == ACTIVE then c.(status := RELEASED) else c
  }

  function ReleasedClaims(claims: map<string, Claim>, session: string): map<string, Claim> {
    map k | k in claims :: ReleasedClaim(claims[k], session)
  }

  function ClosedIntent(i: Intent, session: string, at: Time): Intent {
    if i.sessionKey == session && i.Open() then i.(status := DONE, updatedAt := at) else i
  }

  function ClosedIntents(intents: map<string, Intent>, session: string, at: Time): map<string, Intent> {
    map k | k in intents :: ClosedIntent(intents[k], session, at)
  }

  function SupersededBy(x: Assertion, session: string, role: string): Assertion {
    if x.sessionKey == session && x.role == role && x.status == ACTIVE then x.(status := SUPERSEDED) else x
  }

  function SupersededAll(xs: seq<Assertion>, session: string, role: string): seq<Assertion> {
    seq(|xs|, i requires 0 <= i < |xs| => SupersededBy(xs[i], session, role))
  }

  // Publishing supersedes the session's own active assertion on that side.
  function Published(xs: seq<Assertion>, a: Assertion, at: Time): seq<Assertion> {
    SupersededAll(xs, a.sessionKey, a.role) + [a.(status := ACTIVE, updatedAt := at)]
  }

  function WithdrawnBy(x: Assertion, session: string): Assertion {
    if x.sessionKey == session && x.status == ACTIVE then x.(status := WITHDRAWN) else x
  }

  function WithdrawnAll(xs: seq<Assertion>, session: string): seq<Assertion> {
    seq(|xs|, i requires 0 <= i < |xs| => WithdrawnBy(xs[i], session))
  }

  function DecisionFoldStatus(s: string): string {
    if s == "" || s == "accepted" then ACTIVE else s
  }

  // The decision another one names as superseded, if it was in force.
  function Overtaken(ds: map<string, Decision>, previous: string, successor: string, at: Time): map<string, Decision> {
    if previous != "" && previous in ds && ds[previous].Active() then
      ds[previous := ds[previous].(status := SUPERSEDED, supersededBy := successor, endedAt := at, updatedAt := at)]
    else ds
  }

  function WithStatusLine(m: map<string, Session>, key: string, line: string): map<string, Session> {
    if line == "" then m else m[key := SessionAt(m, key).(statusLine := line)]
  }

  // ---------------------------------------------------------------- one row

  predicate ConcernsMember(c: Change) { c.MemberJoined? || c.AgentRegistered? }

  predicate ConcernsSession(c: Change) {
    c.SessionStarted? || c.StatusLineUpdated? || c.Heartbeat? || c.SessionStalled? || c.SessionEnded?
  }

  predicate ConcernsIntent(c: Change) { c.IntentDeclared? || c.IntentUpdated? }

  predicate ConcernsClaim(c: Change) { c.ClaimCreated? || c.ClaimReleased? || c.ClaimExpired? }

  predicate ConcernsContract(c: Change) { c.ContractPublished? || c.ContractWithdrawn? }

  predicate ConcernsConflict(c: Change) {
    c.ConflictRaised? || c.ConflictEscalated? || c.ConflictAcknowledged? || c.ConflictResolved?
  }

  function MemberAfter(m: Member, c: Change, at: Time): Member
    requires ConcernsMember(c)
  {
    match c
    case MemberJoined(_, name, role) => m.(displayName := name, role := role, lastSeenAt := at)
    case AgentRegistered(_, key, title, status) =>
      m.(agents := Registered(m.agents, Agent(key, m.key, title, OrDefault(status, ACTIVE), at)))
  }

  function SessionAfter(s: Session, c: Change, at: Time): Session
    requires ConcernsSession(c)
  {
    match c
    case SessionStarted(_, member, agent, parent, line) =>
      s.(memberKey := member, agentKey := agent, parentKey := parent,
         statusLine := OrDefault(line, "starting up"), status := LIVE, startedAt := at, lastHeartbeatAt := at)
    case StatusLineUpdated(_, line) => s.(statusLine := line, lastHeartbeatAt := at, status := LIVE)
    case Heartbeat(_) => s.(lastHeartbeatAt := at, status := if s.status == STALE then LIVE else s.status)
    case SessionStalled(_) => s.(status := STALE)
    case SessionEnded(_, status, line) =>
      s.(status := OrDefault(status, ENDED), endedAt := at, statusLine := OrDefault(line, "finished"))
  }

  function IntentAfter(i: Intent, c: Change, at: Time): Intent
    requires ConcernsIntent(c)
  {
    match c
    case IntentDeclared(_, session, summary, kind, status, _) =>
      i.(sessionKey := session, summary := summary, kind := OrDefault(kind, "change"),
         status := OrDefault(status, DECLARED), updatedAt := at, revision := i.revision + 1)
    case IntentUpdated(_, summary, status, _, completed) =>
      i.(summary := if summary != "" then summary else i.summary,
         revision := if summary != "" then i.revision + 1 else i.revision,
         status := if status != "" then status else if completed then DONE else i.status,
         updatedAt := at)
  }

  function ClaimAfter(x: Claim, c: Change, at: Time): Claim
    requires ConcernsClaim(c)
  {
    match c
    case ClaimCreated(_, session, intent, mode, paths, ttl) =>
      x.(sessionKey := session, intentKey := intent, mode := OrDefault(mode, "write"), paths := paths,
         status := ACTIVE, expiresAt := at + (if ttl == 0 then 1800 else ttl))
    case ClaimReleased(_) => x.(status := RELEASED)
    case ClaimExpired(_) => x.(status := EXPIRED)
  }

  function ContractAfter(x: Contract, c: Change, at: Time): Contract
    requires ConcernsContract(c)
  {
    match c
    case ContractPublished(_, kind, assertion) =>
      x.(kind := if kind != "" then kind else x.kind, updatedAt := at,
         assertions := if assertion.Some? then Published(x.assertions, assertion.value, at) else x.assertions)
    case ContractWithdrawn(_, session) => x.(assertions := WithdrawnAll(x.assertions, session))
  }

  // A recorded decision: its revision moves as told, or on new wording.
  function DecisionRevision(d: Decision, existed: bool, c: Change): int
    requires c.DecisionRecorded?
  {
    if c.revision > 0 then c.revision
    else if !existed || d.revision == 0 then 1
    else if c.statement != d.statement then d.revision + 1
    else d.revision
  }

  function Recorded(d: Decision, existed: bool, c: Change, at: Time): Decision
    requires c.DecisionRecorded?
  {
    d.(title := OrDefault(c.title, d.title), statement := c.statement, revision := DecisionRevision(d, existed, c),
       status := DecisionFoldStatus(c.status), supersedes := c.supersedes,
       endedAt := ZERO_TIME, supersededBy := "",
       recordedAt := if d.recordedAt == ZERO_TIME then at else d.recordedAt, updatedAt := at)
  }

  function Superseded(d: Decision, status: string, successor: string, at: Time): Decision {
    d.(status := status, endedAt := at, updatedAt := at,
       supersededBy := if successor != "" then successor else d.supersededBy)
  }

  function ConflictAfter(x: Conflict, c: Change, at: Time): Conflict
    requires ConcernsConflict(c)
  {
    match c
    case ConflictRaised(_, kind, severity, status, decision) =>
      x.(kind := kind, severity := OrDefault(severity, "medium"), status := OrDefault(status, OPEN),
         decisionKey := decision, raisedAt := if x.raisedAt == ZERO_TIME then at else x.raisedAt,
         occurrences := x.occurrences + 1)
    case ConflictEscalated(_, severity) =>
      x.(escalatedAt := if x.kind == "decision_contradiction" && x.escalatedAt == ZERO_TIME then at else x.escalatedAt,
         severity := OrDefault(severity, x.severity), occurrences := x.occurrences + 1)
    case ConflictAcknowledged(_) => x.(status := ACKNOWLEDGED)
    case ConflictResolved(_, status) => x.(status := OrDefault(status, RESOLVED), resolvedAt := at)
  }

  // ---------------------------------------------------------------- the fold

  function FoldedDecisions(ds: map<string, Decision>, c: Change, at: Time): map<string, Decision> {
    match c
    case DecisionRecorded(key, _, _, _, _, supersedes) =>
      var d := Recorded(DecisionAt(ds, key), key in ds, c, at);
      Overtaken(ds[key := d], supersedes, d.key, at)
    case DecisionSuperseded(key, status, successor) =>
      if status != SUPERSEDED && status != REVOKED then ds
      else ds[key := Superseded(DecisionAt(ds, key), status, successor, at)]
    case _ => ds
  }

  // The session whose status line an intent event also sets: the one it names
  // when declared, the intent's own when updated. None for an intent without one.
  function StatusLineSession(intents: map<string, Intent>, c: Change): Option<string>
    requires ConcernsIntent(c)
  {
    if c.IntentDeclared? then Some(c.sessionKey)
    else
      var key := IntentAt(intents, c.intentKey).sessionKey;
      if key == "" then None else Some(key)
  }

  function FoldedMembers(m: map<string, Member>, c: Change, at: Time): map<string, Member> {
    if ConcernsMember(c) then m[c.memberKey := MemberAfter(MemberAt(m, c.memberKey), c, at)]
    else if c.AgentStatusChanged? && c.memberKey in m then
      m[c.memberKey := m[c.memberKey].(agents := Restated(m[c.memberKey].agents, c.agentKey, c.status, at))]
    else m
  }

  function FoldedSessions(m: map<string, Session>, intents: map<string, Intent>, c: Change, at: Time): map<string, Session> {
    if ConcernsSession(c) then m[c.sessionKey := SessionAfter(SessionAt(m, c.sessionKey), c, at)]
    else if ConcernsIntent(c) then
      match StatusLineSession(intents, c)
      case None => m
      case Some(key) => WithStatusLine(m, key, c.statusLine)
    else m
  }

  function FoldedIntents(m: map<string, Intent>, sessions: map<string, Session>, c: Change, at: Time): map<string, Intent> {
    if ConcernsIntent(c) then m[c.intentKey := IntentAfter(IntentAt(m, c.intentKey), c, at)]
    else if c.SessionEnded? then ClosedIntents(m, SessionAt(sessions, c.sessionKey).key, at)
    else m
  }

  function FoldedClaims(m: map<string, Claim>, sessions: map<string, Session>, c: Change, at: Time): map<string, Claim> {
    if ConcernsClaim(c) then m[c.claimKey := ClaimAfter(ClaimAt(m, c.claimKey), c, at)]
    else if c.SessionEnded? then ReleasedClaims(m, SessionAt(sessions, c.sessionKey).key)
    else m
  }

  function FoldedContracts(m: map<string, Contract>, c: Change, at: Time): map<string, Contract> {
    if ConcernsContract(c) then m[c.contractKey := ContractAfter(ContractAt(m, c.contractKey), c, at)] else m
  }

  function FoldedConflicts(m: map<string, Conflict>, c: Change, at: Time): map<string, Conflict> {
    if ConcernsConflict(c) then m[c.conflictKey := ConflictAfter(ConflictAt(m, c.conflictKey), c, at)] else m
  }

  function Folded(w: World, ev: Event): World {
    var c, at := ev.change, ev.occurredAt;
    World(
      FoldedMembers(w.members, c, at),
      FoldedSessions(w.sessions, w.intents, c, at),
      FoldedIntents(w.intents, w.sessions, c, at),
      FoldedClaims(w.claims, w.sessions, c, at),
      FoldedContracts(w.contracts, c, at),
      FoldedDecisions(w.decisions, c, at),
      FoldedConflicts(w.conflicts, c, at))
  }
}
