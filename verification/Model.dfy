// The board's view of the data model (frontend/internal/model/model.go).
// Times are integers with 0 for Go's zero time. Text that is only printed
// (branches, goals, labels of conflicts, prose) is not carried.
module Model {

  type Time = int

  const ZERO_TIME: Time := 0

  datatype Option<+T> = None | Some(value: T)

  // ---------------------------------------------------------------- entities

  datatype Agent = Agent(key: string, memberKey: string, title: string, status: string, lastSeenAt: Time)

  datatype Member = Member(key: string, displayName: string, role: string, lastSeenAt: Time, agents: seq<Agent>)

  datatype Session = Session(
    key: string, memberKey: string, agentKey: string, parentKey: string,
    statusLine: string, status: string, startedAt: Time, endedAt: Time, lastHeartbeatAt: Time)
  {
    predicate Live() { status == LIVE || status == STALE }
  }

  datatype Intent = Intent(
    key: string, sessionKey: string, summary: string, kind: string, status: string,
    revision: int, updatedAt: Time)
  {
    predicate Open() { status == DECLARED || status == ACTIVE }
  }

  datatype Claim = Claim(
    key: string, sessionKey: string, intentKey: string, mode: string, paths: seq<string>,
    status: string, expiresAt: Time)

  datatype Field = Field(name: string, typ: string, direction: string, required: bool)

  datatype Assertion = Assertion(
    key: string, role: string, sessionKey: string, shapeHash: string, status: string,
    fields: seq<Field>, updatedAt: Time)

  datatype Contract = Contract(key: string, kind: string, assertions: seq<Assertion>, updatedAt: Time)

  datatype Decision = Decision(
    key: string, title: string, statement: string, status: string, revision: int,
    supersedes: string, supersededBy: string, recordedAt: Time, updatedAt: Time, endedAt: Time)
  {
    predicate Active() { status == ACTIVE }
  }

  datatype Conflict = Conflict(
    key: string, kind: string, severity: string, status: string, decisionKey: string,
    raisedAt: Time, resolvedAt: Time, escalatedAt: Time, occurrences: int)
  {
    predicate Open() { status == OPEN || status == ACKNOWLEDGED || status == "resolving" }
  }

  const LIVE := "live"
  const STALE := "stale"
  const ENDED := "ended"
  const DECLARED := "declared"
  const ACTIVE := "active"
  const DONE := "done"
  const RELEASED := "released"
  const EXPIRED := "expired"
  const SUPERSEDED := "superseded"
  const REVOKED := "revoked"
  const WITHDRAWN := "withdrawn"
  const OPEN := "open"
  const ACKNOWLEDGED := "acknowledged"
  const RESOLVED := "resolved"
  const PRODUCES := "produces"
  const CONSUMES := "consumes"

  function SeverityRank(s: string): (r: int)
    ensures 0 <= r <= 4
  {
    if s == "low" then 1
    else if s == "medium" then 2
    else if s == "high" then 3
    else if s == "critical" then 4
    else 0
  }

  // ---------------------------------------------------------------- events

  // What an event says happened: its kind together with the payload fields
  // that kind's fold reads. LogOnly stands for every kind the fold ignores. An
  // agent is looked up among all members in no set order; memberKey is the
  // member under which it is come upon.
  datatype Change =
    | MemberJoined(memberKey: string, displayName: string, role: string)
    | AgentRegistered(memberKey: string, agentKey: string, title: string, status: string)
    | AgentStatusChanged(memberKey: string, agentKey: string, status: string)
    | SessionStarted(sessionKey: string, memberKey: string, agentKey: string, parentKey: string, statusLine: string)
    | StatusLineUpdated(sessionKey: string, statusLine: string)
    | Heartbeat(sessionKey: string)
    | SessionStalled(sessionKey: string)
    | SessionEnded(sessionKey: string, status: string, statusLine: string)
    | IntentDeclared(intentKey: string, sessionKey: string, summary: string, kind: string, status: string, statusLine: string)
    | IntentUpdated(intentKey: string, summary: string, status: string, statusLine: string, completed: bool)
    | ClaimCreated(claimKey: string, sessionKey: string, intentKey: string, mode: string, paths: seq<string>, ttlSeconds: int)
    | ClaimReleased(claimKey: string)
    | ClaimExpired(claimKey: string)
    | ContractPublished(contractKey: string, kind: string, assertion: Option<Assertion>)
    | ContractWithdrawn(contractKey: string, sessionKey: string)
    | DecisionRecorded(decisionKey: string, title: string, statement: string, status: string, revision: int, supersedes: string)
    | DecisionSuperseded(decisionKey: string, newStatus: string, supersededBy: string)
    | ConflictRaised(conflictKey: string, kind: string, severity: string, status: string, decisionKey: string)
    | ConflictEscalated(conflictKey: string, severity: string)
    | ConflictAcknowledged(conflictKey: string)
    | ConflictResolved(conflictKey: string, status: string)
    | LogOnly

  // One row of the append-only team log.
  datatype Event = Event(sequence: int, structural: bool, boardRevision: int, occurredAt: Time, change: Change)
}
