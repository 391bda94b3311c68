// The boundary between the snapshot and the stream: Live.Snapshot's ordered
// reads of a backend that keeps moving (frontend/internal/feed/live.go), and
// what the hub's loop keeps of them (frontend/internal/hub/hub.go).
module Freshness {
  import opened Model
  import opened Logs
  import opened Store
  import opened StoreRuns
  import opened Hub
  import Fold

  // ---------------------------------------------------------------- the reads

  datatype TeamRead = TeamRead(
    sequence: int, boardRevision: int, members: seq<Member>, sessions: seq<Session>,
    intents: seq<Intent>, claims: seq<Claim>, conflicts: seq<Conflict>)

  // The state the reads make together. The feed is to resume that much earlier
  // when history is asked for.
  function Merged(t: TeamRead, contracts: seq<Contract>, decisions: seq<Decision>, settled: Option<seq<Conflict>>, backfill: int)
    : TeamState
  {
    var resumeFrom := if backfill <= 0 then t.sequence else if t.sequence > backfill then t.sequence - backfill else 0;
    var conflicts := if settled.Some? then t.conflicts + settled.value else t.conflicts;
    TeamState(t.sequence, t.boardRevision, resumeFrom, t.members, t.sessions, t.intents, t.claims,
      contracts, decisions, conflicts)
  }

  // The cursor a store has after loading a team read at a sequence.
  function CursorFor(sequence: int, backfill: int): int {
    if 0 < backfill < sequence then sequence - backfill else sequence
  }

  // The team first, then its contracts, then its decisions; any of them failing
  // fails the whole. The settled conflicts come last and may fail quietly.
  method Snapshot(team: Option<TeamRead>, contracts: Option<seq<Contract>>, decisions: Option<seq<Decision>>,
                  settled: Option<seq<Conflict>>, backfill: int)
    returns (r: Option<TeamState>)
    ensures r.Some? <==> team.Some? && contracts.Some? && decisions.Some?
    ensures r.Some? ==> r.value == Merged(team.value, contracts.value, decisions.value, settled, backfill)
    ensures r.Some? ==> var t, ts := team.value, r.value;
      && ts.sequence == t.sequence && ts.boardRevision == t.boardRevision
      && ts.members == t.members && ts.sessions == t.sessions && ts.intents == t.intents && ts.claims == t.claims
      && ts.contracts == contracts.value && ts.decisions == decisions.value
      && ts.conflicts == t.conflicts + (if settled.Some? then settled.value else [])
    ensures r.Some? && team.value.sequence >= 0 ==> ResumeCursor(r.value) == CursorFor(team.value.sequence, backfill)
  {
    if team.None? {
      return None;
    }
    var t := team.value;
    if contracts.None? {
      return None;
    }
    if decisions.None? {
      return None;
    }
    var conflicts := t.conflicts;
    if settled.Some? {
      conflicts := conflicts + settled.value;
    }
    var ts := TeamState(t.sequence, t.boardRevision, t.sequence, t.members, t.sessions, t.intents, t.claims,
      contracts.value, decisions.value, conflicts);
    if backfill > 0 {
      ts := ts.(resumeFrom := if t.sequence - backfill > 0 then t.sequence - backfill else 0);
    }
    assert t.conflicts + [] == t.conflicts;
    return Some(ts);
  }

  // ---------------------------------------------------------------- the backend

  // The backend's log, and what each read answers when so much of it is committed.
  datatype Backend = Backend(
    log: seq<Event>, team: nat -> TeamRead, contracts: nat -> seq<Contract>, decisions: nat -> seq<Decision>)
  {
    // The sequence of the last of the first n events.
    function SequenceOf(n: nat): int
      requires n <= |log|
    {
      LastSequence(log[..n], 0)
    }

    ghost predicate Valid() {
      && Increasing(log) && AllAbove(log, 0)
      && forall n: nat :: n <= |log| ==> team(n).sequence == SequenceOf(n)
    }
  }

  // An event is among the first n exactly when its sequence has been reached.
  lemma AmongFirst(b: Backend, n: nat, i: nat)
    requires b.Valid() && n <= |b.log| && i < |b.log|
    ensures i < n <==> b.log[i].sequence <= b.SequenceOf(n)
  {
    assert b.log[i] in b.log;
    if n > 0 {
      if i < n - 1 { IncreasingAt(b.log, i, n - 1); } else if n - 1 < i { IncreasingAt(b.log, n - 1, i); }
    }
  }

  lemma SequenceGrows(b: Backend, n: nat, m: nat)
    requires b.Valid() && n <= m <= |b.log|
    ensures 0 <= b.SequenceOf(n) <= b.SequenceOf(m)
  {
    if n > 0 {
      AmongFirst(b, m, n - 1);
      assert b.log[n - 1] in b.log;
    } else if m > 0 {
      assert b.log[m - 1] in b.log;
    }
  }

  // ---------------------------------------------------------------- the steps

  datatype Part = Team | Contracts | Decisions

  // How many events of the log each part of the board reflects.
  datatype Parts = Parts(team: nat, contracts: nat, decisions: nat)

  // The order in which the parts are read.
  predicate IsOrder(order: seq<Part>) {
    |order| == 3 && order[0] != order[1] && order[0] != order[2] && order[1] != order[2]
  }

  const TEAM_FIRST := [Team, Contracts, Decisions]

  function PlaceOf(order: seq<Part>, p: Part): (k: nat)
    requires IsOrder(order)
    ensures k < 3 && order[k] == p
  {
    if order[0] == p then 0 else if order[1] == p then 1 else 2
  }

  function PartsOf(order: seq<Part>, got: seq<nat>): Parts
    requires IsOrder(order) && |got| == 3
  {
    Parts(got[PlaceOf(order, Team)], got[PlaceOf(order, Contracts)], got[PlaceOf(order, Decisions)])
  }

  // Each part reflects what was committed when it was read.
  lemma PartReadThen(order: seq<Part>, got: seq<nat>, i: nat)
    requires IsOrder(order) && |got| == 3 && i < 3
    ensures var p := PartsOf(order, got);
      got[i] == match order[i] case Team => p.team case Contracts => p.contracts case Decisions => p.decisions
  {
  }

  datatype Config = Config(backend: Backend, order: seq<Part>, backfill: int)
  {
    ghost predicate Valid() { backend.Valid() && IsOrder(order) }

    function Read(p: Parts, settled: Option<seq<Conflict>>): TeamState {
      Merged(backend.team(p.team), backend.contracts(p.contracts), backend.decisions(p.decisions), settled, backfill)
    }
  }

  // Where the hub is: at the head of its loop, draining a burst, or reading the
  // backend, with how much was committed at each read so far.
  datatype Phase = Head | Draining(due: bool) | Reading(got: seq<nat>, loading: bool)

  // The backend's committed length, the store, what its entities reflect, the
  // sequence of the newest structural event accepted and of the last good
  // snapshot, whether a refresh has failed since, and the turns taken.
  datatype System = System(
    committed: nat, store: StoreState, parts: Parts, phase: Phase,
    newest: int, lastRead: int, failed: bool, base: StoreState, turns: seq<Turn>, burst: seq<Event>)

  const START := System(0, NEW, Parts(0, 0, 0), Reading([], true), 0, 0, false, NEW, [], [])

  datatype Step = Commit | Bring(i: nat) | Settle | ReadNext | Fail | Take(settled: Option<seq<Conflict>>)

  // The stream brings events that are committed, and of those above the store's
  // cursor only the next. Nothing else restricts what interleaves.
  ghost predicate Enabled(c: Config, z: System, st: Step) {
    match st
    case Commit => z.committed < |c.backend.log|
    case Bring(i) =>
      && !z.phase.Reading? && i < z.committed && i < |c.backend.log|
      && (Accepts(z.store, c.backend.log[i]) ==> [c.backend.log[i]] <= Above(c.backend.log, z.store.sequence))
    case Settle => z.phase.Draining?
    case ReadNext => z.phase.Reading? && |z.phase.got| < 3
    case Fail => z.phase.Reading? && |z.phase.got| < 3
    case Take(_) => z.phase.Reading? && |z.phase.got| == 3
  }

  function Delivered(z: System, e: Event): System {
    var shows := Accepts(z.store, e) && e.structural;
    z.(store := Applied(z.store, e), phase := Draining((z.phase.Draining? && z.phase.due) || shows),
       newest := if shows then e.sequence else z.newest, burst := z.burst + [e])
  }

  // A turn ends with the board as it is, or with a good read.
  function TurnEnds(z: System, read: Option<TeamState>): System {
    z.(phase := Head, turns := z.turns + [Turn(z.burst, read)], burst := [])
  }

  function Taken(c: Config, z: System, settled: Option<seq<Conflict>>): System
    requires IsOrder(c.order) && z.phase.Reading? && |z.phase.got| == 3
  {
    var p := PartsOf(c.order, z.phase.got);
    var ts := c.Read(p, settled);
    var y := z.(parts := p, lastRead := ts.sequence, failed := false);
    if z.phase.loading then y.(phase := Head, store := Loaded(z.store, ts), base := Loaded(z.store, ts))
    else TurnEnds(y.(store := Refreshed(z.store, ts)), Some(ts))
  }

  function Do(c: Config, z: System, st: Step): System
    requires c.Valid() && Enabled(c, z, st)
  {
    match st
    case Commit => z.(committed := z.committed + 1)
    case Bring(i) => Delivered(z, c.backend.log[i])
    case Settle => if z.phase.due then z.(phase := Reading([], false)) else TurnEnds(z, None)
    case ReadNext => z.(phase := z.phase.(got := z.phase.got + [z.committed]))
    case Fail => if z.phase.loading then z.(phase := Reading([], true)) else TurnEnds(z, None).(failed := true)
    case Take(settled) => Taken(c, z, settled)
  }

  // A refresh that fails is outstanding until a good read; a load that fails is
  // begun again, and a refresh that fails leaves the board to the next turn.
  lemma FailedUntilRead(c: Config, z: System, st: Step)
    requires c.Valid() && Enabled(c, z, st)
    ensures Do(c, z, st).failed <==> (st.Fail? && !z.phase.loading) || (z.failed && !st.Take?)
    ensures st.Fail? ==> Do(c, z, st).phase == if z.phase.loading then Reading([], true) else Head
    ensures st.Fail? ==> Do(c, z, st).store == z.store
  {
  }

  ghost predicate CanRun(c: Config, z: System, steps: seq<Step>)
    requires c.Valid()
    decreases |steps|
  {
    steps != [] ==> Enabled(c, z, steps[0]) && CanRun(c, Do(c, z, steps[0]), steps[1..])
  }

  ghost function Run(c: Config, z: System, steps: seq<Step>): System
    requires c.Valid() && CanRun(c, z, steps)
    decreases |steps|
  {
    if steps == [] then z else Run(c, Do(c, z, steps[0]), steps[1..])
  }

  // ---------------------------------------------------------------- freshness

  // Every structural event at or below the cursor shows in all three parts.
  ghost predicate Fresh(log: seq<Event>, p: Parts, cursor: int) {
    forall i :: 0 <= i < |log| && log[i].structural && SequenceAt(log, i) <= cursor ==> i < p.team && i < p.contracts && i < p.decisions
  }

  lemma FreshWhen(b: Backend, p: Parts, cursor: int)
    requires b.Valid() && p.team <= |b.log| && p.contracts <= |b.log| && p.decisions <= |b.log|
    requires cursor <= b.SequenceOf(p.team) && cursor <= b.SequenceOf(p.contracts) && cursor <= b.SequenceOf(p.decisions)
    ensures Fresh(b.log, p, cursor)
  {
    forall i | 0 <= i < |b.log| && SequenceAt(b.log, i) <= cursor ensures i < p.team && i < p.contracts && i < p.decisions {
      AmongFirst(b, p.team, i);
      AmongFirst(b, p.contracts, i);
      AmongFirst(b, p.decisions, i);
    }
  }

  // What is committed, read and delivered, in the order it happens.
  ghost predicate Sane(c: Config, z: System)
    requires c.Valid()
  {
    var b := c.backend;
    && z.committed <= |b.log| && 0 <= z.store.sequence <= b.SequenceOf(z.committed)
    && z.parts.team <= z.committed && z.parts.contracts <= z.committed && z.parts.decisions <= z.committed
    && (z.phase.Reading? ==>
          && |z.phase.got| <= 3
          && (forall k :: 0 <= k < |z.phase.got| ==> ReadOk(c, z, z.phase.got[k]))
          && (forall j, k :: 0 <= j < k < |z.phase.got| ==> z.phase.got[j] <= z.phase.got[k])
          && (z.phase.loading ==> z.store == NEW))
  }

  // A read is made of what is committed, and a refresh's after all that the
  // store has accepted was.
  ghost predicate ReadOk(c: Config, z: System, n: nat)
    requires c.Valid() && z.phase.Reading?
  {
    n <= z.committed && n <= |c.backend.log| && (z.phase.loading || z.store.sequence <= c.backend.SequenceOf(n))
  }

  lemma DeliverSane(c: Config, z: System, i: nat)
    requires c.Valid() && Sane(c, z) && Enabled(c, z, Bring(i))
    ensures Sane(c, Do(c, z, Bring(i)))
  {
    AmongFirst(c.backend, z.committed, i);
    assert c.backend.log[i] in c.backend.log;
  }

  lemma TakeSane(c: Config, z: System, settled: Option<seq<Conflict>>)
    requires c.Valid() && Sane(c, z) && Enabled(c, z, Take(settled))
    ensures Sane(c, Do(c, z, Take(settled)))
  {
    var p := PartsOf(c.order, z.phase.got);
    assert forall k :: 0 <= k < 3 ==> ReadOk(c, z, z.phase.got[k]);
    SequenceGrows(c.backend, p.team, z.committed);
    assert c.Read(p, settled).sequence == c.backend.SequenceOf(p.team);
  }

  lemma DoSane(c: Config, z: System, st: Step)
    requires c.Valid() && Sane(c, z) && Enabled(c, z, st)
    ensures Sane(c, Do(c, z, st))
  {
    match st
    case Commit => SequenceGrows(c.backend, z.committed, z.committed + 1);
    case Bring(i) => DeliverSane(c, z, i);
    case Settle =>
    case ReadNext =>
    case Fail =>
    case Take(settled) => TakeSane(c, z, settled);
  }

  // ---------------------------------------------------------------- any order of reads

  // Some structural event would be at or below the cursor of a store loaded
  // when the team is read with it committed.
  ghost predicate CursorPasses(c: Config) {
    exists i, n: nat :: 0 <= i < n <= |c.backend.log| && Passed(c, i, n)
  }

  ghost predicate Passed(c: Config, i: int, n: nat)
    requires 0 <= i < n <= |c.backend.log|
  {
    c.backend.log[i].structural && SequenceAt(c.backend.log, i) <= CursorFor(c.backend.SequenceOf(n), c.backfill)
  }

  ghost predicate Shown(c: Config, z: System) {
    !z.failed && (z.phase.Head? || (z.phase.Draining? && !z.phase.due)) ==> Fresh(c.backend.log, z.parts, z.store.sequence)
  }

  // A burst that shows nothing new moves the cursor past nothing that would
  // have to show.
  lemma QuietDelivery(c: Config, z: System, i: nat)
    requires c.Valid() && Enabled(c, z, Bring(i)) && Fresh(c.backend.log, z.parts, z.store.sequence)
    requires Accepts(z.store, c.backend.log[i]) && !c.backend.log[i].structural
    ensures Fresh(c.backend.log, z.parts, c.backend.log[i].sequence)
  {
    var log, s := c.backend.log, z.store.sequence;
    forall k | 0 <= k < |log| && log[k].structural && SequenceAt(log, k) <= log[i].sequence ensures SequenceAt(log, k) <= s {
      if log[k].sequence > s {
        NextIsLeast(log, s, log[i], log[k]);
        if k < i { IncreasingAt(log, k, i); } else { IncreasingAt(log, i, k); }
      }
    }
  }

  lemma NextIsLeast(log: seq<Event>, s: int, e: Event, x: Event)
    requires Increasing(log) && [e] <= Above(log, s) && x in log && x.sequence > s
    ensures e.sequence <= x.sequence
  {
    AboveIncreasing(log, s);
    AboveMembers(log, s);
    var a := Above(log, s);
    var k :| 0 <= k < |a| && a[k] == x;
    assert a[0] == [e][0];
    if k > 0 { IncreasingAt(a, 0, k); }
  }

  lemma DeliverShown(c: Config, z: System, i: nat)
    requires c.Valid() && Sane(c, z) && Enabled(c, z, Bring(i)) && Shown(c, z)
    ensures Shown(c, Do(c, z, Bring(i)))
  {
    var y := Do(c, z, Bring(i));
    if !y.failed && !y.phase.due && Accepts(z.store, c.backend.log[i]) {
      assert c.backend.log[i] in c.backend.log;
      QuietDelivery(c, z, i);
    }
  }

  lemma TakeShown(c: Config, z: System, settled: Option<seq<Conflict>>)
    requires c.Valid() && Sane(c, z) && Enabled(c, z, Take(settled))
    requires c.order[0] == Team || !CursorPasses(c)
    ensures Shown(c, Do(c, z, Take(settled)))
  {
    var got, b, p := z.phase.got, c.backend, PartsOf(c.order, z.phase.got);
    assert forall k :: 0 <= k < 3 ==> ReadOk(c, z, got[k]);
    if !z.phase.loading {
      FreshWhen(b, p, z.store.sequence);
    } else {
      LoadShown(c, z, p, settled);
    }
  }

  lemma LoadShown(c: Config, z: System, p: Parts, settled: Option<seq<Conflict>>)
    requires c.Valid() && Sane(c, z) && z.phase.Reading? && |z.phase.got| == 3 && p == PartsOf(c.order, z.phase.got)
    requires c.order[0] == Team || !CursorPasses(c)
    ensures Fresh(c.backend.log, p, ResumeCursor(c.Read(p, settled)))
  {
    var got, b := z.phase.got, c.backend;
    assert forall k :: 0 <= k < 3 ==> ReadOk(c, z, got[k]);
    SequenceGrows(b, 0, p.team);
    var cursor := CursorFor(b.SequenceOf(p.team), c.backfill);
    assert ResumeCursor(c.Read(p, settled)) == cursor;
    if c.order[0] == Team {
      SequenceGrows(b, p.team, p.contracts);
      SequenceGrows(b, p.team, p.decisions);
      FreshWhen(b, p, cursor);
    } else {
      forall i | 0 <= i < |b.log| && b.log[i].structural && SequenceAt(b.log, i) <= cursor ensures false {
        AmongFirst(b, p.team, i);
        assert Passed(c, i, p.team);
      }
    }
  }

  lemma DoShown(c: Config, z: System, st: Step)
    requires c.Valid() && Sane(c, z) && Enabled(c, z, st) && Shown(c, z)
    requires c.order[0] == Team || !CursorPasses(c)
    ensures Shown(c, Do(c, z, st))
  {
    match st
    case Commit =>
    case Bring(i) => DeliverShown(c, z, i);
    case Settle =>
    case ReadNext =>
    case Fail =>
    case Take(settled) => TakeShown(c, z, settled);
  }

  lemma {:induction false} RunShown(c: Config, z: System, steps: seq<Step>)
    requires c.Valid() && Sane(c, z) && Shown(c, z) && CanRun(c, z, steps)
    requires c.order[0] == Team || !CursorPasses(c)
    ensures Shown(c, Run(c, z, steps))
    decreases |steps|
  {
    if steps != [] {
      DoSane(c, z, steps[0]);
      DoShown(c, z, steps[0]);
      RunShown(c, Do(c, z, steps[0]), steps[1..]);
    }
  }

  // ---------------------------------------------------------------- the read order

  // Whatever happens, the board is fresh at every head of the loop at which no
  // refresh that was due has failed since the last good one.
  ghost predicate AlwaysFresh(c: Config)
    requires c.Valid()
  {
    forall steps :: CanRun(c, START, steps) ==> Shown(c, Run(c, START, steps))
  }

  lemma {:induction false} RunConcat(c: Config, z: System, a: seq<Step>, b: seq<Step>)
    requires c.Valid() && CanRun(c, z, a) && CanRun(c, Run(c, z, a), b)
    ensures CanRun(c, z, a + b) && Run(c, z, a + b) == Run(c, Run(c, z, a), b)
    decreases |a|
  {
    if a == [] {
      assert a + b == b;
    } else {
      assert (a + b)[1..] == a[1..] + b;
      RunConcat(c, Do(c, z, a[0]), a[1..], b);
    }
  }

  lemma RunOne(c: Config, z: System, st: Step)
    requires c.Valid() && Enabled(c, z, st)
    ensures CanRun(c, z, [st]) && Run(c, z, [st]) == Do(c, z, st)
  {
    assert [st][1..] == [];
  }

  // A run and one step more.
  lemma RunMore(c: Config, z: System, a: seq<Step>, st: Step)
    requires c.Valid() && CanRun(c, z, a) && Enabled(c, Run(c, z, a), st)
    ensures CanRun(c, z, a + [st]) && Run(c, z, a + [st]) == Do(c, Run(c, z, a), st)
  {
    RunOne(c, Run(c, z, a), st);
    RunConcat(c, z, a, [st]);
  }

  lemma {:induction false} RunCommits(c: Config, z: System, a: seq<Step>, n: nat) returns (steps: seq<Step>)
    requires c.Valid() && CanRun(c, z, a)
    requires Run(c, z, a).committed <= n <= |c.backend.log|
    ensures CanRun(c, z, steps) && Run(c, z, steps) == Run(c, z, a).(committed := n)
    decreases n
  {
    if Run(c, z, a).committed == n {
      steps := a;
    } else {
      var before := RunCommits(c, z, a, n - 1);
      RunMore(c, z, before, Commit);
      steps := before + [Commit];
    }
  }

  // The reads of a load at these committed lengths.
  lemma LoadAt(c: Config, n0: nat, n1: nat, n2: nat) returns (steps: seq<Step>)
    requires c.Valid() && n0 <= n1 <= n2 <= |c.backend.log|
    ensures CanRun(c, START, steps)
    ensures var z := Run(c, START, steps);
      var p := PartsOf(c.order, [n0, n1, n2]);
      && z.phase == Head && !z.failed && z.parts == p && z.store == Loaded(NEW, c.Read(p, None))
      && z.committed == n2 && z.newest == 0 && z.lastRead == c.Read(p, None).sequence && z.burst == []
  {
    var a0 := RunCommits(c, START, [], n0);
    RunMore(c, START, a0, ReadNext);
    var a1 := RunCommits(c, START, a0 + [ReadNext], n1);
    RunMore(c, START, a1, ReadNext);
    var a2 := RunCommits(c, START, a1 + [ReadNext], n2);
    RunMore(c, START, a2, ReadNext);
    RunMore(c, START, a2 + [ReadNext], Take(None));
    steps := a2 + [ReadNext] + [Take(None)];
  }

  lemma StaleLoad(c: Config, i: nat, n: nat)
    requires c.Valid() && c.order[0] != Team && i < n <= |c.backend.log| && Passed(c, i, n)
    ensures !AlwaysFresh(c)
  {
    var steps := LoadAt(c, i, n, n);
    var z := Run(c, START, steps);
    SequenceGrows(c.backend, 0, n);
    assert z.store.sequence == CursorFor(c.backend.SequenceOf(n), c.backfill);
    assert !Fresh(c.backend.log, z.parts, z.store.sequence);
  }

  // The order of the reads is what freshness rests on: whatever is committed,
  // delivered and read in between, the board is fresh at every such head if and
  // only if the team is read first, or no structural event can be at or below
  // the cursor of a load.
  lemma TeamMustComeFirst(c: Config)
    requires c.Valid()
    ensures AlwaysFresh(c) <==> c.order[0] == Team || !CursorPasses(c)
  {
    if c.order[0] == Team || !CursorPasses(c) {
      forall steps | CanRun(c, START, steps) ensures Shown(c, Run(c, START, steps)) {
        RunShown(c, START, steps);
      }
    } else {
      var i: int, n: nat :| 0 <= i < n <= |c.backend.log| && Passed(c, i, n);
      StaleLoad(c, i, n);
    }
  }

  // ---------------------------------------------------------------- with the team first

  ghost predicate Tracked(c: Config, z: System)
    requires c.Valid() && Sane(c, z)
  {
    var b := c.backend;
    && z.lastRead == b.SequenceOf(z.parts.team)
    && z.parts.team <= z.parts.contracts && z.parts.team <= z.parts.decisions
    && (z.phase.Reading? ==> forall k :: 0 <= k < |z.phase.got| ==> z.parts.team <= z.phase.got[k])
    && 0 <= z.newest <= z.store.sequence
    && (z.newest == 0 || exists i :: 0 <= i < |b.log| && b.log[i].structural && SequenceAt(b.log, i) == z.newest)
    && (forall i :: 0 <= i < |b.log| && b.log[i].structural && SequenceAt(b.log, i) <= z.store.sequence ==>
          SequenceAt(b.log, i) <= z.newest || SequenceAt(b.log, i) <= z.lastRead)
  }

  lemma TrackedIsExact(c: Config, z: System)
    requires c.Valid() && Sane(c, z) && Tracked(c, z)
    ensures Fresh(c.backend.log, z.parts, z.store.sequence) <==> z.newest <= z.lastRead
  {
    var b := c.backend;
    SequenceGrows(b, 0, z.parts.team);
    if z.newest <= z.lastRead {
      forall i | 0 <= i < |b.log| && b.log[i].structural && SequenceAt(b.log, i) <= z.store.sequence
        ensures i < z.parts.team
      {
        AmongFirst(b, z.parts.team, i);
      }
    } else {
      var i :| 0 <= i < |b.log| && b.log[i].structural && SequenceAt(b.log, i) == z.newest;
      AmongFirst(b, z.parts.team, i);
    }
  }

  lemma BringTracked(c: Config, z: System, i: nat)
    requires c.Valid() && Sane(c, z) && Enabled(c, z, Bring(i)) && Tracked(c, z)
    ensures Sane(c, Do(c, z, Bring(i))) && Tracked(c, Do(c, z, Bring(i)))
  {
    DeliverSane(c, z, i);
    var log, e := c.backend.log, c.backend.log[i];
    assert e in log;
    if Accepts(z.store, e) {
      forall k | 0 <= k < |log| && log[k].structural && z.store.sequence < SequenceAt(log, k) <= e.sequence
        ensures k == i
      {
        NextIsLeast(log, z.store.sequence, e, log[k]);
        if k < i { IncreasingAt(log, k, i); } else if i < k { IncreasingAt(log, i, k); }
      }
      assert SequenceAt(log, i) == e.sequence;
    }
  }

  lemma TakeTracked(c: Config, z: System, settled: Option<seq<Conflict>>)
    requires c.Valid() && c.order[0] == Team && Sane(c, z) && Enabled(c, z, Take(settled)) && Tracked(c, z)
    ensures Sane(c, Do(c, z, Take(settled))) && Tracked(c, Do(c, z, Take(settled)))
  {
    TakeSane(c, z, settled);
    var b, p, y := c.backend, PartsOf(c.order, z.phase.got), Do(c, z, Take(settled));
    assert forall k :: 0 <= k < 3 ==> ReadOk(c, z, z.phase.got[k]);
    SequenceGrows(b, z.parts.team, p.team);
    assert y.lastRead == b.SequenceOf(p.team);
    if z.phase.loading {
      assert y.store.sequence <= y.lastRead;
    }
  }

  lemma DoTracked(c: Config, z: System, st: Step)
    requires c.Valid() && c.order[0] == Team && Sane(c, z) && Enabled(c, z, st) && Tracked(c, z)
    ensures Sane(c, Do(c, z, st)) && Tracked(c, Do(c, z, st))
  {
    DoSane(c, z, st);
    match st
    case Commit =>
    case Bring(i) => BringTracked(c, z, i);
    case Settle =>
    case ReadNext =>
    case Fail =>
    case Take(settled) => TakeTracked(c, z, settled);
  }

  lemma {:induction false} RunTracked(c: Config, z: System, steps: seq<Step>)
    requires c.Valid() && c.order[0] == Team && Sane(c, z) && Tracked(c, z) && CanRun(c, z, steps)
    ensures Sane(c, Run(c, z, steps)) && Tracked(c, Run(c, z, steps))
    decreases |steps|
  {
    if steps != [] {
      DoTracked(c, z, steps[0]);
      RunTracked(c, Do(c, z, steps[0]), steps[1..]);
    }
  }

  // With the team read first, after any steps and however many refreshes have
  // failed, every structural event at or below the cursor shows on the board if
  // and only if the newest structural event accepted is at or below the
  // sequence of the last good snapshot.
  lemma FreshExactlyWhen(c: Config, steps: seq<Step>)
    requires c.Valid() && c.order[0] == Team && CanRun(c, START, steps)
    ensures var z := Run(c, START, steps); Fresh(c.backend.log, z.parts, z.store.sequence) <==> z.newest <= z.lastRead
  {
    RunTracked(c, START, steps);
    TrackedIsExact(c, Run(c, START, steps));
  }

  // At every head at which no due refresh is outstanding, then, it does: from
  // the load on, and again after the first good refresh that follows a failure.
  lemma FreshAtEveryHead(c: Config, steps: seq<Step>)
    requires c.Valid() && c.order[0] == Team && CanRun(c, START, steps)
    ensures var z := Run(c, START, steps);
      z.phase.Head? && !z.failed ==> z.newest <= z.lastRead && Fresh(c.backend.log, z.parts, z.store.sequence)
  {
    RunShown(c, START, steps);
    FreshExactlyWhen(c, steps);
  }

  // While every read succeeds, none is ever outstanding.
  lemma {:induction false} NeverMissed(c: Config, z: System, steps: seq<Step>)
    requires c.Valid() && CanRun(c, z, steps) && !z.failed && Fail !in steps
    ensures !Run(c, z, steps).failed
    decreases |steps|
  {
    if steps != [] {
      assert steps[0] in steps && forall st :: st in steps[1..] ==> st in steps;
      NeverMissed(c, Do(c, z, steps[0]), steps[1..]);
    }
  }

  // ---------------------------------------------------------------- what is shown, and the hub's turns

  // After the load, the entities are those that the three reads answered with, of
  // every kind, with settled conflicts after the team's own.
  ghost predicate ShowsParts(c: Config, z: System) {
    !(z.phase.Reading? && z.phase.loading) ==>
      && z.store.authoritative
      && exists settled :: ShowsReads(c.backend, z.parts, settled, z.store.world)
  }

  ghost predicate ShowsReads(b: Backend, p: Parts, settled: seq<Conflict>, w: Fold.World) {
    var t := b.team(p.team);
    HasRows(w, t.members, t.sessions, t.intents, t.claims, b.contracts(p.contracts), b.decisions(p.decisions),
      t.conflicts + settled)
  }

  lemma TakeShows(c: Config, p: Parts, settled: Option<seq<Conflict>>)
    ensures ShowsReads(c.backend, p, if settled.Some? then settled.value else [], WorldOf(c.Read(p, settled)))
  {
    TeamHasRows(c.Read(p, settled));
    var t := c.backend.team(p.team);
    assert t.conflicts + [] == t.conflicts;
  }

  lemma DoShowsParts(c: Config, z: System, st: Step)
    requires c.Valid() && Enabled(c, z, st) && ShowsParts(c, z)
    ensures ShowsParts(c, Do(c, z, st))
  {
    match st
    case Take(settled) => TakeShows(c, PartsOf(c.order, z.phase.got), settled);
    case _ =>
  }

  lemma {:induction false} BoardIsWhatWasRead(c: Config, z: System, steps: seq<Step>)
    requires c.Valid() && CanRun(c, z, steps) && ShowsParts(c, z)
    ensures ShowsParts(c, Run(c, z, steps))
    decreases |steps|
  {
    if steps != [] {
      DoShowsParts(c, z, steps[0]);
      BoardIsWhatWasRead(c, Do(c, z, steps[0]), steps[1..]);
    }
  }

  // The store is the one the hub's loop leaves after its turns and a burst.
  ghost predicate TakesTurns(z: System) {
    var s := AfterTurns(z.base, z.turns, true);
    && z.store == ApplyAll(s, z.burst)
    && (z.phase.Head? ==> z.burst == [])
    && (z.phase.Draining? ==> (z.phase.due <==> Structural(Accepted(s, z.burst)) > 0))
    && (z.phase.Reading? ==> if z.phase.loading then z.turns == [] && z.burst == [] else Structural(Accepted(s, z.burst)) > 0)
  }

  lemma {:induction false} TurnsMore(s: StoreState, turns: seq<Turn>, t: Turn)
    ensures AfterTurns(s, turns + [t], true) == AfterTurn(AfterTurns(s, turns, true), t, true)
    decreases |turns|
  {
    if turns == [] {
      assert [t][1..] == [];
      assert [] + [t] == [t];
    } else {
      assert (turns + [t])[1..] == turns[1..] + [t];
      TurnsMore(AfterTurn(s, turns[0], true), turns[1..], t);
    }
  }

  lemma BurstNext(s: StoreState, burst: seq<Event>, e: Event)
    ensures var t := ApplyAll(s, burst);
      && ApplyAll(s, burst + [e]) == Applied(t, e)
      && (Structural(Accepted(s, burst + [e])) > 0 <==> Structural(Accepted(s, burst)) > 0 || (Accepts(t, e) && e.structural))
  {
    var xs := burst + [e];
    assert xs[..|xs| - 1] == burst;
    AcceptedNext(s, xs);
    RowsOfOneMore(Accepted(s, burst), ApplyAll(s, burst), e);
  }

  lemma BringTurns(c: Config, z: System, i: nat)
    requires c.Valid() && Enabled(c, z, Bring(i)) && TakesTurns(z)
    ensures TakesTurns(Do(c, z, Bring(i)))
  {
    BurstNext(AfterTurns(z.base, z.turns, true), z.burst, c.backend.log[i]);
  }

  lemma DoTurns(c: Config, z: System, st: Step)
    requires c.Valid() && Enabled(c, z, st) && TakesTurns(z)
    ensures TakesTurns(Do(c, z, st))
  {
    match st
    case Commit =>
    case Bring(i) => BringTurns(c, z, i);
    case Settle => TurnsMore(z.base, z.turns, Turn(z.burst, None));
    case ReadNext =>
    case Fail => TurnsMore(z.base, z.turns, Turn(z.burst, None));
    case Take(settled) => TurnsMore(z.base, z.turns, Turn(z.burst, Some(c.Read(PartsOf(c.order, z.phase.got), settled))));
  }

  lemma {:induction false} RunTakesTurns(c: Config, z: System, steps: seq<Step>)
    requires c.Valid() && CanRun(c, z, steps) && TakesTurns(z)
    ensures TakesTurns(Run(c, z, steps))
    decreases |steps|
  {
    if steps != [] {
      DoTurns(c, z, steps[0]);
      RunTakesTurns(c, Do(c, z, steps[0]), steps[1..]);
    }
  }

  // ---------------------------------------------------------------- two failures

  // The first event is brought in after the load and its refresh fails.
  lemma BringAndFail(c: Config, a: seq<Step>, i: nat) returns (steps: seq<Step>)
    requires c.Valid() && CanRun(c, START, a) && Run(c, START, a).phase == Head
    requires Enabled(c, Run(c, START, a), Bring(i)) && Accepts(Run(c, START, a).store, c.backend.log[i]) && c.backend.log[i].structural
    ensures CanRun(c, START, steps)
    ensures var z, y := Run(c, START, a), Run(c, START, steps);
      && y.phase == Head && y.failed && y.parts == z.parts && y.lastRead == z.lastRead
      && y.store == Applied(z.store, c.backend.log[i]) && y.newest == c.backend.log[i].sequence
  {
    RunMore(c, START, a, Bring(i));
    RunMore(c, START, a + [Bring(i)], Settle);
    RunMore(c, START, a + [Bring(i)] + [Settle], Fail);
    steps := a + [Bring(i)] + [Settle] + [Fail];
  }

  // A new structural event whose refresh fails does not show.
  lemma FailedRefreshIsStale(c: Config) returns (steps: seq<Step>)
    requires c.Valid() && c.backend.log != [] && c.backend.log[0].structural
    ensures CanRun(c, START, steps)
    ensures var z := Run(c, START, steps);
      z.phase.Head? && z.failed && !Fresh(c.backend.log, z.parts, z.store.sequence)
  {
    var a := LoadAt(c, 0, 0, 0);
    var b := RunCommits(c, START, a, 1);
    var log := c.backend.log;
    assert log[0] in log;
    AboveEverything(log, 0);
    assert [log[0]] <= log;
    steps := BringAndFail(c, b, 0);
    assert SequenceAt(log, 0) <= Run(c, START, steps).store.sequence;
  }

  // An event of the history brought in again does, though its refresh failed:
  // the load had read it already.
  lemma FailedRefreshMayBeFresh(c: Config) returns (steps: seq<Step>)
    requires c.Valid() && c.order[0] == Team && |c.backend.log| == 2 && c.backend.log[1].structural
    requires c.backfill == c.backend.log[1].sequence - c.backend.log[0].sequence
    ensures CanRun(c, START, steps)
    ensures var z := Run(c, START, steps);
      z.phase.Head? && z.failed && Fresh(c.backend.log, z.parts, z.store.sequence)
  {
    var log := c.backend.log;
    assert log[0] in log && log[1] in log;
    IncreasingAt(log, 0, 1);
    var a := LoadAt(c, 2, 2, 2);
    assert log[..2] == log;
    assert Run(c, START, a).store.sequence == log[0].sequence;
    AboveCut(log, 1);
    assert log[1..] == [log[1]];
    steps := BringAndFail(c, a, 1);
    FreshExactlyWhen(c, steps);
  }

  // Events re-delivered for history raise the board revision again: after the
  // load it is the backend's plus one for every structural event logged since.
  lemma RevisionAfterBackfill(s: StoreState, ts: TeamState, evs: seq<Event>)
    ensures ApplyAll(Loaded(s, ts), evs).boardRevision == ts.boardRevision + Structural(Accepted(Loaded(s, ts), evs))
  {
    RevisionCountsStructural(Loaded(s, ts), evs);
  }
}
