// The store of one team (frontend/internal/state/store.go): the two cursors,
// the bounded log, and the entities behind pointers, changed in place.
module Store {
  import opened Entities
  import opened Filling
  import opened Fold
  import opened Folding
  import opened Model
  import opened Tables
  import opened Showing

  const MAX_EVENTS := 2000

  datatype StoreState = StoreState(
    sequence: int, boardRevision: int, events: seq<Event>, authoritative: bool, world: World)

  const NEW := StoreState(0, 0, [], false, EMPTY_WORLD)

  // A whole team as the backend's read API describes it.
  datatype TeamState = TeamState(
    sequence: int, boardRevision: int, resumeFrom: int,
    members: seq<Member>, sessions: seq<Session>, intents: seq<Intent>, claims: seq<Claim>,
    contracts: seq<Contract>, decisions: seq<Decision>, conflicts: seq<Conflict>)

  // ---------------------------------------------------------------- specification

  function Trimmed(es: seq<Event>): seq<Event> {
    if |es| > MAX_EVENTS then es[|es| - MAX_EVENTS..] else es
  }

  // An event without a sequence takes the next one.
  function Numbered(s: StoreState, ev: Event): Event {
    if ev.sequence == 0 then ev.(sequence := s.sequence + 1) else ev
  }

  predicate Accepts(s: StoreState, ev: Event) {
    Numbered(s, ev).sequence > s.sequence
  }

  function Stamped(s: StoreState, ev: Event): Event {
    Numbered(s, ev).(boardRevision := if ev.structural then s.boardRevision + 1 else s.boardRevision)
  }

  function Applied(s: StoreState, ev: Event): StoreState {
    if !Accepts(s, ev) then s
    else
      var e := Stamped(s, ev);
      StoreState(e.sequence, e.boardRevision, Trimmed(s.events + [e]), s.authoritative,
        if s.authoritative then s.world else Folded(s.world, e))
  }

  function WorldOf(ts: TeamState): World {
    World(Keyed(ts.members, (m: Member) => m.key), Keyed(ts.sessions, (s: Session) => s.key),
      Keyed(ts.intents, (i: Intent) => i.key), Keyed(ts.claims, (c: Claim) => c.key),
      Keyed(ts.contracts, (c: Contract) => c.key), Keyed(ts.decisions, (d: Decision) => d.key),
      Keyed(ts.conflicts, (c: Conflict) => c.key))
  }

  function ResumeCursor(ts: TeamState): int {
    if 0 < ts.resumeFrom < ts.sequence then ts.resumeFrom else ts.sequence
  }

  function Loaded(s: StoreState, ts: TeamState): StoreState {
    StoreState(ResumeCursor(ts), ts.boardRevision, s.events, true, WorldOf(ts))
  }

  function Refreshed(s: StoreState, ts: TeamState): StoreState {
    s.(authoritative := true, world := WorldOf(ts),
       boardRevision := if ts.boardRevision > s.boardRevision then ts.boardRevision else s.boardRevision)
  }

  function EventsAfterSpec(es: seq<Event>, after: int): seq<Event>
    decreases |es|
  {
    if es == [] then []
    else
      var r := EventsAfterSpec(es[..|es| - 1], after);
      if es[|es| - 1].sequence > after then r + [es[|es| - 1]] else r
  }

  // The rows a whole team is replaced by.
  ghost function RowsOf(ts: TeamState): EntityView {
    MoreRowsOf(Filled(Filled(Filled(map[], ts.members, NewMember), ts.sessions, NewSession), ts.intents, NewIntent), ts)
  }

  ghost function MoreRowsOf(v: EntityView, ts: TeamState): EntityView {
    var w := Filled(Filled(v, ts.claims, NewClaim), ts.contracts, NewContract);
    Filled(Filled(w, ts.decisions, NewDecision), ts.conflicts, NewConflict)
  }

  lemma RowsShowTeam(ts: TeamState)
    ensures Shows(RowsOf(ts), WorldOf(ts))
  {
    var t := WorldOf(ts);
    var v, w := map[], EMPTY_WORLD;
    FillsMembers(v, w, ts.members, (m: Member) => m.key);
    v, w := Filled(v, ts.members, NewMember), w.(members := t.members);
    FillsSessions(v, w, ts.sessions, (s: Session) => s.key);
    v, w := Filled(v, ts.sessions, NewSession), w.(sessions := t.sessions);
    FillsIntents(v, w, ts.intents, (i: Intent) => i.key);
    v, w := Filled(v, ts.intents, NewIntent), w.(intents := t.intents);
    FillsClaims(v, w, ts.claims, (c: Claim) => c.key);
    v, w := Filled(v, ts.claims, NewClaim), w.(claims := t.claims);
    FillsContracts(v, w, ts.contracts, (c: Contract) => c.key);
    v, w := Filled(v, ts.contracts, NewContract), w.(contracts := t.contracts);
    FillsDecisions(v, w, ts.decisions, (d: Decision) => d.key);
    v, w := Filled(v, ts.decisions, NewDecision), w.(decisions := t.decisions);
    FillsConflicts(v, w, ts.conflicts, (c: Conflict) => c.key);
  }

  method FillRows(f: EntityRows, ts: TeamState)
    requires f.Valid()
    modifies f, f.table
    ensures f.Valid() && fresh(f.Repr - {f, f.table}) && f.view == RowsOf(ts)
  {
    f.Clear();
    Fill(f, ts.members, NewMember);
    Fill(f, ts.sessions, NewSession);
    Fill(f, ts.intents, NewIntent);
    FillMore(f, ts);
  }

  method FillMore(f: EntityRows, ts: TeamState)
    requires f.Valid()
    modifies f, f.table.Repr
    ensures f.Valid() && fresh(f.Repr - old(f.Repr)) && f.view == MoreRowsOf(old(f.view), ts)
  {
    Fill(f, ts.claims, NewClaim);
    Fill(f, ts.contracts, NewContract);
    Fill(f, ts.decisions, NewDecision);
    Fill(f, ts.conflicts, NewConflict);
  }

  // ---------------------------------------------------------------- the store

  // What a reader is given: copies of the rows, one level deep, and the log. The
  // copies of members and contracts point where the rows themselves do.
  datatype Snapshot = Copies(
    rows: map<RowKey, Row<Parent<Own, Child>>>, events: seq<Event>, sequence: int, boardRevision: int)

  class Store {
    var sequence: int
    var boardRevision: int
    var events: seq<Event>
    var snapshotAuthoritative: bool
    const rows: EntityRows
    ghost var world: World

    // The rows show the world.
    ghost predicate Valid()
      reads this`world, rows, rows.Repr
    {
      this !in rows.Repr && rows.Valid() && Shows(rows.view, world)
    }

    ghost function State(): StoreState
      reads this
    {
      StoreState(sequence, boardRevision, events, snapshotAuthoritative, world)
    }

    constructor ()
      ensures Valid() && fresh(rows) && fresh(rows.Repr) && State() == NEW
    {
      sequence, boardRevision, events, snapshotAuthoritative := 0, 0, [], false;
      rows := new Family();
      world := EMPTY_WORLD;
    }

    method Apply(event: Event) returns (ev: Event, ok: bool)
      requires Valid()
      modifies this, rows.Repr
      ensures Valid() && fresh(rows.Repr - old(rows.Repr)) && PointersKept(old(rows.table.view), rows.table.view)
      ensures State() == Applied(old(State()), event)
      ensures ok == Accepts(old(State()), event)
      ensures ev == if ok then Stamped(old(State()), event) else Numbered(old(State()), event)
    {
      ev, ok := Stamp(event);
      if ok {
        if !snapshotAuthoritative {
          Mutate(ev);
        }
        Append(ev);
      }
    }

    // The cursors move to an event above them.
    method Stamp(event: Event) returns (ev: Event, ok: bool)
      modifies this`sequence, this`boardRevision
      ensures ok == Accepts(old(State()), event)
      ensures ev == if ok then Stamped(old(State()), event) else Numbered(old(State()), event)
      ensures sequence == (if ok then ev.sequence else old(sequence))
      ensures boardRevision == (if ok then ev.boardRevision else old(boardRevision))
    {
      ev := event;
      if ev.sequence == 0 {
        ev := ev.(sequence := sequence + 1);
      }
      if ev.sequence <= sequence {
        return ev, false;
      }
      sequence := ev.sequence;
      if ev.structural {
        boardRevision := boardRevision + 1;
      }
      ev := ev.(boardRevision := boardRevision);
      ok := true;
    }

    method Append(ev: Event)
      modifies this`events
      ensures events == Trimmed(old(events) + [ev])
    {
      events := events + [ev];
      if |events| > MAX_EVENTS {
        events := events[|events| - MAX_EVENTS..];
      }
    }

    method EventsAfter(after: int) returns (r: seq<Event>)
      ensures r == EventsAfterSpec(events, after)
    {
      r := [];
      for i := 0 to |events|
        invariant r == EventsAfterSpec(events[..i], after)
      {
        if events[i].sequence > after {
          r := r + [events[i]];
        }
        assert events[..i + 1][..i] == events[..i];
      }
      assert events[..|events|] == events;
    }

    // The rows there were are left as they are.
    method Load(ts: TeamState)
      requires Valid()
      modifies this, rows, rows.table
      ensures Valid() && fresh(rows.Repr - {rows, rows.table})
      ensures State() == Loaded(old(State()), ts)
    {
      snapshotAuthoritative := true;
      Replace(ts);
      var cursor := ts.sequence;
      if ts.resumeFrom > 0 && ts.resumeFrom < cursor {
        cursor := ts.resumeFrom;
      }
      sequence, boardRevision := cursor, ts.boardRevision;
    }

    method Refresh(ts: TeamState)
      requires Valid()
      modifies this, rows, rows.table
      ensures Valid() && fresh(rows.Repr - {rows, rows.table})
      ensures State() == Refreshed(old(State()), ts)
    {
      snapshotAuthoritative := true;
      Replace(ts);
      if ts.boardRevision > boardRevision {
        boardRevision := ts.boardRevision;
      }
    }

    method Replace(ts: TeamState)
      requires Valid()
      modifies this`world, rows, rows.table
      ensures Valid() && fresh(rows.Repr - {rows, rows.table}) && world == WorldOf(ts)
    {
      FillRows(rows, ts);
      RowsShowTeam(ts);
      world := WorldOf(ts);
    }

    // The rows an event concerns are found or made, and changed in place.
    method Mutate(ev: Event)
      requires Valid()
      modifies this`world, rows.Repr
      ensures Valid() && fresh(rows.Repr - old(rows.Repr)) && PointersKept(old(rows.table.view), rows.table.view)
      ensures world == Folded(old(world), ev)
    {
      ShowsAfter(rows.view, world, ev);
      FoldEvent(rows, ev.change, ev.occurredAt);
      world := Folded(world, ev);
    }

    method Snapshot() returns (snap: Snapshot)
      requires Valid()
      ensures Values(snap.rows) == rows.table.view && forall k :: k in snap.rows ==> fresh(snap.rows[k])
      ensures snap.events == events && snap.sequence == sequence && snap.boardRevision == boardRevision
    {
      var copies := rows.Copy();
      snap := Copies(copies, events, sequence, boardRevision);
    }
  }
}
