// How a browser's connection comes about: the hub logs and broadcasts in single
// steps (frontend/internal/hub/hub.go, frontend/internal/state/store.go), and
// a connection's own three steps fall anywhere between them
// (frontend/internal/web/server.go).
module Handshakes {
  import opened Model
  import opened Logs
  import opened Store
  import opened StoreRuns
  import opened Hub
  import opened Resume

  // What the hub has logged and broadcast; a row is owed between the two.
  datatype HubState = HubState(log: seq<Event>, frames: seq<Frame>, owed: bool)

  datatype Step = Logs(event: Event) | Row | Repaint(revision: int)

  predicate Enabled(w: HubState, st: Step) {
    if st.Row? then w.owed && w.log != [] else !w.owed
  }

  function Do(w: HubState, st: Step, c: int): HubState
    requires Enabled(w, st)
  {
    match st
    case Logs(e) => HubState(w.log + [e], w.frames, true)
    case Row => HubState(w.log, w.frames + [Timeline(w.log[|w.log| - 1])], false)
    case Repaint(v) => HubState(w.log, w.frames + [Board(LastSequence(w.log, c), v)], false)
  }

  predicate CanRun(w: HubState, steps: seq<Step>, c: int)
    decreases |steps|
  {
    steps != [] ==> Enabled(w, steps[0]) && CanRun(Do(w, steps[0], c), steps[1..], c)
  }

  function After(w: HubState, steps: seq<Step>, c: int): HubState
    requires CanRun(w, steps, c)
    decreases |steps|
  {
    if steps == [] then w else After(Do(w, steps[0], c), steps[1..], c)
  }

  // Every logged event has its row, but for the one that is owed.
  predicate Settled(w: HubState) {
    RowCount(w.frames) + (if w.owed then 1 else 0) == |w.log|
  }

  lemma OneMoreFrame(frames: seq<Frame>, f: Frame)
    ensures RowCount(frames + [f]) == RowCount(frames) + (if f.Timeline? then 1 else 0)
  {
    assert (frames + [f])[..|frames|] == frames;
  }

  lemma DoSettled(w: HubState, st: Step, c: int)
    requires Settled(w) && Enabled(w, st)
    ensures Settled(Do(w, st, c))
  {
    match st
    case Logs(_) =>
    case Row => OneMoreFrame(w.frames, Timeline(w.log[|w.log| - 1]));
    case Repaint(v) => OneMoreFrame(w.frames, Board(LastSequence(w.log, c), v));
  }

  lemma {:induction false} AfterConcat(w: HubState, a: seq<Step>, b: seq<Step>, c: int)
    requires CanRun(w, a, c) && CanRun(After(w, a, c), b, c)
    ensures CanRun(w, a + b, c) && After(w, a + b, c) == After(After(w, a, c), b, c)
    decreases |a|
  {
    if a == [] {
      assert a + b == b;
    } else {
      assert (a + b)[1..] == a[1..] + b;
      AfterConcat(Do(w, a[0], c), a[1..], b, c);
    }
  }

  // A run cut in two is the first part and then the second.
  lemma {:induction false} RunSplits(w: HubState, steps: seq<Step>, c: int, t: nat)
    requires CanRun(w, steps, c) && t <= |steps|
    ensures CanRun(w, steps[..t], c) && CanRun(After(w, steps[..t], c), steps[t..], c)
    ensures After(After(w, steps[..t], c), steps[t..], c) == After(w, steps, c)
    decreases t
  {
    if t == 0 {
      assert steps[0..] == steps;
    } else {
      assert steps[..t][1..] == steps[1..][..t - 1] && steps[1..][t - 1..] == steps[t..];
      RunSplits(Do(w, steps[0], c), steps[1..], c, t - 1);
    }
  }

  // The log and the broadcasts only grow, and what is broadcast from a point on
  // follows the rows broadcast before it.
  lemma {:induction false} RunFollows(w: HubState, steps: seq<Step>, c: int)
    requires CanRun(w, steps, c) && Settled(w)
    ensures var z := After(w, steps, c);
      Settled(z) && w.log <= z.log && w.frames <= z.frames && Follows(z.frames[|w.frames|..], z.log, RowCount(w.frames), c)
    decreases |steps|
  {
    if steps != [] {
      var next := Do(w, steps[0], c);
      DoSettled(w, steps[0], c);
      RunFollows(next, steps[1..], c);
      FollowsFromStep(w, steps[0], next, After(w, steps, c), c);
    }
  }

  lemma FollowsFromStep(w: HubState, st: Step, next: HubState, z: HubState, c: int)
    requires Settled(w) && Enabled(w, st) && next == Do(w, st, c)
    requires next.log <= z.log && next.frames <= z.frames
    requires Follows(z.frames[|next.frames|..], z.log, RowCount(next.frames), c)
    ensures Follows(z.frames[|w.frames|..], z.log, RowCount(w.frames), c)
  {
    match st
    case Logs(_) =>
    case Row => FollowsFromFrame(w, Timeline(w.log[|w.log| - 1]), next, z, c);
    case Repaint(v) => FollowsFromFrame(w, Board(LastSequence(w.log, c), v), next, z, c);
  }

  lemma FollowsFromFrame(w: HubState, f: Frame, next: HubState, z: HubState, c: int)
    requires w.log <= z.log && next.frames == w.frames + [f] <= z.frames
    requires Follows(z.frames[|next.frames|..], z.log, RowCount(next.frames), c)
    requires if f.Timeline? then RowCount(w.frames) + 1 == |w.log| && f.event == w.log[|w.log| - 1]
             else RowCount(w.frames) == |w.log| && f.cursor == LastSequence(w.log, c)
    ensures Follows(z.frames[|w.frames|..], z.log, RowCount(w.frames), c)
  {
    OneMoreFrame(w.frames, f);
    var rest, last := z.frames[|w.frames|..], |w.log| - 1;
    assert rest[0] == next.frames[|w.frames|] == f && rest[1..] == z.frames[|next.frames|..];
    if f.Timeline? {
      assert z.log[last] == w.log[last];
    } else {
      assert z.log[..|w.log|] == w.log;
    }
  }

  // ---------------------------------------------------------------- the loop in steps

  function EventSteps(evs: seq<Event>): seq<Step>
    decreases |evs|
  {
    if evs == [] then [] else [Logs(evs[0]), Row] + EventSteps(evs[1..])
  }

  function TurnSteps(s: StoreState, t: Turn, live: bool): seq<Step> {
    EventSteps(Accepted(s, t.burst)) + (if Repaints(s, t) then [Repaint(AfterTurn(s, t, live).boardRevision)] else [])
  }

  function LoopSteps(s: StoreState, turns: seq<Turn>, live: bool): seq<Step>
    decreases |turns|
  {
    if turns == [] then [] else TurnSteps(s, turns[0], live) + LoopSteps(AfterTurn(s, turns[0], live), turns[1..], live)
  }

  lemma {:induction false} EventStepsRun(w: HubState, evs: seq<Event>, c: int)
    requires !w.owed
    ensures CanRun(w, EventSteps(evs), c)
    ensures After(w, EventSteps(evs), c) == HubState(w.log + evs, w.frames + Rows(evs), false)
    decreases |evs|
  {
    if evs == [] {
      assert w.log + [] == w.log && w.frames + Rows([]) == w.frames;
    } else {
      var e := evs[0];
      var one := HubState(w.log + [e], w.frames + [Timeline(e)], false);
      var rest := EventSteps(evs[1..]);
      EventStepsRun(one, evs[1..], c);
      LogThenRow(w, e, rest, c);
      assert w.log + [e] + evs[1..] == w.log + evs;
      assert w.frames + [Timeline(e)] + Rows(evs[1..]) == w.frames + Rows(evs);
    }
  }

  lemma LogThenRow(w: HubState, e: Event, rest: seq<Step>, c: int)
    requires !w.owed
    requires CanRun(HubState(w.log + [e], w.frames + [Timeline(e)], false), rest, c)
    ensures CanRun(w, [Logs(e), Row] + rest, c)
    ensures After(w, [Logs(e), Row] + rest, c) == After(HubState(w.log + [e], w.frames + [Timeline(e)], false), rest, c)
  {
    var all := [Logs(e), Row] + rest;
    assert all[1..] == [Row] + rest && all[1..][1..] == rest;
  }

  lemma TurnStepsRun(w: HubState, s: StoreState, t: Turn, live: bool, c: int)
    requires !w.owed && LastSequence(w.log, c) == s.sequence
    ensures CanRun(w, TurnSteps(s, t, live), c)
    ensures After(w, TurnSteps(s, t, live), c)
         == HubState(w.log + Accepted(s, t.burst), w.frames + TurnFrames(s, t, live), false)
  {
    var a, r := Accepted(s, t.burst), AfterTurn(s, t, live);
    EventStepsRun(w, a, c);
    TurnCursor(w.log, s, t, live, c);
    if Repaints(s, t) {
      var mid := After(w, EventSteps(a), c);
      assert [Repaint(r.boardRevision)][1..] == [];
      AfterConcat(w, EventSteps(a), [Repaint(r.boardRevision)], c);
      assert w.frames + Rows(a) + [Board(r.sequence, r.boardRevision)] == w.frames + TurnFrames(s, t, live);
    } else {
      assert EventSteps(a) + [] == EventSteps(a) && Rows(a) + [] == Rows(a);
    }
  }

  lemma TurnsJoin(w: HubState, next: HubState, a: seq<Step>, b: seq<Step>, z: HubState, c: int)
    requires CanRun(w, a, c) && After(w, a, c) == next && CanRun(next, b, c) && After(next, b, c) == z
    ensures CanRun(w, a + b, c) && After(w, a + b, c) == z
  {
    AfterConcat(w, a, b, c);
  }

  // The hub's loop is a run of such steps.
  lemma {:induction false} LoopStepsRun(w: HubState, s: StoreState, turns: seq<Turn>, live: bool, c: int)
    requires !w.owed && LastSequence(w.log, c) == s.sequence
    ensures CanRun(w, LoopSteps(s, turns, live), c)
    ensures After(w, LoopSteps(s, turns, live), c)
         == HubState(w.log + History(s, turns, live), w.frames + AllFrames(s, turns, live), false)
    decreases |turns|
  {
    if turns == [] {
      assert w.log + [] == w.log && w.frames + [] == w.frames;
    } else {
      var t, next := TurnRuns(w, s, turns[0], live, c);
      LoopStepsRun(next, t, turns[1..], live, c);
      LoopStepsJoin(w, next, s, t, turns, live, c);
    }
  }

  lemma LoopStepsJoin(w: HubState, next: HubState, s: StoreState, t: StoreState, turns: seq<Turn>, live: bool, c: int)
    requires turns != [] && t == AfterTurn(s, turns[0], live)
    requires next == HubState(w.log + Accepted(s, turns[0].burst), w.frames + TurnFrames(s, turns[0], live), false)
    requires CanRun(w, TurnSteps(s, turns[0], live), c) && After(w, TurnSteps(s, turns[0], live), c) == next
    requires CanRun(next, LoopSteps(t, turns[1..], live), c)
    requires After(next, LoopSteps(t, turns[1..], live), c)
          == HubState(next.log + History(t, turns[1..], live), next.frames + AllFrames(t, turns[1..], live), false)
    ensures CanRun(w, LoopSteps(s, turns, live), c)
    ensures After(w, LoopSteps(s, turns, live), c)
         == HubState(w.log + History(s, turns, live), w.frames + AllFrames(s, turns, live), false)
  {
    var h, fs := History(t, turns[1..], live), AllFrames(t, turns[1..], live);
    var a, f := Accepted(s, turns[0].burst), TurnFrames(s, turns[0], live);
    TurnsJoin(w, next, TurnSteps(s, turns[0], live), LoopSteps(t, turns[1..], live),
      HubState(next.log + h, next.frames + fs, false), c);
    JoinedParts(w, a, h, f, fs);
  }

  lemma JoinedParts(w: HubState, a: seq<Event>, h: seq<Event>, f: seq<Frame>, fs: seq<Frame>)
    ensures (w.log + a) + h == w.log + (a + h) && (w.frames + f) + fs == w.frames + (f + fs)
  {
  }

  lemma TurnRuns(w: HubState, s: StoreState, turn: Turn, live: bool, c: int) returns (t: StoreState, next: HubState)
    requires !w.owed && LastSequence(w.log, c) == s.sequence
    ensures t == AfterTurn(s, turn, live)
    ensures next == HubState(w.log + Accepted(s, turn.burst), w.frames + TurnFrames(s, turn, live), false)
    ensures CanRun(w, TurnSteps(s, turn, live), c) && After(w, TurnSteps(s, turn, live), c) == next
    ensures LastSequence(next.log, c) == t.sequence
  {
    t := AfterTurn(s, turn, live);
    next := HubState(w.log + Accepted(s, turn.burst), w.frames + TurnFrames(s, turn, live), false);
    TurnStepsRun(w, s, turn, live, c);
    TurnCursor(w.log, s, turn, live, c);
  }

  lemma {:induction false} HistoryInOrder(s: StoreState, turns: seq<Turn>, live: bool)
    ensures Increasing(History(s, turns, live)) && AllAbove(History(s, turns, live), s.sequence)
    decreases |turns|
  {
    if turns != [] {
      var a, t := Accepted(s, turns[0].burst), AfterTurn(s, turns[0], live);
      AcceptedInOrder(s, turns[0].burst);
      HistoryInOrder(t, turns[1..], live);
      IncreasingConcat(a, History(t, turns[1..], live), t.sequence);
    }
  }

  // ---------------------------------------------------------------- connections

  // The run at whose steps a connection subscribed, read its backlog and drew
  // its board.
  datatype Moments = Moments(subscribed: nat, read: nat, drawn: nat)

  ghost predicate InTurn(m: Moments, steps: seq<Step>) {
    m.subscribed <= m.read <= m.drawn <= |steps|
  }

  ghost function HandshakeAt(w: HubState, steps: seq<Step>, c: int, m: Moments): Handshake
    requires CanRun(w, steps, c) && InTurn(m, steps)
  {
    RunSplits(w, steps, c, m.subscribed);
    RunSplits(w, steps, c, m.read);
    RunSplits(w, steps, c, m.drawn);
    var at := After(w, steps[..m.subscribed], c);
    Handshake(RowCount(at.frames), |at.log|, |After(w, steps[..m.read], c).log|, |After(w, steps[..m.drawn], c).log|)
  }

  lemma LogGrows(w: HubState, steps: seq<Step>, c: int, t: nat, u: nat)
    requires CanRun(w, steps, c) && Settled(w) && t <= u <= |steps|
    ensures CanRun(w, steps[..t], c) && CanRun(w, steps[..u], c)
    ensures Settled(After(w, steps[..t], c)) && After(w, steps[..t], c).log <= After(w, steps[..u], c).log
  {
    RunSplits(w, steps, c, u);
    RunSplits(w, steps[..u], c, t);
    assert steps[..u][..t] == steps[..t];
    RunFollows(w, steps[..t], c);
    RunFollows(After(w, steps[..t], c), steps[..u][t..], c);
  }

  // However a connection's steps fall between the hub's, they see the log as a
  // handshake does, and what the hub broadcasts after the subscription follows it.
  lemma HandshakesArise(w: HubState, steps: seq<Step>, c: int, m: Moments)
    requires CanRun(w, steps, c) && Settled(w) && InTurn(m, steps)
    ensures var h, z := HandshakeAt(w, steps, c, m), After(w, steps, c);
      && Ordered(h, z.log)
      && CanRun(w, steps[..m.subscribed], c)
      && var from := |After(w, steps[..m.subscribed], c).frames|;
         from <= |z.frames| && Follows(z.frames[from..], z.log, h.shown, c)
  {
    LogGrows(w, steps, c, m.subscribed, m.read);
    LogGrows(w, steps, c, m.read, m.drawn);
    LogGrows(w, steps, c, m.drawn, |steps|);
    assert steps[..|steps|] == steps;
    RunSplits(w, steps, c, m.subscribed);
    RunFollows(After(w, steps[..m.subscribed], c), steps[m.subscribed..], c);
  }

  lemma {:induction false} FollowsLess(frames: seq<Frame>, less: seq<Frame>, log: seq<Event>, n: nat, c: int)
    requires Follows(frames, log, n, c) && less <= frames
    ensures Follows(less, log, n, c)
    decreases |frames|
  {
    if less != [] {
      FollowsLess(frames[1..], less[1..], log, if frames[0].Timeline? then n + 1 else n, c);
    }
  }

  const START := HubState([], [], false)

  // The hub after so many steps of its loop, from a loaded store.
  ghost function LoopAt(s: StoreState, turns: seq<Turn>, live: bool, t: nat): HubState
    requires t <= |LoopSteps(s, turns, live)|
  {
    LoopStepsRun(START, s, turns, live, s.sequence);
    RunSplits(START, LoopSteps(s, turns, live), s.sequence, t);
    After(START, LoopSteps(s, turns, live)[..t], s.sequence)
  }

  ghost function LoopHandshake(s: StoreState, turns: seq<Turn>, live: bool, m: Moments): (h: Handshake)
    requires InTurn(m, LoopSteps(s, turns, live))
    ensures Ordered(h, History(s, turns, live))
  {
    LoopStepsRun(START, s, turns, live, s.sequence);
    HandshakesArise(START, LoopSteps(s, turns, live), s.sequence, m);
    assert [] + History(s, turns, live) == History(s, turns, live);
    HandshakeAt(START, LoopSteps(s, turns, live), s.sequence, m)
  }

  // The connection of any subscriber of a hub that has run its loop: what it
  // was sent, whether it is still registered or not, and the handshake of the
  // moments of its start, make a possible connection, whatever id it asked with.
  lemma HubMakesConnections(hub: Hub, sub: Subscriber, s: StoreState, turns: seq<Turn>, live: bool, m: Moments, k: Connection)
    requires hub.Valid() && sub in hub.issued
    requires s.sequence >= 0 && hub.broadcasts == AllFrames(s, turns, live)
    requires InTurn(m, LoopSteps(s, turns, live)) && sub.since == |LoopAt(s, turns, live, m.subscribed).frames|
    requires k.live == sub.Sent() && k.h == LoopHandshake(s, turns, live, m)
    requires CutOk(History(s, turns, live), s.sequence, k)
    ensures Possible(History(s, turns, live), s.sequence, k)
  {
    var log := History(s, turns, live);
    HistoryInOrder(s, turns, live);
    assert hub.Served(sub);
    LoopFollowsFrom(s, turns, live, m, sub.since);
    FollowsLess(hub.broadcasts[sub.since..], sub.Sent(), log, k.h.shown, s.sequence);
  }

  // What the loop broadcasts after a subscription follows the handshake.
  lemma LoopFollowsFrom(s: StoreState, turns: seq<Turn>, live: bool, m: Moments, since: nat)
    requires InTurn(m, LoopSteps(s, turns, live)) && since == |LoopAt(s, turns, live, m.subscribed).frames|
    ensures since <= |AllFrames(s, turns, live)|
    ensures Follows(AllFrames(s, turns, live)[since..], History(s, turns, live), LoopHandshake(s, turns, live, m).shown, s.sequence)
  {
    LoopStepsRun(START, s, turns, live, s.sequence);
    assert [] + History(s, turns, live) == History(s, turns, live);
    assert [] + AllFrames(s, turns, live) == AllFrames(s, turns, live);
    HandshakesArise(START, LoopSteps(s, turns, live), s.sequence, m);
  }

  // Where the store was loaded past what the team had logged up to its cursor,
  // that makes a possible visit.
  lemma HubMakesVisits(hub: Hub, sub: Subscriber, s: StoreState, turns: seq<Turn>, live: bool, m: Moments, k: Connection,
                       loaded: seq<Event>)
    requires hub.Valid() && sub in hub.issued
    requires s.sequence >= 0 && hub.broadcasts == AllFrames(s, turns, live)
    requires InTurn(m, LoopSteps(s, turns, live)) && sub.since == |LoopAt(s, turns, live, m.subscribed).frames|
    requires k.live == sub.Sent() && k.h == LoopHandshake(s, turns, live, m)
    requires CutOk(History(s, turns, live), s.sequence, k)
    requires Increasing(loaded) && forall e :: e in loaded ==> e.sequence <= s.sequence
    ensures PossibleVisit(loaded + History(s, turns, live), Visit(|loaded|, s.sequence, k))
  {
    var log := History(s, turns, live);
    HubMakesConnections(hub, sub, s, turns, live, m, k);
    HistoryInOrder(s, turns, live);
    IncreasingConcat(loaded, log, s.sequence);
    assert (loaded + log)[..|loaded|] == loaded && (loaded + log)[|loaded|..] == log;
  }
}
