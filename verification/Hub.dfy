// The hub of one team (frontend/internal/hub/hub.go): its store, its
// subscribers, and the loop that drains the feed and broadcasts frames.
module Hub {
  import opened Model
  import opened Logs
  import opened Store
  import opened StoreRuns

  // One SSE message: a timeline row for an event, or a repaint of the board.
  datatype Frame = Timeline(event: Event) | Board(cursor: int, revision: int)
  {
    function Id(): int { if Timeline? then event.sequence else cursor }
  }

  const CAPACITY := 256

  // ---------------------------------------------------------------- the loop, specified

  // One turn of the loop: the events drained in one go, and what re-reading
  // the backend's state answers if the turn asks for it (None: it failed).
  datatype Turn = Turn(burst: seq<Event>, read: Option<TeamState>)

  function Rows(evs: seq<Event>): seq<Frame> {
    seq(|evs|, i requires 0 <= i < |evs| => Timeline(evs[i]))
  }

  predicate Repaints(s: StoreState, t: Turn) {
    Structural(Accepted(s, t.burst)) > 0
  }

  // The state a turn leaves. A recording (not live) has no backend to re-read.
  function AfterTurn(s: StoreState, t: Turn, live: bool): StoreState {
    var r := ApplyAll(s, t.burst);
    if Repaints(s, t) && live && t.read.Some? then Refreshed(r, t.read.value) else r
  }

  // A row for every accepted event, then one repaint if any was structural.
  function TurnFrames(s: StoreState, t: Turn, live: bool): seq<Frame> {
    var r := AfterTurn(s, t, live);
    Rows(Accepted(s, t.burst)) + (if Repaints(s, t) then [Board(r.sequence, r.boardRevision)] else [])
  }

  function AfterTurns(s: StoreState, turns: seq<Turn>, live: bool): StoreState
    decreases |turns|
  {
    if turns == [] then s else AfterTurns(AfterTurn(s, turns[0], live), turns[1..], live)
  }

  function AllFrames(s: StoreState, turns: seq<Turn>, live: bool): seq<Frame>
    decreases |turns|
  {
    if turns == [] then []
    else TurnFrames(s, turns[0], live) + AllFrames(AfterTurn(s, turns[0], live), turns[1..], live)
  }

  // ---------------------------------------------------------------- subscribers

  // One open browser connection: a buffered channel and the hub's own flag.
  // Sending on a closed channel, or closing it twice, would panic.
  class Subscriber {
    var queue: seq<Frame>
    var channelClosed: bool
    var closed: bool
    ghost var received: seq<Frame>
    ghost var since: nat

    constructor (ghost since: nat)
      ensures queue == [] && received == [] && !channelClosed && !closed && this.since == since
    {
      queue, channelClosed, closed, received := [], false, false, [];
      this.since := since;
    }

    ghost function Sent(): seq<Frame>
      reads this
    {
      received + queue
    }

    method TrySend(f: Frame) returns (ok: bool)
      requires !channelClosed
      modifies this`queue
      ensures ok == (|old(queue)| < CAPACITY)
      ensures queue == if ok then old(queue) + [f] else old(queue)
    {
      ok := |queue| < CAPACITY;
      if ok {
        queue := queue + [f];
      }
    }

    method CloseChannel()
      requires !channelClosed
      modifies this`channelClosed
      ensures channelClosed
    {
      channelClosed := true;
    }
  }

  class Hub {
    const store: Store
    var subs: set<Subscriber>
    var closed: bool
    ghost var issued: set<Subscriber>
    ghost var broadcasts: seq<Frame>

    // What one subscriber has been sent: every broadcast since it subscribed
    // while it is registered, a prefix of them once it is not. It is registered
    // exactly while its channel is open.
    ghost predicate Served(s: Subscriber)
      reads this, s
    {
      && s.closed == s.channelClosed
      && (s in subs <==> !s.channelClosed)
      && |s.queue| <= CAPACITY
      && s.since <= |broadcasts|
      && s.Sent() <= broadcasts[s.since..]
      && (s in subs ==> s.Sent() == broadcasts[s.since..])
    }

    ghost predicate Valid()
      reads this, issued
    {
      && subs <= issued
      && (closed ==> subs == {})
      && forall s :: s in issued ==> Served(s)
    }

    // The store is sound, and no subscriber is part of it.
    ghost predicate Ready()
      reads this, issued, store, store.rows, store.rows.Repr
    {
      && Valid() && store.Valid() && this !in store.rows.Repr
      && forall s :: s in issued ==> s !in store.rows.Repr
    }

    constructor ()
      ensures Ready() && !closed && subs == {} && issued == {} && broadcasts == []
      ensures fresh(store) && store.State() == NEW
    {
      store := new Store();
      subs, closed, issued, broadcasts := {}, false, {}, [];
    }

    method Subscribe() returns (sub: Subscriber)
      requires Valid()
      modifies this
      ensures Valid() && fresh(sub) && issued == old(issued) + {sub} && closed == old(closed)
      ensures sub.Sent() == [] && sub.since == |broadcasts|
      ensures subs == if closed then old(subs) else old(subs) + {sub}
      ensures sub.channelClosed == closed && broadcasts == old(broadcasts)
    {
      sub := new Subscriber(|broadcasts|);
      issued := issued + {sub};
      if closed {
        sub.closed := true;
        sub.CloseChannel();
        return;
      }
      subs := subs + {sub};
    }

    method Unsubscribe(sub: Subscriber)
      requires Valid() && sub in issued
      modifies this`subs, sub`closed, sub`channelClosed
      ensures Valid() && subs == old(subs) - {sub} && sub.channelClosed
      ensures sub.Sent() == old(sub.Sent())
    {
      if sub in subs {
        subs := subs - {sub};
        if !sub.closed {
          sub.closed := true;
          sub.CloseChannel();
        }
      }
    }

    method Close()
      requires Valid()
      modifies this`subs, this`closed, subs`closed, subs`channelClosed
      ensures Valid() && closed && subs == {}
      ensures forall s :: s in issued ==> s.channelClosed && s.Sent() == old(s.Sent())
    {
      closed := true;
      ghost var before := subs;
      while subs != {}
        invariant closed && subs <= before && before <= issued
        invariant forall s :: s in issued ==> s.queue == old(s.queue) && s.received == old(s.received) && s.since == old(s.since)
        invariant forall s :: s in issued ==> s.closed == s.channelClosed == (s !in subs)
        decreases subs
      {
        var sub :| sub in subs;
        subs := subs - {sub};
        if !sub.closed {
          sub.closed := true;
          sub.CloseChannel();
        }
      }
      forall s | s in issued ensures Served(s) {
        assert old(Served(s));
      }
    }

    // Everyone registered gets the frame or, with a full buffer, is dropped.
    method Broadcast(f: Frame)
      requires Valid()
      modifies this`subs, this`broadcasts, subs
      ensures Valid() && broadcasts == old(broadcasts) + [f]
      ensures subs == set s | s in old(subs) && old(|s.queue|) < CAPACITY
      ensures forall s :: s in issued ==> s.received == old(s.received) && s.since == old(s.since)
      ensures forall s :: s in issued ==> s.queue == if s in subs then old(s.queue) + [f] else old(s.queue)
    {
      var todo := subs;
      ghost var done: set<Subscriber> := {};
      while todo != {}
        invariant todo <= old(subs) && done == old(subs) - todo
        invariant broadcasts == old(broadcasts)
        invariant forall s :: s in subs <==> s in old(subs) && (s in todo || old(|s.queue|) < CAPACITY)
        invariant forall s :: s in issued ==> s.received == old(s.received) && s.since == old(s.since)
        invariant forall s :: s in issued && s !in done ==>
          s.queue == old(s.queue) && s.closed == old(s.closed) && s.channelClosed == old(s.channelClosed)
        invariant forall s :: s in done ==>
          s.closed == s.channelClosed == (s !in subs) && s.queue == if s in subs then old(s.queue) + [f] else old(s.queue)
        decreases todo
      {
        var sub :| sub in todo;
        todo := todo - {sub};
        done := done + {sub};
        if !sub.closed {
          var ok := sub.TrySend(f);
          if !ok {
            subs := subs - {sub};
            sub.closed := true;
            sub.CloseChannel();
          }
        }
      }
      broadcasts := broadcasts + [f];
      forall s | s in issued ensures Served(s) {
        assert old(Served(s));
        var b := old(broadcasts)[s.since..];
        assert broadcasts[s.since..] == b + [f];
        if s in subs {
          assert s.Sent() == old(s.Sent()) + [f];
        }
      }
    }

    // A browser takes the next frame off its channel, if there is one.
    method Receive(sub: Subscriber) returns (f: Option<Frame>)
      requires Valid() && sub in issued
      modifies sub`queue, sub`received
      ensures Valid() && sub.Sent() == old(sub.Sent())
      ensures f == if old(sub.queue) == [] then None else Some(old(sub.queue)[0])
      ensures f.Some? ==> sub.received == old(sub.received) + [f.value]
    {
      if sub.queue == [] {
        return None;
      }
      f := Some(sub.queue[0]);
      assert sub.received + sub.queue == (sub.received + [sub.queue[0]]) + sub.queue[1..];
      sub.received := sub.received + [sub.queue[0]];
      sub.queue := sub.queue[1..];
    }

    // ------------------------------------------------------------ the loop

    method Ingest(ev: Event) returns (structural: bool)
      requires Ready()
      modifies this`subs, this`broadcasts, subs, store, store.rows.Repr
      ensures Ready() && fresh(store.rows.Repr - old(store.rows.Repr)) && subs <= old(subs)
      ensures store.State() == Applied(old(store.State()), ev)
      ensures var s := old(store.State());
        && broadcasts == old(broadcasts) + (if Accepts(s, ev) then [Timeline(Stamped(s, ev))] else [])
        && structural == (Accepts(s, ev) && ev.structural)
    {
      var applied, ok := Fold(ev);
      if !ok {
        return false;
      }
      Send(Timeline(applied));
      return applied.structural;
    }

    // The store takes an event; no subscriber is touched.
    method Fold(event: Event) returns (ev: Event, ok: bool)
      requires Ready()
      modifies store, store.rows.Repr
      ensures Ready() && fresh(store.rows.Repr - old(store.rows.Repr))
      ensures store.State() == Applied(old(store.State()), event) && ok == Accepts(old(store.State()), event)
      ensures ok ==> ev == Stamped(old(store.State()), event)
    {
      ev, ok := store.Apply(event);
    }

    method Reread(ts: TeamState)
      requires Ready()
      modifies store, store.rows.Repr
      ensures Ready() && fresh(store.rows.Repr - old(store.rows.Repr))
      ensures store.State() == Refreshed(old(store.State()), ts)
    {
      store.Refresh(ts);
    }

    // The subscribers are sent a frame; the store is not touched.
    method Send(f: Frame)
      requires Ready()
      modifies this`subs, this`broadcasts, subs
      ensures Ready() && subs <= old(subs) && broadcasts == old(broadcasts) + [f]
    {
      Broadcast(f);
    }

    method BroadcastBoard()
      requires Ready()
      modifies this`subs, this`broadcasts, subs
      ensures Ready() && subs <= old(subs)
      ensures broadcasts == old(broadcasts) + [Board(store.sequence, store.boardRevision)]
    {
      Send(Board(store.sequence, store.boardRevision));
    }

    method Drain(burst: seq<Event>) returns (structural: bool)
      requires Ready()
      modifies this`subs, this`broadcasts, subs, store, store.rows.Repr
      ensures Ready() && fresh(store.rows.Repr - old(store.rows.Repr)) && subs <= old(subs)
      ensures store.State() == ApplyAll(old(store.State()), burst)
      ensures broadcasts == old(broadcasts) + Rows(Accepted(old(store.State()), burst))
      ensures structural == (Structural(Accepted(old(store.State()), burst)) > 0)
    {
      structural := false;
      ghost var s := store.State();
      for i := 0 to |burst|
        invariant Ready() && fresh(store.rows.Repr - old(store.rows.Repr)) && subs <= old(subs)
        invariant store.State() == ApplyAll(s, burst[..i])
        invariant broadcasts == old(broadcasts) + Rows(Accepted(s, burst[..i]))
        invariant structural == (Structural(Accepted(s, burst[..i])) > 0)
      {
        DrainedNext(s, burst, i, old(broadcasts));
        var one := Ingest(burst[i]);
        if one {
          structural := true;
        }
      }
      assert burst[..|burst|] == burst;
    }

    // The loop of Run over the turns it takes.
    method Run(turns: seq<Turn>, live: bool)
      requires Ready()
      modifies this`subs, this`broadcasts, subs, store, store.rows.Repr
      ensures Ready() && fresh(store.rows.Repr - old(store.rows.Repr))
      ensures store.State() == AfterTurns(old(store.State()), turns, live)
      ensures broadcasts == old(broadcasts) + AllFrames(old(store.State()), turns, live)
    {
      ghost var s := store.State();
      for i := 0 to |turns|
        invariant Ready() && fresh(store.rows.Repr - old(store.rows.Repr)) && subs <= old(subs)
        invariant AfterTurns(store.State(), turns[i..], live) == AfterTurns(s, turns, live)
        invariant broadcasts + AllFrames(store.State(), turns[i..], live) == old(broadcasts) + AllFrames(s, turns, live)
      {
        TurnsNext(store.State(), turns, i, live, broadcasts);
        TakeTurn(turns[i], live);
      }
      assert broadcasts + [] == broadcasts;
    }

    method TakeTurn(t: Turn, live: bool)
      requires Ready()
      modifies this`subs, this`broadcasts, subs, store, store.rows.Repr
      ensures Ready() && fresh(store.rows.Repr - old(store.rows.Repr)) && subs <= old(subs)
      ensures store.State() == AfterTurn(old(store.State()), t, live)
      ensures broadcasts == old(broadcasts) + TurnFrames(old(store.State()), t, live)
    {
      var structural := Drain(t.burst);
      if structural {
        Repaint(t.read, live);
      }
    }

    method Repaint(read: Option<TeamState>, live: bool)
      requires Ready()
      modifies this`subs, this`broadcasts, subs, store, store.rows.Repr
      ensures Ready() && fresh(store.rows.Repr - old(store.rows.Repr)) && subs <= old(subs)
      ensures store.State() == if live && read.Some? then Refreshed(old(store.State()), read.value) else old(store.State())
      ensures broadcasts == old(broadcasts) + [Board(store.sequence, store.boardRevision)]
    {
      if live && read.Some? {
        Reread(read.value);
      }
      BroadcastBoard();
    }
  }

  lemma RowsOfOneMore(a: seq<Event>, t: StoreState, ev: Event)
    ensures var more := if Accepts(t, ev) then [Stamped(t, ev)] else [];
      && Rows(a + more) == Rows(a) + Rows(more)
      && Structural(a + more) == Structural(a) + (if Accepts(t, ev) && ev.structural then 1 else 0)
      && Rows(more) == (if Accepts(t, ev) then [Timeline(Stamped(t, ev))] else [])
  {
    if Accepts(t, ev) {
      assert (a + [Stamped(t, ev)])[..|a|] == a;
    } else {
      assert a + [] == a;
    }
  }

  lemma DrainedNext(s: StoreState, burst: seq<Event>, i: nat, sent: seq<Frame>)
    requires i < |burst|
    ensures var t, ev := ApplyAll(s, burst[..i]), burst[i]; var a, b := Accepted(s, burst[..i]), Accepted(s, burst[..i + 1]);
      && ApplyAll(s, burst[..i + 1]) == Applied(t, ev)
      && sent + Rows(b) == sent + Rows(a) + (if Accepts(t, ev) then [Timeline(Stamped(t, ev))] else [])
      && (Structural(b) > 0 <==> Structural(a) > 0 || (Accepts(t, ev) && ev.structural))
  {
    var xs := burst[..i + 1];
    assert xs[..|xs| - 1] == burst[..i];
    var t, a, ev := ApplyAll(s, burst[..i]), Accepted(s, burst[..i]), burst[i];
    AcceptedNext(s, xs);
    RowsOfOneMore(a, t, ev);
  }

  lemma AcceptedNext(s: StoreState, xs: seq<Event>)
    requires xs != []
    ensures var t, ev := ApplyAll(s, xs[..|xs| - 1]), xs[|xs| - 1];
      && ApplyAll(s, xs) == Applied(t, ev)
      && Accepted(s, xs) == Accepted(s, xs[..|xs| - 1]) + (if Accepts(t, ev) then [Stamped(t, ev)] else [])
  {
  }

  lemma TurnsNext(s: StoreState, turns: seq<Turn>, i: nat, live: bool, sent: seq<Frame>)
    requires i < |turns|
    ensures var t := AfterTurn(s, turns[i], live);
      && AfterTurns(s, turns[i..], live) == AfterTurns(t, turns[i + 1..], live)
      && sent + AllFrames(s, turns[i..], live) == sent + TurnFrames(s, turns[i], live) + AllFrames(t, turns[i + 1..], live)
  {
    assert turns[i..][1..] == turns[i + 1..];
  }

  // ---------------------------------------------------------------- what the frames show

  // The board revision somebody sees who has seen r and is sent these frames.
  function ShownRevision(frames: seq<Frame>, r: int): int
    decreases |frames|
  {
    if frames == [] then r
    else
      match frames[|frames| - 1]
      case Board(_, revision) => revision
      case Timeline(_) => ShownRevision(frames[..|frames| - 1], r)
  }

  lemma {:induction false} ShownConcat(a: seq<Frame>, b: seq<Frame>, r: int)
    ensures ShownRevision(a + b, r) == ShownRevision(b, ShownRevision(a, r))
    decreases |b|
  {
    if b == [] {
      assert a + b == a;
    } else {
      var n := |b| - 1;
      assert (a + b)[..|a + b| - 1] == a + b[..n];
      ShownConcat(a, b[..n], r);
    }
  }

  lemma {:induction false} RowsShowNothing(evs: seq<Event>, r: int)
    ensures ShownRevision(Rows(evs), r) == r
    decreases |evs|
  {
    if evs != [] {
      var n := |evs| - 1;
      assert Rows(evs)[..n] == Rows(evs[..n]);
      RowsShowNothing(evs[..n], r);
    }
  }

  lemma TurnKeepsUp(s: StoreState, t: Turn, live: bool)
    ensures ShownRevision(TurnFrames(s, t, live), s.boardRevision) == AfterTurn(s, t, live).boardRevision
  {
    var a := Accepted(s, t.burst);
    RevisionCountsStructural(s, t.burst);
    RowsShowNothing(a, s.boardRevision);
    if Repaints(s, t) {
      assert TurnFrames(s, t, live)[|a|].Board? && |TurnFrames(s, t, live)| == |a| + 1;
    } else {
      assert TurnFrames(s, t, live) == Rows(a);
    }
  }

  // Whoever is sent every frame sees, at every head of the loop, the board
  // revision the store is at.
  lemma {:induction false} BoardsKeepUp(s: StoreState, turns: seq<Turn>, live: bool)
    ensures ShownRevision(AllFrames(s, turns, live), s.boardRevision) == AfterTurns(s, turns, live).boardRevision
    decreases |turns|
  {
    if turns != [] {
      var t := AfterTurn(s, turns[0], live);
      TurnKeepsUp(s, turns[0], live);
      BoardsKeepUp(t, turns[1..], live);
      ShownConcat(TurnFrames(s, turns[0], live), AllFrames(t, turns[1..], live), s.boardRevision);
    }
  }

  function Bursts(turns: seq<Turn>): seq<Event> {
    if turns == [] then [] else turns[0].burst + Bursts(turns[1..])
  }

  // Over a recording, or while every read fails, the store takes the events one
  // after another and nothing else happens to it.
  lemma {:induction false} NothingReread(s: StoreState, turns: seq<Turn>, live: bool)
    requires live ==> forall t :: t in turns ==> t.read.None?
    ensures AfterTurns(s, turns, live) == ApplyAll(s, Bursts(turns))
    decreases |turns|
  {
    if turns != [] {
      var t := AfterTurn(s, turns[0], live);
      assert turns[0] in turns && forall x :: x in turns[1..] ==> x in turns;
      NothingReread(t, turns[1..], live);
      ApplyAllConcat(s, turns[0].burst, Bursts(turns[1..]));
    }
  }

  predicate IsBoard(f: Frame) { f.Board? }

  predicate IsStructural(f: Frame) { f.Timeline? && f.event.structural }

  ghost predicate Exists(frames: seq<Frame>, p: Frame -> bool) {
    exists f :: f in frames && p(f)
  }

  lemma {:induction false} SomeStructural(evs: seq<Event>)
    ensures Structural(evs) > 0 <==> Exists(Rows(evs), IsStructural)
    decreases |evs|
  {
    if evs != [] {
      var n := |evs| - 1;
      var before, row := Rows(evs[..n]), Timeline(evs[n]);
      SomeStructural(evs[..n]);
      assert Rows(evs) == before + [row];
      assert row in before + [row] && forall f :: f in before + [row] ==> f in before || f == row;
    }
  }

  // A turn repaints the board once, after its rows, if one of them is
  // structural, and never else.
  lemma TurnRepaintsOnce(s: StoreState, t: Turn, live: bool)
    ensures var frames, n := TurnFrames(s, t, live), |Accepted(s, t.burst)|;
      && (Exists(frames, IsBoard) <==> Exists(frames, IsStructural))
      && (Exists(frames, IsBoard) ==> |frames| == n + 1 && frames[n].Board?)
      && (forall i :: 0 <= i < n ==> frames[i] == Timeline(Accepted(s, t.burst)[i]))
  {
    var a, frames := Accepted(s, t.burst), TurnFrames(s, t, live);
    SomeStructural(a);
    if Repaints(s, t) {
      assert frames[|a|].Board? && frames[|a|] in frames;
      assert forall f :: f in Rows(a) ==> f in frames;
    } else {
      assert frames == Rows(a);
    }
  }
}
