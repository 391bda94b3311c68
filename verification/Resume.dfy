// A browser on the board's own SSE stream: what a connection receives, and
// what the id of the last frame it received lets it resume from
// (frontend/internal/hub/hub.go, frontend/internal/web/server.go).
module Resume {
  import opened Model
  import opened Logs
  import opened Store
  import opened StoreRuns
  import opened Hub

  // ---------------------------------------------------------------- broadcasts

  // These frames follow a point at which the rows of the first n events of the
  // log had been broadcast: every row is the next event's, and every board
  // carries the sequence of the latest row (c if there was none).
  ghost predicate Follows(frames: seq<Frame>, log: seq<Event>, n: nat, c: int)
    decreases |frames|
  {
    && n <= |log|
    && (frames != [] ==>
          match frames[0]
          case Timeline(e) => n < |log| && e == log[n] && Follows(frames[1..], log, n + 1, c)
          case Board(k, _) => k == LastSequence(log[..n], c) && Follows(frames[1..], log, n, c))
  }

  function RowCount(frames: seq<Frame>): nat
    decreases |frames|
  {
    if frames == [] then 0 else RowCount(frames[..|frames| - 1]) + (if frames[|frames| - 1].Timeline? then 1 else 0)
  }

  // The events the hub's loop adds to the log over its turns.
  function History(s: StoreState, turns: seq<Turn>, live: bool): seq<Event>
    decreases |turns|
  {
    if turns == [] then []
    else Accepted(s, turns[0].burst) + History(AfterTurn(s, turns[0], live), turns[1..], live)
  }

  lemma {:induction false} RowsFollow(evs: seq<Event>, rest: seq<Frame>, log: seq<Event>, n: nat, c: int)
    requires n + |evs| <= |log| && log[n..n + |evs|] == evs
    requires Follows(rest, log, n + |evs|, c)
    ensures Follows(Rows(evs) + rest, log, n, c)
    decreases |evs|
  {
    if evs == [] {
      assert Rows(evs) + rest == rest;
    } else {
      var f := Rows(evs) + rest;
      assert f[1..] == Rows(evs[1..]) + rest;
      assert f[0] == Timeline(log[n..n + |evs|][0]);
      RowsFollow(evs[1..], rest, log, n + 1, c);
    }
  }

  lemma BoardFollows(board: seq<Frame>, rest: seq<Frame>, log: seq<Event>, n: nat, c: int)
    requires n <= |log| && Follows(rest, log, n, c)
    requires board == [] || exists revision :: board == [Board(LastSequence(log[..n], c), revision)]
    ensures Follows(board + rest, log, n, c)
  {
    if board == [] {
      assert board + rest == rest;
    } else {
      assert (board + rest)[1..] == rest;
    }
  }

  lemma TurnCursor(pre: seq<Event>, s: StoreState, t: Turn, live: bool, c: int)
    requires LastSequence(pre, c) == s.sequence
    ensures LastSequence(pre + Accepted(s, t.burst), c) == AfterTurn(s, t, live).sequence
  {
    LastSequenceConcat(pre, Accepted(s, t.burst), c);
    AcceptedInOrder(s, t.burst);
    assert AfterTurn(s, t, live).sequence == ApplyAll(s, t.burst).sequence;
  }

  lemma TurnFollows(pre: seq<Event>, s: StoreState, t: Turn, live: bool, later: seq<Event>, rest: seq<Frame>, c: int)
    requires LastSequence(pre, c) == s.sequence
    requires Follows(rest, pre + Accepted(s, t.burst) + later, |pre + Accepted(s, t.burst)|, c)
    ensures Follows(TurnFrames(s, t, live) + rest, pre + Accepted(s, t.burst) + later, |pre|, c)
  {
    var a, r := Accepted(s, t.burst), AfterTurn(s, t, live);
    TurnCursor(pre, s, t, live, c);
    var board := if Repaints(s, t) then [Board(r.sequence, r.boardRevision)] else [];
    BurstFollows(pre, a, later, board, rest, c);
    assert Rows(a) + (board + rest) == TurnFrames(s, t, live) + rest;
  }

  // The rows of a burst, perhaps a board at its last sequence, and what follows.
  lemma BurstFollows(pre: seq<Event>, a: seq<Event>, later: seq<Event>, board: seq<Frame>, rest: seq<Frame>, c: int)
    requires Follows(rest, pre + a + later, |pre + a|, c)
    requires board == [] || (exists v :: board == [Board(LastSequence(pre + a, c), v)])
    ensures Follows(Rows(a) + (board + rest), pre + a + later, |pre|, c)
  {
    var log := pre + a + later;
    assert log[..|pre + a|] == pre + a;
    BoardFollows(board, rest, log, |pre + a|, c);
    assert log[|pre|..|pre| + |a|] == a;
    RowsFollow(a, board + rest, log, |pre|, c);
  }

  // What the hub's loop broadcasts, from any state: rows in log order, and
  // boards that never run ahead of the rows before them.
  lemma {:induction false} LoopFollows(pre: seq<Event>, s: StoreState, turns: seq<Turn>, live: bool, c: int)
    requires LastSequence(pre, c) == s.sequence
    ensures Follows(AllFrames(s, turns, live), pre + History(s, turns, live), |pre|, c)
    decreases |turns|
  {
    if turns != [] {
      var t, a := AfterTurn(s, turns[0], live), Accepted(s, turns[0].burst);
      TurnCursor(pre, s, turns[0], live, c);
      LoopFollows(pre + a, t, turns[1..], live, c);
      LoopStep(pre, s, turns, live, c, a, t);
    }
  }

  lemma LoopStep(pre: seq<Event>, s: StoreState, turns: seq<Turn>, live: bool, c: int, a: seq<Event>, t: StoreState)
    requires turns != [] && LastSequence(pre, c) == s.sequence
    requires a == Accepted(s, turns[0].burst) && t == AfterTurn(s, turns[0], live)
    requires Follows(AllFrames(t, turns[1..], live), pre + a + History(t, turns[1..], live), |pre + a|, c)
    ensures Follows(AllFrames(s, turns, live), pre + History(s, turns, live), |pre|, c)
  {
    var h, rest := History(t, turns[1..], live), AllFrames(t, turns[1..], live);
    TurnFollows(pre, s, turns[0], live, h, rest, c);
    assert pre + (a + h) == pre + a + h;
  }

  // ---------------------------------------------------------------- one connection

  // Where the log stood at the steps of a connection's start: rows broadcast
  // and events logged when it subscribed, events logged when the backlog was
  // read, and events logged when the board was drawn after it.
  datatype Handshake = Handshake(shown: nat, logged: nat, read: nat, drawn: nat)

  predicate Ordered(h: Handshake, log: seq<Event>) {
    h.shown <= h.logged <= h.shown + 1 && h.logged <= h.read <= h.drawn <= |log|
  }

  // Nothing was logged or broadcast between the steps.
  predicate Quiet(h: Handshake) {
    h.shown == h.logged == h.read == h.drawn
  }

  function Missed(log: seq<Event>, h: Handshake, after: int): seq<Event>
    requires Ordered(h, log)
  {
    EventsAfterSpec(Trimmed(log[..h.read]), after)
  }

  method Replay(missed: seq<Event>, board: Frame) returns (frames: seq<Frame>)
    ensures frames == Rows(missed) + [board]
  {
    frames := [];
    for i := 0 to |missed|
      invariant frames == Rows(missed[..i])
    {
      frames := frames + [Timeline(missed[i])];
      assert missed[..i + 1] == missed[..i] + [missed[i]];
    }
    assert missed[..|missed|] == missed;
    frames := frames + [board];
  }

  // The highest row sequence of a replay, 0 if it holds none.
  function Replayed(frames: seq<Frame>): int
    decreases |frames|
  {
    if frames == [] then 0
    else
      var r := Replayed(frames[..|frames| - 1]);
      var f := frames[|frames| - 1];
      if f.Timeline? && f.Id() > r then f.Id() else r
  }

  predicate PassedOn(f: Frame, replayed: int) {
    !(f.Timeline? && f.Id() <= replayed)
  }

  function Forwarded(frames: seq<Frame>, replayed: int): seq<Frame>
    decreases |frames|
  {
    if frames == [] then []
    else
      Forwarded(frames[..|frames| - 1], replayed)
      + (if PassedOn(frames[|frames| - 1], replayed) then [frames[|frames| - 1]] else [])
  }

  // The stream handler: the replay, then the subscription without the rows the
  // replay covered.
  method Serve(replay: seq<Frame>, live: seq<Frame>) returns (written: seq<Frame>)
    ensures written == replay + Forwarded(live, Replayed(replay))
  {
    written := [];
    var replayed := 0;
    for i := 0 to |replay|
      invariant written == replay[..i] && replayed == Replayed(replay[..i])
    {
      var f := replay[i];
      written := written + [f];
      if f.Timeline? && f.Id() > replayed {
        replayed := f.Id();
      }
      assert replay[..i + 1][..i] == replay[..i];
    }
    assert replay[..|replay|] == replay;
    for i := 0 to |live|
      invariant written == replay + Forwarded(live[..i], replayed)
    {
      var f := live[i];
      assert live[..i + 1][..i] == live[..i];
      if f.Timeline? && f.Id() <= replayed {
        continue;
      }
      written := written + [f];
    }
    assert live[..|live|] == live;
  }

  // A connection is cut after some frames of the replay, or after a frame that
  // came from the subscription.
  datatype Cut = InReplay(frames: nat) | InLive(frames: nat)

  // Everything about one connection that its received frames depend on.
  datatype Connection = Connection(after: int, h: Handshake, revision: int, live: seq<Frame>, cut: Cut)

  function ReplayOf(log: seq<Event>, c: int, k: Connection): seq<Frame>
    requires Ordered(k.h, log)
  {
    Rows(Missed(log, k.h, k.after)) + [Board(LastSequence(log[..k.h.drawn], c), k.revision)]
  }

  predicate CutOk(log: seq<Event>, c: int, k: Connection)
    requires Ordered(k.h, log)
  {
    match k.cut
    case InReplay(m) => m <= |ReplayOf(log, c, k)|
    case InLive(x) => 0 < x <= |k.live| && PassedOn(k.live[x - 1], Replayed(ReplayOf(log, c, k)))
  }

  // The browser asks with any id at all, and after the replay is sent what the
  // hub broadcast since it subscribed.
  ghost predicate Possible(log: seq<Event>, c: int, k: Connection) {
    && 0 <= c && Increasing(log) && AllAbove(log, c)
    && Ordered(k.h, log)
    && Follows(k.live, log, k.h.shown, c)
    && CutOk(log, c, k)
  }

  function Received(log: seq<Event>, c: int, k: Connection): seq<Frame>
    requires Ordered(k.h, log) && CutOk(log, c, k)
  {
    var replay := ReplayOf(log, c, k);
    match k.cut
    case InReplay(m) => replay[..m]
    case InLive(x) => replay + Forwarded(k.live[..x], Replayed(replay))
  }

  function TimelineOf(frames: seq<Frame>): seq<Event>
    decreases |frames|
  {
    if frames == [] then []
    else TimelineOf(frames[..|frames| - 1]) + (if frames[|frames| - 1].Timeline? then [frames[|frames| - 1].event] else [])
  }

  function LastId(frames: seq<Frame>, after: int): int {
    if frames == [] then after else frames[|frames| - 1].Id()
  }

  // Rows and a last id that together leave nothing of the log above the id
  // resumed from missing or twice.
  ghost predicate Resumes(log: seq<Event>, after: int, rows: seq<Event>, last: int) {
    rows + Above(log, last) == Above(log, after)
  }

  // The rows received, and then what the log holds above the last id received,
  // are together exactly what the log holds above the id resumed from.
  ghost predicate Exact(log: seq<Event>, c: int, k: Connection)
    requires Ordered(k.h, log) && CutOk(log, c, k)
  {
    var r := Received(log, c, k);
    Resumes(log, k.after, TimelineOf(r), LastId(r, k.after))
  }

  // ---------------------------------------------------------------- positions

  // Exactly the first n events of the log are at or below an id.
  predicate StandsAt(log: seq<Event>, id: int, n: nat) {
    && n <= |log| && (n > 0 ==> log[n - 1].sequence <= id) && (n < |log| ==> id < log[n].sequence)
  }

  lemma StandsSomewhere(log: seq<Event>, id: int) returns (n: nat)
    ensures StandsAt(log, id, n)
  {
    n := 0;
    while n < |log| && log[n].sequence <= id
      invariant n <= |log| && (n > 0 ==> log[n - 1].sequence <= id)
    {
      n := n + 1;
    }
  }

  lemma StandsOnce(log: seq<Event>, id: int, n: nat, m: nat)
    requires Increasing(log) && StandsAt(log, id, n) && m <= |log|
    ensures StandsAt(log, id, m) <==> n == m
  {
    if n < m - 1 {
      IncreasingAt(log, n, m - 1);
    } else if m < n - 1 {
      IncreasingAt(log, m, n - 1);
    }
  }

  lemma StandsBetween(log: seq<Event>, id: int, n: nat)
    requires Increasing(log) && StandsAt(log, id, n)
    ensures forall i :: 0 <= i < n ==> log[i].sequence <= id
    ensures forall i :: n <= i < |log| ==> id < log[i].sequence
  {
    forall i | 0 <= i < n ensures log[i].sequence <= id {
      if i < n - 1 { IncreasingAt(log, i, n - 1); }
    }
    forall i | n <= i < |log| ensures id < log[i].sequence {
      if n < i { IncreasingAt(log, n, i); }
    }
  }

  // The nearest number to n from a to b.
  function Clamp(n: nat, a: nat, b: nat): (m: nat)
    requires a <= b
    ensures a <= m <= b
  {
    if n < a then a else if n < b then n else b
  }

  lemma AboveJoined(low: seq<Event>, high: seq<Event>, id: int)
    requires (forall e :: e in low ==> e.sequence <= id) && AllAbove(high, id)
    ensures Above(low + high, id) == high
  {
    AboveConcat(low, high, id);
    AboveNothing(low, id);
    AboveEverything(high, id);
  }

  lemma StandsApart(log: seq<Event>, id: int, n: nat, a: nat, m: nat, b: nat)
    requires Increasing(log) && StandsAt(log, id, n) && a <= m <= b <= |log| && (a < m ==> m <= n) && (m < b ==> n <= m)
    ensures forall e :: e in log[a..m] ==> e.sequence <= id
    ensures AllAbove(log[m..b], id)
  {
    StandsBetween(log, id, n);
    forall e | e in log[a..m] ensures e.sequence <= id {
      var i :| a <= i < m && log[i] == e;
    }
    forall e | e in log[m..b] ensures e.sequence > id {
      var i :| m <= i < b && log[i] == e;
    }
  }

  // A piece of the log, read above an id, is its part from where the id stands.
  lemma AbovePiece(log: seq<Event>, id: int, n: nat, a: nat, b: nat)
    requires Increasing(log) && StandsAt(log, id, n) && a <= b <= |log|
    ensures Above(log[a..b], id) == log[Clamp(n, a, b)..b]
  {
    var m := Clamp(n, a, b);
    StandsApart(log, id, n, a, m, b);
    AboveJoined(log[a..m], log[m..b], id);
    assert log[a..b] == log[a..m] + log[m..b];
  }

  lemma AboveFrom(log: seq<Event>, id: int, n: nat)
    requires Increasing(log) && StandsAt(log, id, n)
    ensures Above(log, id) == log[n..]
  {
    assert log[0..|log|] == log;
    AbovePiece(log, id, n, 0, |log|);
  }

  lemma AboveAtPosition(log: seq<Event>, n: nat, c: int)
    requires Increasing(log) && AllAbove(log, c) && n <= |log|
    ensures Above(log, LastSequence(log[..n], c)) == log[n..]
  {
    if n == 0 {
      AboveEverything(log, c);
    } else {
      AboveCut(log, n);
    }
  }

  // The oldest event in the store when the backlog is read.
  function Oldest(h: Handshake): (n: nat)
    ensures n <= h.read
  {
    if h.read > MAX_EVENTS then h.read - MAX_EVENTS else 0
  }

  // The id is of an event older than the newest one evicted by then.
  predicate TooOld(log: seq<Event>, k: Connection)
    requires Ordered(k.h, log)
  {
    Oldest(k.h) > 0 && k.after < log[Oldest(k.h) - 1].sequence
  }

  lemma TooOldStands(log: seq<Event>, k: Connection, j: nat)
    requires Ordered(k.h, log) && Increasing(log) && StandsAt(log, k.after, j)
    ensures TooOld(log, k) <==> j < Oldest(k.h)
  {
    StandsBetween(log, k.after, j);
  }

  // Where the id asked with stands in the log, and where the backlog starts.
  ghost predicate StartsAt(log: seq<Event>, k: Connection, j: nat, s: nat)
    requires Ordered(k.h, log)
  {
    && StandsAt(log, k.after, j) && s == Clamp(j, Oldest(k.h), k.h.read)
    && Above(log, k.after) == log[j..] && Missed(log, k.h, k.after) == log[s..k.h.read]
    && (TooOld(log, k) <==> j < Oldest(k.h))
  }

  lemma MissedFrom(log: seq<Event>, c: int, k: Connection) returns (j: nat, s: nat)
    requires Possible(log, c, k)
    ensures StartsAt(log, k, j, s)
  {
    j := StandsSomewhere(log, k.after);
    s := Clamp(j, Oldest(k.h), k.h.read);
    AboveFrom(log, k.after, j);
    AbovePiece(log, k.after, j, Oldest(k.h), k.h.read);
    assert Trimmed(log[..k.h.read]) == log[Oldest(k.h)..k.h.read];
    EventsAfterIsAbove(log[Oldest(k.h)..k.h.read], k.after);
    TooOldStands(log, k, j);
  }

  // ---------------------------------------------------------------- rows of frames

  lemma {:induction false} TimelineOfRows(evs: seq<Event>)
    ensures TimelineOf(Rows(evs)) == evs
    decreases |evs|
  {
    if evs != [] {
      assert Rows(evs)[..|evs| - 1] == Rows(evs[..|evs| - 1]);
      TimelineOfRows(evs[..|evs| - 1]);
    }
  }

  lemma {:induction false} TimelineOfConcat(a: seq<Frame>, b: seq<Frame>)
    ensures TimelineOf(a + b) == TimelineOf(a) + TimelineOf(b)
    decreases |b|
  {
    if b == [] {
      assert a + b == a;
    } else {
      assert (a + b)[..|a + b| - 1] == a + b[..|b| - 1];
      TimelineOfConcat(a, b[..|b| - 1]);
    }
  }

  lemma TurnRows(s: StoreState, t: Turn, live: bool)
    ensures TimelineOf(TurnFrames(s, t, live)) == Accepted(s, t.burst)
  {
    var a, r := Accepted(s, t.burst), AfterTurn(s, t, live);
    var board := if Repaints(s, t) then [Board(r.sequence, r.boardRevision)] else [];
    TimelineOfRows(a);
    TimelineOfConcat(Rows(a), board);
    assert TimelineOf(board) == [];
    assert a + [] == a;
  }

  // Every event accepted over any turns is broadcast as one row, in order.
  lemma {:induction false} EveryEventHasARow(s: StoreState, turns: seq<Turn>, live: bool)
    ensures TimelineOf(AllFrames(s, turns, live)) == History(s, turns, live)
    decreases |turns|
  {
    if turns != [] {
      var t := AfterTurn(s, turns[0], live);
      TurnRows(s, turns[0], live);
      EveryEventHasARow(t, turns[1..], live);
      TimelineOfConcat(TurnFrames(s, turns[0], live), AllFrames(t, turns[1..], live));
    }
  }

  // Over a recording, or while every read fails, they are those that the turns'
  // events are accepted of, one after another.
  lemma {:induction false} HistoryIsAccepted(s: StoreState, turns: seq<Turn>, live: bool)
    requires live ==> forall t :: t in turns ==> t.read.None?
    ensures History(s, turns, live) == Accepted(s, Bursts(turns))
    decreases |turns|
  {
    if turns != [] {
      var t := AfterTurn(s, turns[0], live);
      assert turns[0] in turns && forall x :: x in turns[1..] ==> x in turns;
      HistoryIsAccepted(t, turns[1..], live);
      AcceptedConcat(s, turns[0].burst, Bursts(turns[1..]));
    }
  }

  // Frames that follow n rows hold the next rows, and a last board carries the
  // sequence of the row before it.
  lemma {:induction false} FollowsPrefix(frames: seq<Frame>, log: seq<Event>, n: nat, c: int, x: nat, m: nat)
    requires Follows(frames, log, n, c) && x <= |frames| && m == n + RowCount(frames[..x])
    ensures m <= |log| && TimelineOf(frames[..x]) == log[n..m]
    decreases x
  {
    if x > 0 {
      var y, l := x - 1, n + RowCount(frames[..x - 1]);
      FollowsPrefix(frames, log, n, c, y, l);
      FollowsRow(frames, log, n, c, y, l);
      assert frames[..x][..y] == frames[..y];
      if frames[y].Timeline? {
        assert log[n..l + 1] == log[n..l] + [log[l]];
      }
    }
  }

  lemma FollowsLast(frames: seq<Frame>, log: seq<Event>, n: nat, c: int, x: nat, m: nat)
    requires Follows(frames, log, n, c) && 0 < x <= |frames| && m == n + RowCount(frames[..x])
    ensures m <= |log| && frames[x - 1].Id() == LastSequence(log[..m], c)
    ensures frames[x - 1].Timeline? ==> n < m && frames[x - 1].event == log[m - 1]
  {
    FollowsAt(frames, log, n, c, x - 1);
    assert frames[..x][..x - 1] == frames[..x - 1];
  }

  lemma {:induction false} FollowsAt(frames: seq<Frame>, log: seq<Event>, n: nat, c: int, x: nat)
    requires Follows(frames, log, n, c) && x < |frames|
    ensures Follows(frames[x..], log, n + RowCount(frames[..x]), c)
    decreases x
  {
    if x == 0 {
      assert frames[0..] == frames;
    } else {
      FollowsAt(frames, log, n, c, x - 1);
      assert frames[x - 1..][1..] == frames[x..];
      assert frames[..x][..x - 1] == frames[..x - 1];
    }
  }

  function Slice(log: seq<Event>, n: nat, m: nat): seq<Event>
    requires m <= |log|
  {
    if n <= m then log[n..m] else []
  }

  lemma SliceStep(log: seq<Event>, n: nat, m: nat)
    requires m < |log|
    ensures Slice(log, n, m + 1) == Slice(log, n, m) + (if n <= m then [log[m]] else [])
  {
  }

  lemma RowCountStep(frames: seq<Frame>, x: nat)
    requires x < |frames|
    ensures RowCount(frames[..x + 1]) == RowCount(frames[..x]) + (if frames[x].Timeline? then 1 else 0)
  {
    assert frames[..x + 1][..x] == frames[..x];
  }

  lemma ForwardedStep(frames: seq<Frame>, x: nat, replayed: int)
    requires x < |frames|
    ensures Forwarded(frames[..x + 1], replayed) ==
      Forwarded(frames[..x], replayed) + (if PassedOn(frames[x], replayed) then [frames[x]] else [])
    ensures TimelineOf(Forwarded(frames[..x + 1], replayed)) ==
      TimelineOf(Forwarded(frames[..x], replayed))
      + (if frames[x].Timeline? && PassedOn(frames[x], replayed) then [frames[x].event] else [])
  {
    assert frames[..x + 1][..x] == frames[..x];
    var before := Forwarded(frames[..x], replayed);
    if PassedOn(frames[x], replayed) {
      assert (before + [frames[x]])[..|before|] == before;
    } else {
      assert before + [] == before;
    }
  }

  lemma RowPasses(log: seq<Event>, f: Frame, m: nat, r: nat)
    requires Increasing(log) && m < |log| && 0 < r <= |log| && f == Timeline(log[m])
    ensures PassedOn(f, log[r - 1].sequence) <==> r <= m
  {
    if m < r - 1 {
      IncreasingAt(log, m, r - 1);
    } else if r - 1 < m {
      IncreasingAt(log, r - 1, m);
    }
  }

  lemma FollowsRow(frames: seq<Frame>, log: seq<Event>, n: nat, c: int, x: nat, m: nat)
    requires Follows(frames, log, n, c) && x < |frames| && m == n + RowCount(frames[..x])
    ensures m <= |log| && (frames[x].Timeline? ==> m < |log| && frames[x] == Timeline(log[m]))
  {
    FollowsAt(frames, log, n, c, x);
  }

  // The rows among the first x frames that pass the filter.
  function PassedRows(frames: seq<Frame>, x: nat, replayed: int): seq<Event>
    requires x <= |frames|
  {
    if x == 0 then []
    else
      PassedRows(frames, x - 1, replayed)
      + (if frames[x - 1].Timeline? && PassedOn(frames[x - 1], replayed) then [frames[x - 1].event] else [])
  }

  lemma PassedNext(frames: seq<Frame>, y: nat, x: nat, replayed: int, rows: seq<Event>)
    requires y + 1 == x <= |frames| && TimelineOf(Forwarded(frames[..y], replayed)) == rows
    ensures TimelineOf(Forwarded(frames[..x], replayed))
      == rows + (if frames[y].Timeline? && PassedOn(frames[y], replayed) then [frames[y].event] else [])
  {
    ForwardedStep(frames, y, replayed);
  }

  lemma {:induction false} PassedRowsAre(frames: seq<Frame>, x: nat, replayed: int)
    requires x <= |frames|
    ensures TimelineOf(Forwarded(frames[..x], replayed)) == PassedRows(frames, x, replayed)
  {
    if x == 0 {
      assert frames[..0] == [];
    } else {
      PassedRowsAre(frames, x - 1, replayed);
      PassedNext(frames, x - 1, x, replayed, PassedRows(frames, x - 1, replayed));
    }
  }

  lemma {:induction false} PassedRowsFrom(frames: seq<Frame>, log: seq<Event>, n: nat, c: int, r: nat, x: nat, m: nat)
    requires Increasing(log) && Follows(frames, log, n, c) && x <= |frames|
    requires m == n + RowCount(frames[..x]) && 0 < r <= |log| && n <= r
    ensures m <= |log| && PassedRows(frames, x, log[r - 1].sequence) == Slice(log, r, m)
    decreases x
  {
    if x > 0 {
      var y, l := x - 1, n + RowCount(frames[..x - 1]);
      PassedRowsFrom(frames, log, n, c, r, y, l);
      FollowsRow(frames, log, n, c, y, l);
      RowCountStep(frames, y);
      RowsStep(log, r, l, frames[y], PassedRows(frames, y, log[r - 1].sequence), m);
    }
  }

  // What passes the handler's filter after a replay that ended at row r: every
  // board and the rows from the r-th on.
  lemma ForwardedRows(frames: seq<Frame>, log: seq<Event>, n: nat, c: int, r: nat, x: nat, m: nat)
    requires Increasing(log) && Follows(frames, log, n, c) && x <= |frames|
    requires m == n + RowCount(frames[..x]) && 0 < r <= |log| && n <= r
    ensures m <= |log| && TimelineOf(Forwarded(frames[..x], log[r - 1].sequence)) == Slice(log, r, m)
  {
    PassedRowsAre(frames, x, log[r - 1].sequence);
    PassedRowsFrom(frames, log, n, c, r, x, m);
  }

  lemma RowsStep(log: seq<Event>, r: nat, m: nat, f: Frame, rows: seq<Event>, next: nat)
    requires Increasing(log) && 0 < r <= |log| && m <= |log| && rows == Slice(log, r, m)
    requires f.Timeline? ==> m < |log| && f == Timeline(log[m])
    requires next == m + (if f.Timeline? then 1 else 0)
    ensures next <= |log|
    ensures rows + (if f.Timeline? && PassedOn(f, log[r - 1].sequence) then [f.event] else []) == Slice(log, r, next)
  {
    if f.Timeline? {
      SliceStep(log, r, m);
      RowPasses(log, f, m, r);
    }
  }

  lemma {:induction false} ForwardedAll(frames: seq<Frame>, log: seq<Event>, n: nat, c: int, x: nat)
    requires Increasing(log) && AllAbove(log, c) && c >= 0
    requires Follows(frames, log, n, c) && x <= |frames|
    ensures Forwarded(frames[..x], 0) == frames[..x]
    decreases x
  {
    if x == 0 {
      assert frames[..0] == [];
    } else {
      var y := x - 1;
      ForwardedAll(frames, log, n, c, y);
      RowPassesAll(frames, log, n, c, y);
      ForwardedStep(frames, y, 0);
      assert frames[..y] + [frames[y]] == frames[..x];
    }
  }

  lemma RowPassesAll(frames: seq<Frame>, log: seq<Event>, n: nat, c: int, y: nat)
    requires AllAbove(log, c) && c >= 0 && Follows(frames, log, n, c) && y < |frames|
    ensures PassedOn(frames[y], 0)
  {
    FollowsRow(frames, log, n, c, y, n + RowCount(frames[..y]));
  }

  lemma {:induction false} ReplayedRows(evs: seq<Event>)
    requires Increasing(evs) && AllAbove(evs, 0)
    ensures Replayed(Rows(evs)) == LastSequence(evs, 0)
    decreases |evs|
  {
    if evs != [] {
      var n := |evs| - 1;
      assert Rows(evs)[..n] == Rows(evs[..n]);
      assert forall e :: e in evs[..n] ==> e in evs;
      IncreasingTake(evs, n);
      ReplayedRows(evs[..n]);
      assert evs[n] in evs;
      if n > 0 { IncreasingAt(evs, n - 1, n); }
    }
  }

  // ---------------------------------------------------------------- what is received

  function Later(n: nat, m: nat): nat { if n > m then n else m }

  lemma BacklogReceived(missed: seq<Event>, board: Frame, m: nat, after: int)
    requires m <= |missed|
    ensures var r := (Rows(missed) + [board])[..m];
      TimelineOf(r) == missed[..m] && LastId(r, after) == LastSequence(missed[..m], after)
  {
    assert (Rows(missed) + [board])[..m] == Rows(missed[..m]);
    TimelineOfRows(missed[..m]);
  }

  lemma ReplayOfParts(log: seq<Event>, c: int, k: Connection, s: nat)
    requires Possible(log, c, k) && s <= k.h.read && Missed(log, k.h, k.after) == log[s..k.h.read]
    ensures TimelineOf(ReplayOf(log, c, k)) == Missed(log, k.h, k.after)
    ensures Replayed(ReplayOf(log, c, k)) == LastSequence(Missed(log, k.h, k.after), 0)
  {
    var missed := log[s..k.h.read];
    var replay := ReplayOf(log, c, k);
    assert replay[..|replay| - 1] == Rows(missed);
    TimelineOfRows(missed);
    assert missed + [] == missed;
    StretchInOrder(log, c, s, k.h.read);
    ReplayedRows(missed);
  }

  lemma StretchInOrder(log: seq<Event>, c: int, j: nat, n: nat)
    requires Increasing(log) && AllAbove(log, c) && c >= 0 && j <= n <= |log|
    ensures Increasing(log[j..n]) && AllAbove(log[j..n], 0)
  {
    IncreasingDrop(log, j);
    IncreasingTake(log[j..], n - j);
    assert log[j..n] == log[j..][..n - j];
    assert forall e :: e in log[j..n] ==> e in log;
  }

  lemma LastIdOfLive(replay: seq<Frame>, live: seq<Frame>, x: nat, replayed: int, after: int)
    requires 0 < x <= |live| && PassedOn(live[x - 1], replayed)
    ensures LastId(replay + Forwarded(live[..x], replayed), after) == live[x - 1].Id()
  {
    ForwardedStep(live, x - 1, replayed);
  }

  lemma RowsWithoutBacklog(log: seq<Event>, c: int, live: seq<Frame>, shown: nat, x: nat, n: nat)
    requires Increasing(log) && AllAbove(log, c) && c >= 0
    requires Follows(live, log, shown, c) && x <= |live| && n == shown + RowCount(live[..x])
    ensures n <= |log| && [] + TimelineOf(Forwarded(live[..x], 0)) == log[shown..n]
  {
    ForwardedAll(live, log, shown, c, x);
    FollowsPrefix(live, log, shown, c, x, n);
  }

  lemma RowsWithBacklog(log: seq<Event>, c: int, live: seq<Frame>, shown: nat, s: nat, read: nat, x: nat, n: nat, end: nat,
                        replayed: int)
    requires Increasing(log) && Follows(live, log, shown, c) && x <= |live|
    requires shown <= read && s < read <= |log| && replayed == log[read - 1].sequence
    requires n == shown + RowCount(live[..x]) && end == Later(n, read)
    ensures n <= |log| && log[s..read] + TimelineOf(Forwarded(live[..x], replayed)) == log[s..end]
  {
    ForwardedRows(live, log, shown, c, read, x, n);
    assert log[s..read] + Slice(log, read, n) == log[s..end];
  }

  // A stretch of the log, and how much of the log the last id takes for received.
  datatype Stretch = Stretch(first: nat, end: nat, reached: nat)

  // What a connection receives, given where its backlog starts.
  function StretchOf(log: seq<Event>, k: Connection, s: nat): Stretch
    requires Ordered(k.h, log) && s <= k.h.read && (k.cut.InLive? ==> k.cut.frames <= |k.live|)
  {
    match k.cut
    case InReplay(m) => if m <= k.h.read - s then Stretch(s, s + m, s + m) else Stretch(s, k.h.read, k.h.drawn)
    case InLive(x) =>
      var n := k.h.shown + RowCount(k.live[..x]);
      if s == k.h.read then Stretch(k.h.shown, n, n) else Stretch(s, Later(n, k.h.read), n)
  }

  ghost predicate Receives(log: seq<Event>, c: int, k: Connection, p: Stretch)
    requires Ordered(k.h, log) && CutOk(log, c, k)
  {
    && p.first <= p.end <= |log| && p.reached <= |log|
    && TimelineOf(Received(log, c, k)) == log[p.first..p.end]
    && LastId(Received(log, c, k), k.after) == LastSequence(log[..p.reached], c)
  }

  lemma ReceivesParts(log: seq<Event>, c: int, k: Connection, p: Stretch, r: seq<Frame>)
    requires Ordered(k.h, log) && CutOk(log, c, k) && r == Received(log, c, k)
    requires p.first <= p.end <= |log| && p.reached <= |log|
    requires TimelineOf(r) == log[p.first..p.end] && LastId(r, k.after) == LastSequence(log[..p.reached], c)
    ensures Receives(log, c, k, p)
  {
  }

  lemma BacklogReceives(log: seq<Event>, c: int, k: Connection, s: nat, m: nat, p: Stretch)
    requires Possible(log, c, k) && k.cut == InReplay(m)
    requires 0 < m <= k.h.read - s && Missed(log, k.h, k.after) == log[s..k.h.read]
    requires p == Stretch(s, s + m, s + m)
    ensures Receives(log, c, k, p)
  {
    var r := ReplayOf(log, c, k)[..m];
    BacklogRows(log, c, log[s..k.h.read], Board(LastSequence(log[..k.h.drawn], c), k.revision), s, k.h.read, m, k.after, r);
    ReceivesParts(log, c, k, p, r);
  }

  lemma BacklogRows(log: seq<Event>, c: int, missed: seq<Event>, board: Frame, s: nat, n: nat, m: nat, after: int, r: seq<Frame>)
    requires s <= n <= |log| && 0 < m <= n - s && missed == log[s..n] && r == (Rows(missed) + [board])[..m]
    ensures TimelineOf(r) == log[s..s + m] && LastId(r, after) == LastSequence(log[..s + m], c)
  {
    BacklogReceived(missed, board, m, after);
    PieceOfPiece(log, s, n, m, after, c);
  }

  lemma PieceOfPiece(log: seq<Event>, s: nat, n: nat, m: nat, after: int, c: int)
    requires s <= n <= |log| && 0 < m <= n - s
    ensures log[s..n][..m] == log[s..s + m] && LastSequence(log[s..n][..m], after) == LastSequence(log[..s + m], c)
  {
    assert log[s..n][..m] == log[s..s + m];
    assert log[s..s + m][m - 1] == log[..s + m][s + m - 1];
  }

  lemma BoardReceives(log: seq<Event>, c: int, k: Connection, s: nat, p: Stretch)
    requires Possible(log, c, k) && k.cut == InReplay(|Missed(log, k.h, k.after)| + 1)
    requires s <= k.h.read && Missed(log, k.h, k.after) == log[s..k.h.read]
    requires p == Stretch(s, k.h.read, k.h.drawn)
    ensures Receives(log, c, k, p)
  {
    var replay := ReplayOf(log, c, k);
    ReplayOfParts(log, c, k, s);
    assert replay[..|replay|] == replay;
    ReceivesParts(log, c, k, p, replay);
  }

  lemma ReplayIsLonger(log: seq<Event>, c: int, k: Connection)
    requires Ordered(k.h, log)
    ensures |ReplayOf(log, c, k)| == |Missed(log, k.h, k.after)| + 1
  {
  }

  lemma ReplayReceives(log: seq<Event>, c: int, k: Connection, s: nat, m: nat, p: Stretch)
    requires Possible(log, c, k) && k.cut == InReplay(m) && m > 0
    requires s <= k.h.read && Missed(log, k.h, k.after) == log[s..k.h.read] && p == StretchOf(log, k, s)
    ensures Receives(log, c, k, p)
  {
    ReplayIsLonger(log, c, k);
    if m <= k.h.read - s {
      BacklogReceives(log, c, k, s, m, p);
    } else {
      BoardReceives(log, c, k, s, p);
    }
  }

  lemma LastOfPiece(log: seq<Event>, s: nat, n: nat)
    requires s < n <= |log|
    ensures LastSequence(log[s..n], 0) == log[n - 1].sequence
  {
  }

  // A replay of these rows, and then x frames of the subscription: the rows
  // received in all, and the last id.
  lemma LiveParts(replay: seq<Frame>, missed: seq<Event>, live: seq<Frame>, x: nat, replayed: int, after: int,
                  log: seq<Event>, c: int, shown: nat, n: nat, r: seq<Frame>)
    requires Follows(live, log, shown, c) && 0 < x <= |live| && PassedOn(live[x - 1], replayed)
    requires n == shown + RowCount(live[..x]) && TimelineOf(replay) == missed
    requires r == replay + Forwarded(live[..x], replayed)
    ensures n <= |log| && LastId(r, after) == LastSequence(log[..n], c)
    ensures TimelineOf(r) == missed + TimelineOf(Forwarded(live[..x], replayed))
  {
    FollowsLast(live, log, shown, c, x, n);
    LastIdOfLive(replay, live, x, replayed, after);
    TimelineOfConcat(replay, Forwarded(live[..x], replayed));
  }

  lemma LiveRows(replay: seq<Frame>, live: seq<Frame>, x: nat, replayed: int, after: int,
                 log: seq<Event>, c: int, h: Handshake, s: nat, p: Stretch, r: seq<Frame>)
    requires Increasing(log) && AllAbove(log, c) && c >= 0 && Ordered(h, log)
    requires Follows(live, log, h.shown, c) && 0 < x <= |live| && PassedOn(live[x - 1], replayed)
    requires s <= h.read && TimelineOf(replay) == log[s..h.read] && replayed == LastSequence(log[s..h.read], 0)
    requires p.reached == h.shown + RowCount(live[..x])
    requires p == if s == h.read then Stretch(h.shown, p.reached, p.reached) else Stretch(s, Later(p.reached, h.read), p.reached)
    requires r == replay + Forwarded(live[..x], replayed)
    ensures p.reached <= |log| && p.first <= p.end <= |log| && TimelineOf(r) == log[p.first..p.end]
    ensures LastId(r, after) == LastSequence(log[..p.reached], c)
  {
    LiveParts(replay, log[s..h.read], live, x, replayed, after, log, c, h.shown, p.reached, r);
    if s == h.read {
      assert log[s..h.read] == [];
      RowsWithoutBacklog(log, c, live, h.shown, x, p.reached);
    } else {
      LastOfPiece(log, s, h.read);
      RowsWithBacklog(log, c, live, h.shown, s, h.read, x, p.reached, p.end, replayed);
    }
  }

  lemma LiveReceives(log: seq<Event>, c: int, k: Connection, s: nat, x: nat, p: Stretch)
    requires Possible(log, c, k) && k.cut == InLive(x)
    requires s <= k.h.read && Missed(log, k.h, k.after) == log[s..k.h.read] && p == StretchOf(log, k, s)
    ensures Receives(log, c, k, p)
  {
    var replay := ReplayOf(log, c, k);
    var replayed := Replayed(replay);
    var r := replay + Forwarded(k.live[..x], replayed);
    ReplayOfParts(log, c, k, s);
    LiveRows(replay, k.live, x, replayed, k.after, log, c, k.h, s, p, r);
    ReceivesParts(log, c, k, p, r);
  }

  // Once a frame is received: a stretch of the log, and an id of it.
  lemma SomethingReceived(log: seq<Event>, c: int, k: Connection, s: nat, p: Stretch)
    requires Possible(log, c, k) && k.cut != InReplay(0)
    requires s <= k.h.read && Missed(log, k.h, k.after) == log[s..k.h.read] && p == StretchOf(log, k, s)
    ensures Receives(log, c, k, p)
  {
    if k.cut.InReplay? {
      ReplayReceives(log, c, k, s, k.cut.frames, p);
    } else {
      LiveReceives(log, c, k, s, k.cut.frames, p);
    }
  }

  lemma NothingReceived(log: seq<Event>, c: int, k: Connection)
    requires Possible(log, c, k) && k.cut == InReplay(0)
    ensures TimelineOf(Received(log, c, k)) == [] && LastId(Received(log, c, k), k.after) == k.after
  {
    assert Received(log, c, k) == [];
  }

  // ---------------------------------------------------------------- the theorem

  // The cut leaves a browser that resumes from its last id with rows missing or
  // repeated. With nothing to be missed, whatever was asked for: if the id it
  // asked with is not where the log stood when the board was drawn, or the
  // broadcasts when it subscribed. With a backlog: if rows of it were evicted,
  // if the board was drawn later than the backlog was read, or on a frame that
  // was broadcast before the backlog's last row.
  predicate Faulty(log: seq<Event>, k: Connection)
    requires Ordered(k.h, log)
  {
    var missed := |Missed(log, k.h, k.after)|;
    match k.cut
    case InReplay(m) =>
      m > 0 && (if missed == 0 then !StandsAt(log, k.after, k.h.drawn)
                else TooOld(log, k) || (m == missed + 1 && k.h.drawn != k.h.read))
    case InLive(x) =>
      if missed == 0 then !StandsAt(log, k.after, k.h.shown)
      else TooOld(log, k) || (x <= |k.live| && k.h.shown + RowCount(k.live[..x]) < k.h.read)
  }

  // Pieces of a log join up exactly when each starts where the one before ends.
  lemma Pieces(log: seq<Event>, p: Stretch, j: nat)
    requires Increasing(log) && p.first <= p.end <= |log| && p.reached <= |log| && j <= |log|
    ensures log[p.first..p.end] + log[p.reached..] == log[j..]
      <==> if p.first < p.end then p.first == j && p.end == p.reached else p.reached == j
  {
    var joined := log[p.first..p.end] + log[p.reached..];
    assert |joined| == p.end - p.first + |log| - p.reached;
    if p.first < p.end && joined == log[j..] {
      assert joined[0] == log[p.first] && log[j..][0] == log[j];
      if p.first < j { IncreasingAt(log, p.first, j); }
      if j < p.first { IncreasingAt(log, j, p.first); }
    }
    if p.first < p.end && p.end == p.reached {
      assert joined == log[p.first..];
    }
  }

  lemma ExactStretch(log: seq<Event>, c: int, k: Connection, j: nat, s: nat, p: Stretch)
    requires Possible(log, c, k) && StartsAt(log, k, j, s) && k.cut != InReplay(0) && p == StretchOf(log, k, s)
    ensures p.reached <= |log|
    ensures Exact(log, c, k) <==> if p.first < p.end then p.first == j && p.end == p.reached else p.reached == j
  {
    SomethingReceived(log, c, k, s, p);
    AboveAtPosition(log, p.reached, c);
    Pieces(log, p, j);
  }

  // A connection cut anywhere, whatever id it asked with, leaves a browser able
  // to resume exactly, with no row missed or repeated, if and only if the cut is
  // not faulty.
  lemma ResumeIsExact(log: seq<Event>, c: int, k: Connection)
    requires Possible(log, c, k)
    ensures Exact(log, c, k) <==> !Faulty(log, k)
  {
    if k.cut == InReplay(0) {
      NothingReceived(log, c, k);
      assert [] + Above(log, k.after) == Above(log, k.after);
    } else {
      var j, s := MissedFrom(log, c, k);
      var p := StretchOf(log, k, s);
      ExactStretch(log, c, k, j, s, p);
      ReplayIsLonger(log, c, k);
      FaultyStretch(log, k, j, s, p);
    }
  }

  lemma FaultyStretch(log: seq<Event>, k: Connection, j: nat, s: nat, p: Stretch)
    requires Increasing(log) && Ordered(k.h, log) && StartsAt(log, k, j, s) && k.cut != InReplay(0)
    requires match k.cut case InReplay(m) => m <= k.h.read - s + 1 case InLive(x) => x <= |k.live|
    requires p == StretchOf(log, k, s)
    requires k.cut.InLive? ==> p.reached <= |log|
    ensures (if p.first < p.end then p.first == j && p.end == p.reached else p.reached == j) <==> !Faulty(log, k)
  {
    if s == k.h.read {
      StandsOnce(log, k.after, j, k.h.drawn);
      StandsOnce(log, k.after, j, k.h.shown);
    }
  }

  lemma LastInLive(log: seq<Event>, c: int, k: Connection, n: nat)
    requires Possible(log, c, k) && k.cut.InLive?
    requires n == k.h.shown + RowCount(k.live[..k.cut.frames])
    ensures n <= |log| && LastId(Received(log, c, k), k.after) == LastSequence(log[..n], c)
  {
    var j, s := MissedFrom(log, c, k);
    var p := StretchOf(log, k, s);
    SomethingReceived(log, c, k, s, p);
    assert p.reached == n;
  }

  // A browser whose connection was not cut at a faulty point has every row above
  // its id, each once, up to the last row or board it was sent.
  lemma CaughtUp(log: seq<Event>, c: int, k: Connection, n: nat)
    requires Possible(log, c, k) && !Faulty(log, k) && k.cut.InLive?
    requires n == k.h.shown + RowCount(k.live[..k.cut.frames])
    ensures n <= |log| && TimelineOf(Received(log, c, k)) == Above(log[..n], k.after)
  {
    LastInLive(log, c, k, n);
    ResumeIsExact(log, c, k);
    AboveAtPosition(log, n, c);
    RowsUpTo(log, n, k.after, TimelineOf(Received(log, c, k)));
  }

  lemma RowsUpTo(log: seq<Event>, n: nat, after: int, rows: seq<Event>)
    requires n <= |log| && rows + log[n..] == Above(log, after)
    ensures rows == Above(log[..n], after)
  {
    var rest := log[n..];
    AboveMembers(log, after);
    forall e | e in rest ensures e.sequence > after {
      assert e in rows + rest;
    }
    AboveEverything(rest, after);
    AboveConcat(log[..n], rest, after);
    assert log == log[..n] + rest;
    SameFront(rows, Above(log[..n], after), rest);
  }

  lemma SameFront(a: seq<Event>, b: seq<Event>, rest: seq<Event>)
    requires a + rest == b + rest
    ensures a == b
  {
    assert |a| == |b|;
    assert (a + rest)[..|a|] == a && (b + rest)[..|b|] == b;
  }

  // ---------------------------------------------------------------- the races

  // The cut falls where steps of the hub and of the connection's start have
  // crossed: right after a board drawn later than the backlog was read; on a
  // frame that was broadcast before the backlog's last row; or on any live frame
  // when the connection subscribed between the logging and the broadcast of the
  // very row it already had.
  predicate Racy(log: seq<Event>, k: Connection)
    requires Ordered(k.h, log)
  {
    match k.cut
    case InReplay(m) => m == |Missed(log, k.h, k.after)| + 1 && k.h.drawn != k.h.read
    case InLive(x) =>
      if Missed(log, k.h, k.after) == [] then k.h.shown != k.h.logged
      else x <= |k.live| && k.h.shown + RowCount(k.live[..x]) < k.h.read
  }

  lemma StandsWithin(log: seq<Event>, id: int, j: nat, n: nat, c: int)
    requires Increasing(log) && AllAbove(log, c) && StandsAt(log, id, j) && n <= |log| && id <= LastSequence(log[..n], c)
    ensures j <= n
  {
    if j > n {
      AllAboveAt(log, c, j - 1);
      if n > 0 { IncreasingAt(log, n - 1, j - 1); }
    }
  }

  lemma AllAboveAt(log: seq<Event>, c: int, i: nat)
    requires AllAbove(log, c) && i < |log|
    ensures log[i].sequence > c
  {
    assert log[i] in log;
  }

  // For an id that this hub had given out when the connection subscribed, and
  // that the store reaches back to, these races are all that can go wrong.
  lemma OnlyRaces(log: seq<Event>, c: int, k: Connection)
    requires Possible(log, c, k) && k.after <= LastSequence(log[..k.h.logged], c) && !TooOld(log, k)
    ensures Faulty(log, k) <==> Racy(log, k)
  {
    var j, s := MissedFrom(log, c, k);
    ReplayIsLonger(log, c, k);
    StandsWithin(log, k.after, j, k.h.logged, c);
    if s == k.h.read {
      StandsOnce(log, k.after, j, k.h.drawn);
      StandsOnce(log, k.after, j, k.h.shown);
      RacesMissingNothing(log, k);
    } else {
      RacesWithBacklog(log, k);
    }
  }

  lemma RacesMissingNothing(log: seq<Event>, k: Connection)
    requires Ordered(k.h, log) && Missed(log, k.h, k.after) == []
    requires StandsAt(log, k.after, k.h.drawn) <==> k.h.drawn == k.h.read
    requires StandsAt(log, k.after, k.h.shown) <==> k.h.shown == k.h.logged
    ensures k.cut.InLive? || k.cut.frames <= 1 ==> (Faulty(log, k) <==> Racy(log, k))
  {
  }

  lemma RacesWithBacklog(log: seq<Event>, k: Connection)
    requires Ordered(k.h, log) && Missed(log, k.h, k.after) != [] && !TooOld(log, k)
    ensures Faulty(log, k) <==> Racy(log, k)
  {
  }

  // Where nothing is logged or broadcast while a connection starts, it can be
  // cut anywhere.
  lemma QuietIsNeverRacy(log: seq<Event>, k: Connection)
    requires Ordered(k.h, log) && Quiet(k.h)
    ensures !Racy(log, k)
  {
  }

  // ---------------------------------------------------------------- restarts

  // A connection to a board whose process loaded the team past these first
  // events, its cursor then being this. Of the events before them its hub knows
  // nothing; those after are its log.
  datatype Visit = Visit(loaded: nat, cursor: int, connection: Connection)

  ghost predicate PossibleVisit(team: seq<Event>, v: Visit) {
    && Increasing(team) && v.loaded <= |team|
    && (forall e :: e in team[..v.loaded] ==> e.sequence <= v.cursor)
    && Possible(team[v.loaded..], v.cursor, v.connection)
  }

  function Got(team: seq<Event>, v: Visit): seq<Frame>
    requires v.loaded <= |team| && Ordered(v.connection.h, team[v.loaded..]) && CutOk(team[v.loaded..], v.cursor, v.connection)
  {
    Received(team[v.loaded..], v.cursor, v.connection)
  }

  // Exact with respect to all that the team ever logged.
  ghost predicate ExactVisit(team: seq<Event>, v: Visit)
    requires PossibleVisit(team, v)
  {
    var r := Got(team, v);
    Resumes(team, v.connection.after, TimelineOf(r), LastId(r, v.connection.after))
  }

  // The process loaded the team past events the browser does not have.
  predicate LoadedPast(team: seq<Event>, v: Visit)
    requires v.loaded <= |team|
  {
    v.loaded > 0 && v.connection.after < team[v.loaded - 1].sequence
  }

  predicate FaultyVisit(team: seq<Event>, v: Visit)
    requires v.loaded <= |team| && Ordered(v.connection.h, team[v.loaded..])
  {
    v.connection.cut != InReplay(0) && (LoadedPast(team, v) || Faulty(team[v.loaded..], v.connection))
  }

  lemma AboveLoaded(team: seq<Event>, n: nat, id: int)
    requires Increasing(team) && n <= |team|
    ensures Above(team, id) == Above(team[..n], id) + Above(team[n..], id)
    ensures Above(team[..n], id) != [] <==> n > 0 && id < team[n - 1].sequence
  {
    assert team == team[..n] + team[n..];
    AboveConcat(team[..n], team[n..], id);
    AboveMembers(team[..n], id);
    if n > 0 && id < team[n - 1].sequence {
      assert team[n - 1] in team[..n];
    } else {
      forall e | e in team[..n] ensures e.sequence <= id {
        var i :| 0 <= i < n && team[i] == e;
        if i < n - 1 { IncreasingAt(team, i, n - 1); }
      }
      AboveNothing(team[..n], id);
    }
  }

  // Rows that the process passed over do not come back.
  lemma PassedOver(gone: seq<Event>, log: seq<Event>, c: int, p: Stretch, id: int)
    requires (forall e :: e in gone ==> e.sequence <= c) && AllAbove(log, c)
    requires p.first <= p.end <= |log| && p.reached <= |log| && Above(gone, id) != []
    ensures log[p.first..p.end] + log[p.reached..] != Above(gone, id) + Above(log, id)
  {
    var joined, all := log[p.first..p.end] + log[p.reached..], Above(gone, id) + Above(log, id);
    AboveMembers(gone, id);
    assert all[0] == Above(gone, id)[0] && Above(gone, id)[0] in Above(gone, id);
    if joined != [] {
      assert joined[0] == if p.first < p.end then log[p.first] else log[p.reached];
      assert joined[0] in log;
    }
  }

  lemma LastSequenceAbove(log: seq<Event>, n: nat, c: int)
    requires AllAbove(log, c) && n <= |log|
    ensures LastSequence(log[..n], c) >= c
  {
    if n > 0 { assert log[n - 1] in log; }
  }

  lemma OldAreDone(gone: seq<Event>, log: seq<Event>, c: int, n: nat)
    requires (forall e :: e in gone ==> e.sequence <= c) && AllAbove(log, c) && n <= |log|
    ensures Above(gone, LastSequence(log[..n], c)) == []
  {
    LastSequenceAbove(log, n, c);
    AboveNothing(gone, LastSequence(log[..n], c));
  }

  // Over everything the team ever logged, whenever the board was restarted and
  // however far back it loaded: exact if and only if nothing the browser lacks
  // was passed over by the load, and the cut is not faulty.
  lemma VisitIsExact(team: seq<Event>, v: Visit)
    requires PossibleVisit(team, v)
    ensures ExactVisit(team, v) <==> !FaultyVisit(team, v)
  {
    var gone, log, c, k := team[..v.loaded], team[v.loaded..], v.cursor, v.connection;
    if k.cut == InReplay(0) {
      NothingReceived(log, c, k);
      assert [] + Above(team, k.after) == Above(team, k.after);
    } else {
      VisitReceives(team, v);
    }
  }

  lemma VisitReceives(team: seq<Event>, v: Visit)
    requires PossibleVisit(team, v) && v.connection.cut != InReplay(0)
    ensures ExactVisit(team, v) <==> !FaultyVisit(team, v)
  {
    var log, c, k := team[v.loaded..], v.cursor, v.connection;
    var j, s := MissedFrom(log, c, k);
    var p := StretchOf(log, k, s);
    assert Receives(log, c, k, p) by {
      SomethingReceived(log, c, k, s, p);
    }
    assert Exact(log, c, k) <==> !Faulty(log, k) by {
      ResumeIsExact(log, c, k);
    }
    assert Above(team[..v.loaded], k.after) != [] <==> LoadedPast(team, v) by {
      AboveLoaded(team, v.loaded, k.after);
    }
    OverTheTeam(team, v.loaded, c, k.after, log[p.first..p.end], p);
  }

  // Resuming exactly over the team's log is doing so over the hub's, and having
  // been passed over by nothing.
  lemma OverTheTeam(team: seq<Event>, n: nat, c: int, after: int, rows: seq<Event>, p: Stretch)
    requires Increasing(team) && n <= |team|
    requires (forall e :: e in team[..n] ==> e.sequence <= c) && AllAbove(team[n..], c)
    requires p.first <= p.end <= |team[n..]| && p.reached <= |team[n..]| && rows == team[n..][p.first..p.end]
    ensures var last := LastSequence(team[n..][..p.reached], c);
      Resumes(team, after, rows, last) <==> Above(team[..n], after) == [] && Resumes(team[n..], after, rows, last)
  {
    var gone, log := team[..n], team[n..];
    var last := LastSequence(log[..p.reached], c);
    IncreasingDrop(team, n);
    AboveAtPosition(log, p.reached, c);
    OldAreDone(gone, log, c, p.reached);
    AboveLoaded(team, n, after);
    AboveLoaded(team, n, last);
    assert [] + Above(log, last) == Above(log, last) && [] + Above(log, after) == Above(log, after);
    if Above(gone, after) != [] {
      PassedOver(gone, log, c, p, after);
    }
  }

  // ---------------------------------------------------------------- reconnecting

  // Each connection resumes from the last id the one before it received. The
  // board may have been restarted in between.
  ghost predicate Reconnects(team: seq<Event>, after: int, vs: seq<Visit>)
    decreases |vs|
  {
    vs != [] ==>
      && vs[0].connection.after == after && PossibleVisit(team, vs[0])
      && Reconnects(team, LastId(Got(team, vs[0]), after), vs[1..])
  }

  // The rows received over all connections, and the last id.
  ghost function ReceivedOver(team: seq<Event>, after: int, vs: seq<Visit>): (seq<Event>, int)
    requires Reconnects(team, after, vs)
    decreases |vs|
  {
    if vs == [] then ([], after)
    else
      var r := Got(team, vs[0]);
      var (rows, last) := ReceivedOver(team, LastId(r, after), vs[1..]);
      (TimelineOf(r) + rows, last)
  }

  // It ends where the last connection does.
  lemma {:induction false} LastReceived(team: seq<Event>, after: int, vs: seq<Visit>)
    requires Reconnects(team, after, vs) && vs != []
    ensures PossibleVisit(team, vs[|vs| - 1])
    ensures ReceivedOver(team, after, vs).1 == LastId(Got(team, vs[|vs| - 1]), vs[|vs| - 1].connection.after)
    decreases |vs|
  {
    if |vs| > 1 {
      assert vs[1..][|vs| - 2] == vs[|vs| - 1];
      LastReceived(team, LastId(Got(team, vs[0]), after), vs[1..]);
    }
  }

  ghost predicate NoneFaulty(team: seq<Event>, vs: seq<Visit>) {
    forall v :: v in vs ==>
      v.loaded <= |team| && Ordered(v.connection.h, team[v.loaded..]) && !FaultyVisit(team, v)
  }

  lemma NoneFaultyOnwards(team: seq<Event>, vs: seq<Visit>)
    requires NoneFaulty(team, vs) && vs != []
    ensures NoneFaulty(team, vs[1..])
  {
    assert forall v :: v in vs[1..] ==> v in vs;
  }

  lemma ResumesTwice(team: seq<Event>, after: int, a: seq<Event>, last: int, b: seq<Event>, end: int)
    requires Resumes(team, after, a, last) && Resumes(team, last, b, end)
    ensures Resumes(team, after, a + b, end)
  {
    assert (a + b) + Above(team, end) == a + (b + Above(team, end));
  }

  // Over any number of reconnections and restarts, none cut at a faulty point, a
  // browser receives every row once: what it has and what its last id would
  // still bring are what the team logged above where it started.
  lemma {:induction false} ReconnectsExactly(team: seq<Event>, after: int, vs: seq<Visit>)
    requires Reconnects(team, after, vs) && NoneFaulty(team, vs)
    ensures var (rows, last) := ReceivedOver(team, after, vs); Resumes(team, after, rows, last)
    decreases |vs|
  {
    if vs == [] {
      assert [] + Above(team, after) == Above(team, after);
    } else {
      var r := Got(team, vs[0]);
      var last := LastId(r, after);
      assert vs[0] in vs;
      VisitIsExact(team, vs[0]);
      NoneFaultyOnwards(team, vs);
      ReconnectsExactly(team, last, vs[1..]);
      var (rows, end) := ReceivedOver(team, last, vs[1..]);
      ResumesTwice(team, after, TimelineOf(r), last, rows, end);
    }
  }

  // ---------------------------------------------------------------- the three races

  function Note(sequence: int): Event {
    Event(sequence, false, 0, 0, LogOnly)
  }

  // Event 2 is logged between reading the backlog and drawing the board: cut
  // right after the board, the browser resumes past a row it never got.
  lemma BoardAheadOfBacklog()
    ensures var k := Connection(0, Handshake(1, 1, 1, 2), 0, [], InReplay(2));
      Possible([Note(1), Note(2)], 0, k) && !Exact([Note(1), Note(2)], 0, k)
  {
    var log, k := [Note(1), Note(2)], Connection(0, Handshake(1, 1, 1, 2), 0, [], InReplay(2));
    OneRow(log, k);
    assert AllAbove(log, 0);
    assert Possible(log, 0, k);
    ResumeIsExact(log, 0, k);
  }

  lemma OneRow(log: seq<Event>, k: Connection)
    requires log == [Note(1), Note(2)] && k.h.read == 1 && Ordered(k.h, log)
    ensures Missed(log, k.h, k.after) == if k.after < 1 then [Note(1)] else []
  {
    assert log[..1] == [Note(1)];
    assert [Note(1)][..0] == [];
    assert EventsAfterSpec([Note(1)][..0], k.after) == [];
  }

  // Two rows are logged after subscribing and read with the backlog; the board
  // broadcast between them arrives after it and takes the last id back.
  lemma BoardBehindBacklog()
    ensures var k := Connection(0, Handshake(0, 0, 2, 2), 0, [Timeline(Note(1)), Board(1, 0)], InLive(2));
      Possible([Note(1), Note(2)], 0, k) && !Exact([Note(1), Note(2)], 0, k)
  {
    var log, live := [Note(1), Note(2)], [Timeline(Note(1)), Board(1, 0)];
    var k := Connection(0, Handshake(0, 0, 2, 2), 0, live, InLive(2));
    BothRows(log, k);
    RowThenBoard(log, live);
    assert AllAbove(log, 0);
    assert Possible(log, 0, k);
    ResumeIsExact(log, 0, k);
  }

  lemma BothRows(log: seq<Event>, k: Connection)
    requires log == [Note(1), Note(2)] && k.h.read == 2 && Ordered(k.h, log) && k.after == 0
    ensures Missed(log, k.h, k.after) == log
  {
    var one := log[..1];
    assert one[..0] == [] && one == [Note(1)] && EventsAfterSpec(one[..0], 0) == [];
    assert EventsAfterSpec(one, 0) == [Note(1)];
    assert log[..2] == log && EventsAfterSpec(log, 0) == one + [Note(2)];
  }

  lemma RowThenBoard(log: seq<Event>, live: seq<Frame>)
    requires log == [Note(1), Note(2)] && live == [Timeline(Note(1)), Board(1, 0)]
    ensures Follows(live, log, 0, 0) && live[..2] == live && RowCount(live) == 1
  {
    assert log[..1] == [Note(1)];
    assert live[1..] == [Board(1, 0)];
    assert Follows(live[1..], log, 1, 0);
    assert live[..1] == [Timeline(Note(1))] && live[..1][..0] == [];
    assert RowCount(live[..1]) == 1;
  }

  // The browser got row 1 from an earlier backlog before it was broadcast, and
  // reconnects before the broadcast: it gets row 1 again.
  lemma RowBroadcastAfterReconnect()
    ensures var k := Connection(1, Handshake(0, 1, 1, 1), 0, [Timeline(Note(1))], InLive(1));
      Possible([Note(1), Note(2)], 0, k) && !Exact([Note(1), Note(2)], 0, k)
  {
    var log, live := [Note(1), Note(2)], [Timeline(Note(1))];
    var k := Connection(1, Handshake(0, 1, 1, 1), 0, live, InLive(1));
    OneRow(log, k);
    assert log[..1] == [Note(1)];
    assert Follows(live[1..], log, 1, 0);
    assert Follows(live, log, 0, 0);
    assert AllAbove(log, 0);
    var replay := ReplayOf(log, 0, k);
    assert replay == [Board(1, 0)] && replay[..0] == [];
    assert Replayed(replay) == 0;
    assert Possible(log, 0, k);
    ResumeIsExact(log, 0, k);
  }

  // ---------------------------------------------------------------- two restarts

  // The process has restarted and reads its backfill again: the browser has rows
  // 1 and 2, the new hub has logged neither, and brings row 1 again.
  lemma RestartRepeats()
    ensures var k := Connection(2, Handshake(0, 0, 0, 0), 0, [Timeline(Note(1))], InLive(1));
      Possible([Note(1), Note(2)], 0, k) && !Racy([Note(1), Note(2)], k) && !Exact([Note(1), Note(2)], 0, k)
  {
    var log, live := [Note(1), Note(2)], [Timeline(Note(1))];
    var k := Connection(2, Handshake(0, 0, 0, 0), 0, live, InLive(1));
    assert log[..0] == [] && Missed(log, k.h, k.after) == [];
    assert Follows(live[1..], log, 1, 0);
    assert Follows(live, log, 0, 0);
    assert AllAbove(log, 0);
    var replay := ReplayOf(log, 0, k);
    assert replay == [Board(0, 0)] && replay[..0] == [];
    assert Replayed(replay) == 0;
    assert Possible(log, 0, k);
    ResumeIsExact(log, 0, k);
  }

  // It has loaded the team past row 1, which the browser does not have: the
  // first board takes the browser past it too.
  lemma RestartSkips()
    ensures var v := Visit(1, 1, Connection(0, Handshake(0, 0, 0, 0), 0, [], InReplay(1)));
      PossibleVisit([Note(1)], v) && !Racy([Note(1)][1..], v.connection) && !ExactVisit([Note(1)], v)
  {
    var team, k := [Note(1)], Connection(0, Handshake(0, 0, 0, 0), 0, [], InReplay(1));
    var log := team[1..];
    assert log == [] && log[..0] == [] && Missed(log, k.h, k.after) == [];
    assert team[..1] == team;
    assert Possible(log, 1, k);
    VisitIsExact(team, Visit(1, 1, k));
  }

  // No restart at all: more was logged than the store keeps, and a browser that
  // has none of it gets the rows from the oldest kept on.
  lemma EvictionSkips(log: seq<Event>)
    requires Increasing(log) && AllAbove(log, 0) && |log| > MAX_EVENTS
    ensures var n := |log|; var k := Connection(0, Handshake(n, n, n, n), 0, [], InReplay(1));
      Possible(log, 0, k) && !Racy(log, k) && !Exact(log, 0, k)
  {
    var n := |log|;
    var k := Connection(0, Handshake(n, n, n, n), 0, [], InReplay(1));
    ReplayIsLonger(log, 0, k);
    assert Possible(log, 0, k);
    var j, s := MissedFrom(log, 0, k);
    StandsWithin(log, 0, j, 0, 0);
    assert |Missed(log, k.h, 0)| == MAX_EVENTS;
    ResumeIsExact(log, 0, k);
  }
}
