// The backend's side of the stream (app/stream/hub.go, app/stream/sse.go): a
// connection subscribes, replays what it missed from the event table, and then
// follows the team's fan-out, while the tailer reads the table in batches.
module StreamServer {
  import opened Model
  import opened Logs
  import opened Live

  const BATCH_LIMIT := 500

  // Source.FramesAfter on the first n rows of the team's log.
  function FramesAfter(log: seq<Event>, n: nat, after: int): seq<Event>
    requires n <= |log|
  {
    var a := Above(log[..n], after);
    if |a| > BATCH_LIMIT then a[..BATCH_LIMIT] else a
  }

  lemma FramesAreNext(log: seq<Event>, n: nat, after: int)
    requires Increasing(log) && n <= |log|
    ensures FramesAfter(log, n, after) <= Above(log, after) && |FramesAfter(log, n, after)| <= BATCH_LIMIT
    ensures NothingSkipped(log, after, LastSequence(FramesAfter(log, n, after), after), FramesAfter(log, n, after))
  {
    assert log == log[..n] + log[n..];
    AboveConcat(log[..n], log[n..], after);
  }

  // A batch below the limit is all there was: it reaches the end of what was read.
  lemma ShortBatchReachesEnd(log: seq<Event>, n: nat, after: int)
    requires Increasing(log) && n <= |log| && |FramesAfter(log, n, after)| < BATCH_LIMIT
    ensures LastSequence(FramesAfter(log, n, after), after) >= LastSequence(log[..n], after)
  {
    if n > 0 {
      IncreasingTake(log, n);
      AboveIsSuffix(log[..n], after);
      var a := Above(log[..n], after);
      if a == [] {
        AboveMembers(log[..n], after);
        assert log[..n][n - 1] in log[..n];
      } else {
        assert a[|a| - 1] == log[..n][n - 1];
      }
    }
  }

  // ---------------------------------------------------------------- replay

  datatype Written = Written(frames: seq<Event>, highest: int, done: bool)

  // The replay over its reads; sizes[i] is how many rows the log held at read i.
  function ReplayFrom(w: Written, log: seq<Event>, sizes: seq<nat>): Written
    requires forall i :: 0 <= i < |sizes| ==> sizes[i] <= |log|
    decreases |sizes|
  {
    if sizes == [] then w
    else
      var batch := FramesAfter(log, sizes[0], w.highest);
      var next := Written(w.frames + batch, LastSequence(batch, w.highest), |batch| < BATCH_LIMIT);
      if next.done then next else ReplayFrom(next, log, sizes[1..])
  }

  method Replay(after: int, log: seq<Event>, sizes: seq<nat>) returns (frames: seq<Event>, highest: int, done: bool)
    requires forall i :: 0 <= i < |sizes| ==> sizes[i] <= |log|
    ensures Written(frames, highest, done) == ReplayFrom(Written([], after, false), log, sizes)
  {
    frames, highest, done := [], after, false;
    var i := 0;
    while i < |sizes|
      invariant 0 <= i <= |sizes| && !done
      invariant ReplayFrom(Written(frames, highest, done), log, sizes[i..])
             == ReplayFrom(Written([], after, false), log, sizes)
    {
      assert sizes[i..][1..] == sizes[i + 1..];
      var batch := FramesAfter(log, sizes[i], highest);
      ghost var h := highest;
      ghost var before := frames;
      for j := 0 to |batch|
        invariant frames == before + batch[..j] && highest == LastSequence(batch[..j], h)
      {
        frames := frames + [batch[j]];
        highest := batch[j].sequence;
        assert batch[..j + 1] == batch[..j] + [batch[j]];
      }
      assert batch[..|batch|] == batch;
      if |batch| < BATCH_LIMIT {
        done := true;
        return;
      }
      i := i + 1;
    }
  }

  // The replay writes the log above the cursor, in order; once done it has
  // reached everything the log held at its first read.
  lemma {:induction false} ReplaySkipsNothing(w: Written, log: seq<Event>, sizes: seq<nat>, after: int, start: nat)
    requires Increasing(log) && start <= |log|
    requires forall i :: 0 <= i < |sizes| ==> start <= sizes[i] <= |log|
    requires NothingSkipped(log, after, w.highest, w.frames) && !w.done
    ensures var r := ReplayFrom(w, log, sizes);
      && NothingSkipped(log, after, r.highest, r.frames)
      && (r.done ==> r.highest >= LastSequence(log[..start], r.highest))
    decreases |sizes|
  {
    if sizes != [] {
      var n := sizes[0];
      var batch := FramesAfter(log, n, w.highest);
      FramesAreNext(log, n, w.highest);
      var next := Written(w.frames + batch, LastSequence(batch, w.highest), |batch| < BATCH_LIMIT);
      SkippedNoneOnwards(log, after, w.highest, w.frames, next.highest, batch);
      if next.done {
        ShortBatchReachesEnd(log, n, w.highest);
        if 0 < start < n { IncreasingAt(log, start - 1, n - 1); }
      } else {
        ReplaySkipsNothing(next, log, sizes[1..], after, start);
      }
    }
  }

  lemma BatchShortens(log: seq<Event>, n: nat, after: int)
    requires Increasing(log) && n <= |log|
    ensures |Above(log, after)| == |FramesAfter(log, n, after)| + |Above(log, LastSequence(FramesAfter(log, n, after), after))|
  {
    var batch := FramesAfter(log, n, after);
    FramesAreNext(log, n, after);
    SkippedNone(log, after, LastSequence(batch, after), batch);
  }

  // The replay ends: at the latest with the read after which no full batch is left.
  lemma {:induction false} ReplayReachesEnd(w: Written, log: seq<Event>, sizes: seq<nat>)
    requires Increasing(log) && (forall i :: 0 <= i < |sizes| ==> sizes[i] <= |log|)
    requires |Above(log, w.highest)| < |sizes| * BATCH_LIMIT
    ensures ReplayFrom(w, log, sizes).done
    decreases |sizes|
  {
    var batch := FramesAfter(log, sizes[0], w.highest);
    var next := Written(w.frames + batch, LastSequence(batch, w.highest), |batch| < BATCH_LIMIT);
    BatchShortens(log, sizes[0], w.highest);
    if !next.done {
      ReplayReachesEnd(next, log, sizes[1..]);
    }
  }

  // ---------------------------------------------------------------- fan-out

  // One read of the tailer: the batch it got from a cursor, and which of its
  // frames fit the subscriber's buffer when they were delivered.
  datatype Delivery = Delivery(from: int, batch: seq<Event>, fits: seq<bool>)

  // A frame fanned out, and whether the subscriber's buffer took it.
  datatype Fanned = Fanned(event: Event, kept: bool)

  datatype Watch = Watch(lastSeen: int, fanned: seq<Fanned>)

  function Delivered(w: Watch, batch: seq<Event>, fits: seq<bool>): Watch
    requires |fits| == |batch|
    decreases |batch|
  {
    if batch == [] then w
    else
      var n := |batch| - 1;
      var v := Delivered(w, batch[..n], fits[..n]);
      if batch[n].sequence <= v.lastSeen then v
      else Watch(batch[n].sequence, v.fanned + [Fanned(batch[n], fits[n])])
  }

  // deliver: skip what was fanned out before, send the rest without waiting.
  method Deliver(lastSeen: int, fanned: seq<Fanned>, batch: seq<Event>, fits: seq<bool>)
    returns (seen: int, out: seq<Fanned>)
    requires |fits| == |batch|
    ensures Watch(seen, out) == Delivered(Watch(lastSeen, fanned), batch, fits)
  {
    seen, out := lastSeen, fanned;
    for i := 0 to |batch|
      invariant Watch(seen, out) == Delivered(Watch(lastSeen, fanned), batch[..i], fits[..i])
    {
      assert batch[..i + 1][..i] == batch[..i] && fits[..i + 1][..i] == fits[..i];
      if batch[i].sequence <= seen {
        continue;
      }
      out := out + [Fanned(batch[i], fits[i])];
      seen := batch[i].sequence;
    }
    assert batch[..|batch|] == batch && fits[..|batch|] == fits;
  }

  function EventsOf(fs: seq<Fanned>): seq<Event> {
    seq(|fs|, i requires 0 <= i < |fs| => fs[i].event)
  }

  // A batch is what the log held next above its cursor, and that cursor is not
  // beyond what was fanned out or what was committed at the subscription.
  ghost predicate BatchOk(log: seq<Event>, d: Delivery, base: int, lastSeen: int) {
    && |d.fits| == |d.batch|
    && d.batch <= Above(log, d.from)
    && (d.from <= lastSeen || d.from <= base)
  }

  // Deliveries since the subscription, oldest first.
  ghost predicate Tail(log: seq<Event>, ds: seq<Delivery>, base: int, w: Watch)
    decreases |ds|
  {
    ds != [] ==>
      && BatchOk(log, ds[0], base, w.lastSeen)
      && Tail(log, ds[1..], base, Delivered(w, ds[0].batch, ds[0].fits))
  }

  function FanOut(w: Watch, ds: seq<Delivery>): Watch
    requires forall d :: d in ds ==> |d.fits| == |d.batch|
    decreases |ds|
  {
    if ds == [] then w else FanOut(Delivered(w, ds[0].batch, ds[0].fits), ds[1..])
  }

  function Max(a: int, b: int): int { if a > b then a else b }

  // Every event above the base, up to the high-water mark, has been fanned out
  // once, in order.
  ghost predicate Covers(log: seq<Event>, base: int, w: Watch) {
    && Increasing(EventsOf(w.fanned))
    && (forall e :: e in EventsOf(w.fanned) ==> e.sequence <= w.lastSeen)
    && NothingSkipped(log, base, Max(w.lastSeen, base), Above(EventsOf(w.fanned), base))
  }

  lemma {:induction false} DeliveredIs(w: Watch, batch: seq<Event>, fits: seq<bool>)
    requires |fits| == |batch| && Increasing(batch)
    ensures var v := Delivered(w, batch, fits);
      && EventsOf(v.fanned) == EventsOf(w.fanned) + Above(batch, w.lastSeen)
      && v.lastSeen == LastSequence(Above(batch, w.lastSeen), w.lastSeen)
      && v.lastSeen == Max(w.lastSeen, LastSequence(batch, w.lastSeen))
    decreases |batch|
  {
    if batch == [] {
      assert EventsOf(w.fanned) + [] == EventsOf(w.fanned);
    } else {
      var n := |batch| - 1;
      IncreasingTake(batch, n);
      DeliveredIs(w, batch[..n], fits[..n]);
      if n > 0 { IncreasingAt(batch, n - 1, n); }
      var v := Delivered(w, batch[..n], fits[..n]);
      AboveSnoc(batch, w.lastSeen);
      var more := if batch[n].sequence > w.lastSeen then [batch[n]] else [];
      assert EventsOf(v.fanned) + more == EventsOf(w.fanned) + (Above(batch[..n], w.lastSeen) + more);
    }
  }

  lemma AboveSnoc(es: seq<Event>, c: int)
    requires es != []
    ensures Above(es, c) == Above(es[..|es| - 1], c) + (if es[|es| - 1].sequence > c then [es[|es| - 1]] else [])
  {
    var n := |es| - 1;
    assert es == es[..n] + [es[n]];
    AboveConcat(es[..n], [es[n]], c);
  }

  lemma AbovePrefix(a: seq<Event>, b: seq<Event>, c: int)
    requires a <= b
    ensures Above(a, c) <= Above(b, c)
  {
    assert b == a + b[|a|..];
    AboveConcat(a, b[|a|..], c);
  }

  lemma LastAbove(es: seq<Event>, c: int)
    requires Increasing(es)
    ensures LastSequence(Above(es, c), c) == Max(c, LastSequence(es, c))
  {
    if es != [] {
      AboveSnoc(es, c);
      if es[|es| - 1].sequence <= c {
        CutBounds(es, |es|);
        assert es[..|es|] == es;
        AboveNothing(es, c);
      }
    }
  }

  // What a good batch adds above the point reached is what the log holds next.
  lemma BatchIsNext(log: seq<Event>, d: Delivery, c: int)
    requires Increasing(log) && d.batch <= Above(log, d.from) && d.from <= c
    ensures Increasing(d.batch)
    ensures NothingSkipped(log, c, Max(c, LastSequence(d.batch, c)), Above(d.batch, c))
  {
    AboveIncreasing(log, d.from);
    IncreasingTake(Above(log, d.from), |d.batch|);
    assert d.batch == Above(log, d.from)[..|d.batch|];
    AbovePrefix(d.batch, Above(log, d.from), c);
    AboveTwice(log, d.from, c);
    LastAbove(d.batch, c);
  }

  lemma MaxLast(batch: seq<Event>, a: int, b: int)
    ensures Max(Max(a, LastSequence(batch, a)), b) == Max(Max(a, b), LastSequence(batch, Max(a, b)))
  {
  }

  lemma DeliveredCovers(log: seq<Event>, base: int, w: Watch, d: Delivery)
    requires Increasing(log) && Covers(log, base, w) && BatchOk(log, d, base, w.lastSeen)
    ensures Covers(log, base, Delivered(w, d.batch, d.fits))
  {
    var c := Max(w.lastSeen, base);
    var e, v := EventsOf(w.fanned), Delivered(w, d.batch, d.fits);
    BatchIsNext(log, d, c);
    DeliveredIs(w, d.batch, d.fits);
    var more := Above(d.batch, w.lastSeen);
    MoreInOrder(e, d.batch, w.lastSeen);
    AboveConcat(e, more, base);
    AboveTwice(d.batch, w.lastSeen, base);
    MaxLast(d.batch, w.lastSeen, base);
    SkippedNoneOnwards(log, base, c, Above(e, base), Max(c, LastSequence(d.batch, c)), Above(d.batch, c));
  }

  lemma MoreInOrder(e: seq<Event>, batch: seq<Event>, seen: int)
    requires Increasing(e) && Increasing(batch) && forall x :: x in e ==> x.sequence <= seen
    ensures Increasing(e + Above(batch, seen))
    ensures forall x :: x in e + Above(batch, seen) ==> x.sequence <= LastSequence(Above(batch, seen), seen)
  {
    var more := Above(batch, seen);
    AboveIncreasing(batch, seen);
    AboveMembers(batch, seen);
    IncreasingConcat(e, more, seen);
    if more != [] {
      CutBounds(more, |more|);
      assert more[..|more|] == more;
      assert more[|more| - 1] in more;
    }
  }

  lemma {:induction false} CoversKept(log: seq<Event>, base: int, w: Watch, ds: seq<Delivery>)
    requires Increasing(log) && Covers(log, base, w) && Tail(log, ds, base, w)
    ensures forall d :: d in ds ==> |d.fits| == |d.batch|
    ensures Covers(log, base, FanOut(w, ds))
    decreases |ds|
  {
    if ds != [] {
      DeliveredCovers(log, base, w, ds[0]);
      CoversKept(log, base, Delivered(w, ds[0].batch, ds[0].fits), ds[1..]);
    }
  }

  lemma {:induction false} TailAboveMore(log: seq<Event>, base: int, more: int, w: Watch, ds: seq<Delivery>)
    requires Tail(log, ds, base, w) && base <= more
    ensures Tail(log, ds, more, w)
    decreases |ds|
  {
    if ds != [] {
      TailAboveMore(log, base, more, Delivered(w, ds[0].batch, ds[0].fits), ds[1..]);
    }
  }

  // Whatever cursor the watch was seeded with, above it and above any point at
  // or beyond the base the fan-out is the next stretch of the log.
  lemma FanOutCovers(log: seq<Event>, base: int, seed: int, ds: seq<Delivery>, h: int)
    requires Increasing(log) && Tail(log, ds, base, Watch(seed, [])) && h >= base && h >= seed
    ensures forall d :: d in ds ==> |d.fits| == |d.batch|
    ensures Covers(log, h, FanOut(Watch(seed, []), ds))
  {
    assert EventsOf([]) == [];
    assert Covers(log, h, Watch(seed, []));
    TailAboveMore(log, base, h, Watch(seed, []), ds);
    CoversKept(log, h, Watch(seed, []), ds);
  }

  // Nothing at or below the high-water mark it starts from is fanned out.
  lemma {:induction false} FanAboveSeed(log: seq<Event>, base: int, seed: int, w: Watch, ds: seq<Delivery>)
    requires Increasing(log) && Tail(log, ds, base, w) && seed <= w.lastSeen && AllAbove(EventsOf(w.fanned), seed)
    ensures forall d :: d in ds ==> |d.fits| == |d.batch|
    ensures AllAbove(EventsOf(FanOut(w, ds).fanned), seed)
    decreases |ds|
  {
    if ds != [] {
      var d := ds[0];
      AboveIncreasing(log, d.from);
      IncreasingTake(Above(log, d.from), |d.batch|);
      assert d.batch == Above(log, d.from)[..|d.batch|];
      DeliveredIs(w, d.batch, d.fits);
      AboveMembers(d.batch, w.lastSeen);
      FanAboveSeed(log, base, seed, Delivered(w, d.batch, d.fits), ds[1..]);
    }
  }

  // Only what the log holds is ever fanned out.
  lemma {:induction false} FanInLog(log: seq<Event>, base: int, w: Watch, ds: seq<Delivery>)
    requires Increasing(log) && Tail(log, ds, base, w)
    requires forall e :: e in EventsOf(w.fanned) ==> e in log
    ensures forall d :: d in ds ==> |d.fits| == |d.batch|
    ensures forall e :: e in EventsOf(FanOut(w, ds).fanned) ==> e in log
    decreases |ds|
  {
    if ds != [] {
      var d := ds[0];
      AboveIncreasing(log, d.from);
      IncreasingTake(Above(log, d.from), |d.batch|);
      assert d.batch == Above(log, d.from)[..|d.batch|];
      DeliveredIs(w, d.batch, d.fits);
      AboveMembers(log, d.from);
      AboveMembers(d.batch, w.lastSeen);
      FanInLog(log, base, Delivered(w, d.batch, d.fits), ds[1..]);
    }
  }

  // ---------------------------------------------------------------- one connection

  function Kept(fs: seq<Fanned>): seq<Event>
    decreases |fs|
  {
    if fs == [] then []
    else Kept(fs[..|fs| - 1]) + (if fs[|fs| - 1].kept then [fs[|fs| - 1].event] else [])
  }

  function FollowFrom(w: Written, queue: seq<Event>): Written
    decreases |queue|
  {
    if queue == [] then w
    else
      var v := FollowFrom(w, queue[..|queue| - 1]);
      var f := queue[|queue| - 1];
      if f.sequence <= v.highest then v else Written(v.frames + [f], f.sequence, v.done)
  }

  // The handler's loop after the replay: write what is above the highest.
  method Follow(frames0: seq<Event>, highest0: int, queue: seq<Event>) returns (frames: seq<Event>, highest: int)
    ensures Written(frames, highest, true) == FollowFrom(Written(frames0, highest0, true), queue)
  {
    frames, highest := frames0, highest0;
    for i := 0 to |queue|
      invariant Written(frames, highest, true) == FollowFrom(Written(frames0, highest0, true), queue[..i])
    {
      assert queue[..i + 1][..i] == queue[..i];
      if queue[i].sequence <= highest {
        continue;
      }
      frames := frames + [queue[i]];
      highest := queue[i].sequence;
    }
    assert queue[..|queue|] == queue;
  }

  lemma {:induction false} FollowIsAbove(w: Written, queue: seq<Event>)
    requires Increasing(queue)
    ensures FollowFrom(w, queue).frames == w.frames + Above(queue, w.highest)
    ensures FollowFrom(w, queue).highest == LastSequence(Above(queue, w.highest), w.highest)
    ensures queue != [] ==> FollowFrom(w, queue).highest == Max(w.highest, queue[|queue| - 1].sequence)
    decreases |queue|
  {
    if queue == [] {
      assert w.frames + [] == w.frames;
    } else {
      var n := |queue| - 1;
      IncreasingTake(queue, n);
      FollowIsAbove(w, queue[..n]);
      AboveSnoc(queue, w.highest);
      if n > 0 { IncreasingAt(queue, n - 1, n); }
      var more := if queue[n].sequence > w.highest then [queue[n]] else [];
      assert (w.frames + Above(queue[..n], w.highest)) + more == w.frames + (Above(queue[..n], w.highest) + more);
    }
  }

  // A frame above the replay's end that did not fit the buffer.
  predicate Lost(f: Fanned, highest: int) {
    !f.kept && f.event.sequence > highest
  }

  lemma {:induction false} KeptWithoutLoss(fs: seq<Fanned>, h: int)
    requires forall f :: f in fs ==> !Lost(f, h)
    ensures Above(Kept(fs), h) == Above(EventsOf(fs), h)
    decreases |fs|
  {
    if fs != [] {
      var n := |fs| - 1;
      var last := fs[n];
      assert last in fs && forall f :: f in fs[..n] ==> f in fs;
      KeptWithoutLoss(fs[..n], h);
      assert EventsOf(fs)[..n] == EventsOf(fs[..n]);
      AboveSnoc(EventsOf(fs), h);
      if last.kept {
        assert Kept(fs)[..|Kept(fs)| - 1] == Kept(fs[..n]);
        AboveSnoc(Kept(fs), h);
      } else {
        assert Kept(fs) == Kept(fs[..n]);
      }
    }
  }

  lemma {:induction false} KeptMembers(fs: seq<Fanned>, e: Event)
    requires e in Kept(fs)
    ensures exists i :: 0 <= i < |fs| && fs[i].kept && fs[i].event == e
    decreases |fs|
  {
    var n := |fs| - 1;
    if !(fs[n].kept && fs[n].event == e) {
      assert e in Kept(fs[..n]);
      KeptMembers(fs[..n], e);
      var i :| 0 <= i < n && fs[..n][i].kept && fs[..n][i].event == e;
      assert fs[i] == fs[..n][i];
    }
  }

  lemma {:induction false} KeptOrder(fs: seq<Fanned>)
    requires Increasing(EventsOf(fs))
    ensures Increasing(Kept(fs))
    decreases |fs|
  {
    if fs != [] {
      var n := |fs| - 1;
      var es := EventsOf(fs);
      assert es[..n] == EventsOf(fs[..n]);
      IncreasingTake(es, n);
      KeptOrder(fs[..n]);
      var k := Kept(fs[..n]);
      if fs[n].kept {
        forall e | e in k ensures e.sequence <= es[n].sequence - 1 {
          KeptMembers(fs[..n], e);
          var i :| 0 <= i < n && fs[..n][i].kept && fs[..n][i].event == e;
          IncreasingAt(es, i, n);
        }
        IncreasingConcat(k, [es[n]], es[n].sequence - 1);
      } else {
        assert Kept(fs) == k;
      }
    }
  }

  // One connection: the cursor it asked for, how many rows the log held when it
  // subscribed, the reads of its replay, the high-water mark of the team's
  // fan-out at that moment, the fan-out since, and how much of it was followed.
  // The mark may be any number: the first subscriber's cursor seeds it.
  datatype Follower = Follower(after: int, start: nat, sizes: seq<nat>, seen: int, tail: seq<Delivery>, followed: nat)

  ghost predicate Possible(log: seq<Event>, s: Follower) {
    && Increasing(log) && s.start <= |log|
    && (forall i :: 0 <= i < |s.sizes| ==> s.start <= s.sizes[i] <= |log|)
    && Tail(log, s.tail, Base(log, s), Watch(s.seen, []))
    && (forall d :: d in s.tail ==> |d.fits| == |d.batch|)
    && s.followed <= |FanOut(Watch(s.seen, []), s.tail).fanned|
    && (s.followed > 0 ==> FanOut(Watch(s.seen, []), s.tail).fanned[s.followed - 1].kept)
  }

  // What was committed when the connection subscribed, or asked to be skipped.
  function Base(log: seq<Event>, s: Follower): int
    requires s.start <= |log|
  {
    Max(s.after, LastSequence(log[..s.start], s.after))
  }

  ghost function Replayed(log: seq<Event>, s: Follower): Written
    requires Possible(log, s)
  {
    ReplayFrom(Written([], s.after, false), log, s.sizes)
  }

  // The fan-out the connection has followed so far.
  ghost function FollowedFan(log: seq<Event>, s: Follower): seq<Fanned>
    requires Possible(log, s)
  {
    FanOut(Watch(s.seen, []), s.tail).fanned[..s.followed]
  }

  // Everything the connection has written.
  ghost function WrittenBy(log: seq<Event>, s: Follower): Written
    requires Possible(log, s)
  {
    var r := Replayed(log, s);
    if !r.done then r else FollowFrom(r, Kept(FollowedFan(log, s)))
  }

  lemma ReplayedOk(log: seq<Event>, s: Follower)
    requires Possible(log, s)
    ensures var r := Replayed(log, s);
      && NothingSkipped(log, s.after, r.highest, r.frames)
      && r.highest >= s.after
      && (r.done ==> r.highest >= Base(log, s))
  {
    assert NothingSkipped(log, s.after, s.after, []);
    ReplaySkipsNothing(Written([], s.after, false), log, s.sizes, s.after, s.start);
    var r := Replayed(log, s);
    if r.frames != [] {
      AboveMembers(log, s.after);
      assert r.frames[|r.frames| - 1] == Above(log, s.after)[|r.frames| - 1];
      assert Above(log, s.after)[|r.frames| - 1] in Above(log, s.after);
    }
  }

  // The fan-out passed over rows it should have brought: the log has some
  // between the replay's end and the mark the fan-out started from.
  ghost predicate Passed(log: seq<Event>, highest: int, seen: int) {
    exists e :: e in log && highest < e.sequence <= seen
  }

  // Nothing of the fan-out above the replay's end has been followed yet.
  ghost predicate FollowsNothing(fs: seq<Fanned>, highest: int) {
    forall f :: f in fs ==> f.event.sequence <= highest
  }

  // The connection can have written no gap.
  ghost predicate Gapless(log: seq<Event>, s: Follower)
    requires Possible(log, s)
  {
    var r, fs := Replayed(log, s), FollowedFan(log, s);
    r.done ==>
      && (forall f :: f in fs ==> !Lost(f, r.highest))
      && (Passed(log, r.highest, s.seen) ==> FollowsNothing(fs, r.highest))
  }

  lemma FanInOrder(log: seq<Event>, s: Follower)
    requires Possible(log, s)
    ensures Increasing(EventsOf(FollowedFan(log, s)))
    ensures AllAbove(EventsOf(FollowedFan(log, s)), s.seen)
  {
    var h := Max(Base(log, s), s.seen);
    FanOutCovers(log, Base(log, s), s.seen, s.tail, h);
    assert EventsOf([]) == [];
    FanAboveSeed(log, Base(log, s), s.seen, Watch(s.seen, []), s.tail);
    var es := EventsOf(FanOut(Watch(s.seen, []), s.tail).fanned);
    assert EventsOf(FollowedFan(log, s)) == es[..s.followed];
    IncreasingTake(es, s.followed);
  }

  lemma FanIsNext(log: seq<Event>, s: Follower, h: int)
    requires Possible(log, s) && h >= Base(log, s) && h >= s.seen
    ensures Above(EventsOf(FollowedFan(log, s)), h) <= Above(log, h)
  {
    FanOutCovers(log, Base(log, s), s.seen, s.tail, h);
    var es := EventsOf(FanOut(Watch(s.seen, []), s.tail).fanned);
    assert EventsOf(FollowedFan(log, s)) == es[..s.followed];
    AbovePrefix(es[..s.followed], es, h);
  }

  // With nothing passed over, what was followed is what the log holds next.
  lemma FollowedIsNext(log: seq<Event>, s: Follower, h: int)
    requires Possible(log, s) && h >= Base(log, s) && !Passed(log, h, s.seen)
    ensures Above(EventsOf(FollowedFan(log, s)), h) <= Above(log, h)
  {
    if s.seen <= h {
      FanIsNext(log, s, h);
    } else {
      FanIsNext(log, s, s.seen);
      FanInOrder(log, s);
      SameAbove(log, h, s.seen);
      AboveEverything(EventsOf(FollowedFan(log, s)), s.seen);
      AboveEverything(EventsOf(FollowedFan(log, s)), h);
    }
  }

  lemma {:induction false} SameAbove(log: seq<Event>, c: int, d: int)
    requires c <= d && forall e :: e in log ==> !(c < e.sequence <= d)
    ensures Above(log, c) == Above(log, d)
  {
    if log != [] {
      assert log[0] in log && forall e :: e in log[1..] ==> e in log;
      SameAbove(log[1..], c, d);
    }
  }

  // A frame that was dropped above the replay's end, with a later one written,
  // is missing from what was written.
  lemma LossLeavesGap(log: seq<Event>, after: int, fs: seq<Fanned>, h: int, frames: seq<Event>, i: nat)
    requires Increasing(log) && Increasing(EventsOf(fs)) && after <= h
    requires i < |fs| && Lost(fs[i], h) && fs[|fs| - 1].kept
    requires fs[i].event in log
    requires forall e :: e in frames ==> e.sequence <= h
    ensures !(frames + Above(Kept(fs), h) <= Above(log, after))
  {
    var es, out, a := EventsOf(fs), frames + Above(Kept(fs), h), Above(log, after);
    KeptOrder(fs);
    AboveMembers(Kept(fs), h);
    AboveMembers(log, after);
    AboveIncreasing(log, after);
    var lost, last := fs[i].event, fs[|fs| - 1].event;
    IncreasingAt(es, i, |fs| - 1);
    if lost in Kept(fs) {
      KeptMembers(fs, lost);
      var k :| 0 <= k < |fs| && fs[k].kept && fs[k].event == lost;
      if k < i { IncreasingAt(es, k, i); } else { IncreasingAt(es, i, k); }
    }
    assert fs[|fs| - 1].event in Kept(fs);
    assert lost in a && last in out && lost !in out;
    if out <= a {
      PrefixHasAllBelow(out, a, lost, last);
    }
  }

  lemma PrefixHasAllBelow(out: seq<Event>, a: seq<Event>, x: Event, y: Event)
    requires Increasing(a) && out <= a && x in a && y in out && x.sequence < y.sequence
    ensures x in out
  {
    var p :| 0 <= p < |a| && a[p] == x;
    var q :| 0 <= q < |out| && out[q] == y;
    assert a[q] == y;
    if q < p {
      IncreasingAt(a, q, p);
    }
    assert out[p] == x;
  }

  // Rows passed over, with something after them written, are missing too.
  lemma PassedLeavesGap(log: seq<Event>, after: int, fs: seq<Fanned>, h: int, seen: int, frames: seq<Event>)
    requires Increasing(log) && after <= h && Passed(log, h, seen)
    requires Increasing(EventsOf(fs)) && AllAbove(EventsOf(fs), seen)
    requires fs != [] && fs[|fs| - 1].kept
    requires forall e :: e in frames ==> e.sequence <= h
    ensures !(frames + Above(Kept(fs), h) <= Above(log, after))
  {
    var x :| x in log && h < x.sequence <= seen;
    var out, a, last := frames + Above(Kept(fs), h), Above(log, after), fs[|fs| - 1].event;
    AboveMembers(Kept(fs), h);
    AboveMembers(log, after);
    AboveIncreasing(log, after);
    assert EventsOf(fs)[|fs| - 1] == last && last in EventsOf(fs);
    assert last in Kept(fs) && last in out;
    forall e | e in Kept(fs) ensures e.sequence > seen {
      KeptMembers(fs, e);
      var k :| 0 <= k < |fs| && fs[k].kept && fs[k].event == e;
      assert EventsOf(fs)[k] == e;
    }
    if out <= a {
      PrefixHasAllBelow(out, a, x, last);
    }
  }

  // What a connection has written is exactly the next stretch of the log above
  // its cursor if and only if no frame above the replay's end was dropped from
  // its buffer before the last one it wrote, and it wrote nothing after rows
  // that the fan-out's starting mark passed over.
  lemma ConnectionIsExact(log: seq<Event>, s: Follower)
    requires Possible(log, s)
    ensures NothingSkipped(log, s.after, WrittenBy(log, s).highest, WrittenBy(log, s).frames) <==> Gapless(log, s)
  {
    ReplayedOk(log, s);
    var r, fs := Replayed(log, s), FollowedFan(log, s);
    if r.done {
      FanInOrder(log, s);
      KeptOrder(fs);
      FollowIsAbove(r, Kept(fs));
      WrittenAtMost(log, s.after, r);
      if f :| f in fs && Lost(f, r.highest) {
        var i :| 0 <= i < |fs| && fs[i] == f;
        FollowedInLog(log, s, i);
        LossLeavesGap(log, s.after, fs, r.highest, r.frames, i);
      } else {
        KeptWithoutLoss(fs, r.highest);
        if Passed(log, r.highest, s.seen) {
          PassedIsExact(log, s, r, fs);
        } else {
          FollowedIsNext(log, s, r.highest);
          SkippedNoneOnwards(log, s.after, r.highest, r.frames,
            LastSequence(Above(EventsOf(fs), r.highest), r.highest), Above(EventsOf(fs), r.highest));
        }
      }
    }
  }

  lemma PassedIsExact(log: seq<Event>, s: Follower, r: Written, fs: seq<Fanned>)
    requires Possible(log, s) && r == Replayed(log, s) && fs == FollowedFan(log, s) && r.done
    requires Passed(log, r.highest, s.seen)
    requires NothingSkipped(log, s.after, r.highest, r.frames) && r.highest >= s.after
    requires Above(Kept(fs), r.highest) == Above(EventsOf(fs), r.highest)
    requires WrittenBy(log, s).frames == r.frames + Above(Kept(fs), r.highest)
    requires WrittenBy(log, s).highest == LastSequence(Above(Kept(fs), r.highest), r.highest)
    ensures NothingSkipped(log, s.after, WrittenBy(log, s).highest, WrittenBy(log, s).frames) <==> FollowsNothing(fs, r.highest)
  {
    FanInOrder(log, s);
    if fs == [] {
      assert r.frames + [] == r.frames;
    } else {
      WrittenAtMost(log, s.after, r);
      PassedLeavesGap(log, s.after, fs, r.highest, s.seen, r.frames);
      assert EventsOf(fs)[0] in EventsOf(fs) && EventsOf(fs)[0] == fs[0].event;
    }
  }

  // ---------------------------------------------------------------- how far it gets

  function LastFanned(w: Watch, seed: int): int {
    if w.fanned == [] then seed else w.fanned[|w.fanned| - 1].event.sequence
  }

  lemma FanNext(w: Watch, d: Delivery, seed: int)
    requires |d.fits| == |d.batch| && Increasing(d.batch) && w.lastSeen == LastFanned(w, seed)
    ensures var v := Delivered(w, d.batch, d.fits); v.lastSeen == LastFanned(v, seed) && v.lastSeen >= w.lastSeen
    ensures forall e :: e in d.batch ==> e.sequence <= Delivered(w, d.batch, d.fits).lastSeen
  {
    var v, more := Delivered(w, d.batch, d.fits), Above(d.batch, w.lastSeen);
    DeliveredIs(w, d.batch, d.fits);
    var a, b := EventsOf(w.fanned), EventsOf(v.fanned);
    assert b == a + more && |a| == |w.fanned| && |b| == |v.fanned|;
    if v.fanned != [] { assert b[|b| - 1] == v.fanned[|b| - 1].event; }
    if w.fanned != [] { assert a[|a| - 1] == w.fanned[|a| - 1].event; }
    if d.batch != [] {
      CutBounds(d.batch, |d.batch|);
      assert d.batch[..|d.batch|] == d.batch;
    }
  }

  // What is fanned out last is as far as any delivery reaches.
  lemma {:induction false} FanReaches(log: seq<Event>, base: int, w: Watch, ds: seq<Delivery>, seed: int)
    requires Increasing(log) && Tail(log, ds, base, w) && w.lastSeen == LastFanned(w, seed)
    ensures forall d :: d in ds ==> |d.fits| == |d.batch|
    ensures var v := FanOut(w, ds); v.lastSeen == LastFanned(v, seed) && v.lastSeen >= w.lastSeen
    ensures forall d, e :: d in ds && e in d.batch ==> e.sequence <= FanOut(w, ds).lastSeen
    decreases |ds|
  {
    if ds != [] {
      var d := ds[0];
      AboveIncreasing(log, d.from);
      IncreasingTake(Above(log, d.from), |d.batch|);
      assert d.batch == Above(log, d.from)[..|d.batch|];
      FanNext(w, d, seed);
      FanReaches(log, base, Delivered(w, d.batch, d.fits), ds[1..], seed);
      assert ds == [d] + ds[1..];
    }
  }

  // A connection without a gap that was followed to the end of its buffer has
  // written every row of the table up to the highest ever delivered to it, but
  // for what the mark passed over if nothing came after.
  lemma AllDeliveredIsWritten(log: seq<Event>, s: Follower, d: Delivery, e: Event)
    requires Possible(log, s) && Gapless(log, s) && Replayed(log, s).done
    requires s.followed == |FanOut(Watch(s.seen, []), s.tail).fanned|
    requires d in s.tail && e in d.batch && e.sequence > s.seen
    ensures NothingSkipped(log, s.after, WrittenBy(log, s).highest, WrittenBy(log, s).frames)
    ensures e.sequence <= WrittenBy(log, s).highest
  {
    ConnectionIsExact(log, s);
    var r, fs := Replayed(log, s), FollowedFan(log, s);
    FanReaches(log, Base(log, s), Watch(s.seen, []), s.tail, s.seen);
    assert fs == FanOut(Watch(s.seen, []), s.tail).fanned;
    FanInOrder(log, s);
    KeptOrder(fs);
    FollowIsAbove(r, Kept(fs));
    assert Kept(fs) != [] && Kept(fs)[|Kept(fs)| - 1] == fs[|fs| - 1].event;
  }

  lemma FollowedInLog(log: seq<Event>, s: Follower, i: nat)
    requires Possible(log, s) && i < |FollowedFan(log, s)|
    ensures FollowedFan(log, s)[i].event in log
  {
    FanInLog(log, Base(log, s), Watch(s.seen, []), s.tail);
    assert EventsOf(FanOut(Watch(s.seen, []), s.tail).fanned)[i] == FollowedFan(log, s)[i].event;
  }

  lemma WrittenAtMost(log: seq<Event>, after: int, r: Written)
    requires Increasing(log) && NothingSkipped(log, after, r.highest, r.frames)
    ensures forall e :: e in r.frames ==> e.sequence <= r.highest
  {
    if r.frames != [] {
      AboveIncreasing(log, after);
      IncreasingTake(Above(log, after), |r.frames|);
      assert r.frames == Above(log, after)[..|r.frames|];
      CutBounds(r.frames, |r.frames|);
      assert r.frames[..|r.frames|] == r.frames;
    }
  }

  // ---------------------------------------------------------------- two gaps

  // A connection that asked for everything when the log held one row of three,
  // and followed the fan-out of the other two up to its second frame.
  function Second(log: seq<Event>, seen: int, d: Delivery, followed: nat): Follower
    requires |log| == 3
  {
    Follower(0, 1, [1], seen, [d], followed)
  }

  lemma ThreeRows(log: seq<Event>)
    requires |log| == 3 && Increasing(log) && log[0].sequence > 0
    ensures Above(log[..1], 0) == [log[0]] && FramesAfter(log, 1, 0) == [log[0]]
    ensures Above(log, 0) == log
    ensures Above(log, log[0].sequence) == [log[1], log[2]] && Above(log, log[1].sequence) == [log[2]]
  {
    IncreasingAt(log, 0, 1);
    IncreasingAt(log, 1, 2);
    AboveEverything(log[..1], 0);
    assert log[..1] == [log[0]];
    AboveEverything(log, 0);
    AboveCut(log, 1);
    AboveCut(log, 2);
    assert log[1..] == [log[1], log[2]] && log[2..] == [log[2]];
  }

  lemma SecondReplays(log: seq<Event>, s: Follower)
    requires |log| == 3 && Increasing(log) && log[0].sequence > 0
    requires s.after == 0 && s.start == 1 && s.sizes == [1]
    ensures Base(log, s) == log[0].sequence
    ensures ReplayFrom(Written([], 0, false), log, s.sizes) == Written([log[0]], log[0].sequence, true)
  {
    ThreeRows(log);
    assert [] + [log[0]] == [log[0]];
  }

  lemma SecondIsPossible(log: seq<Event>, s: Follower, d: Delivery, fan: seq<Fanned>)
    requires |log| == 3 && Increasing(log) && log[0].sequence > 0
    requires s == Second(log, s.seen, d, |fan|)
    requires |d.fits| == |d.batch| && d.batch <= Above(log, d.from) && (d.from <= s.seen || d.from <= log[0].sequence)
    requires Delivered(Watch(s.seen, []), d.batch, d.fits).fanned == fan && fan != [] && fan[|fan| - 1].kept
    ensures Possible(log, s) && FollowedFan(log, s) == fan
    ensures Replayed(log, s) == Written([log[0]], log[0].sequence, true)
    ensures WrittenBy(log, s) == FollowFrom(Written([log[0]], log[0].sequence, true), Kept(fan))
  {
    SecondReplays(log, s);
    assert s.tail == [d] && [d][1..] == [];
    assert FanOut(Watch(s.seen, []), s.tail).fanned == fan;
  }

  lemma OneFanned(w: Watch, a: Event, fits: bool)
    requires a.sequence > w.lastSeen
    ensures Delivered(w, [a], [fits]) == Watch(a.sequence, w.fanned + [Fanned(a, fits)])
  {
    assert [a][..0] == [] && [fits][..0] == [];
  }

  lemma TwoFanned(w: Watch, a: Event, b: Event, x: bool, y: bool)
    requires w.lastSeen < a.sequence < b.sequence
    ensures Delivered(w, [a, b], [x, y]) == Watch(b.sequence, w.fanned + [Fanned(a, x)] + [Fanned(b, y)])
  {
    OneFanned(w, a, x);
    assert [a, b][..1] == [a] && [x, y][..1] == [x];
  }

  lemma OneFollowed(w: Written, e: Event)
    requires e.sequence > w.highest
    ensures FollowFrom(w, [e]) == Written(w.frames + [e], e.sequence, w.done)
  {
    assert [e][..0] == [];
  }

  // The second row does not fit the buffer and the third does: it is skipped.
  lemma DroppedFrameIsAGap(log: seq<Event>)
    requires |log| == 3 && Increasing(log) && log[0].sequence > 0
    ensures var s := Second(log, 0, Delivery(log[0].sequence, [log[1], log[2]], [false, true]), 2);
      Possible(log, s) && WrittenBy(log, s).frames == [log[0], log[2]] && !Gapless(log, s)
  {
    var d, f1, f2 := Delivery(log[0].sequence, [log[1], log[2]], [false, true]), Fanned(log[1], false), Fanned(log[2], true);
    var s := Second(log, 0, d, 2);
    ThreeRows(log);
    IncreasingAt(log, 0, 1);
    IncreasingAt(log, 1, 2);
    TwoFanned(Watch(0, []), log[1], log[2], false, true);
    assert [] + [f1] + [f2] == [f1, f2];
    SecondIsPossible(log, s, d, [f1, f2]);
    KeptLast(f1, f2);
    OneFollowed(Written([log[0]], log[0].sequence, true), log[2]);
    assert f1 in FollowedFan(log, s) && Lost(f1, log[0].sequence);
  }

  lemma KeptLast(f1: Fanned, f2: Fanned)
    requires !f1.kept && f2.kept
    ensures Kept([f1, f2]) == [f2.event]
  {
    var fs := [f1, f2];
    assert fs[..1] == [f1] && [f1][..0] == [];
    assert Kept([f1]) == Kept([]) + [];
    assert Kept(fs) == Kept(fs[..1]) + [f2.event];
  }

  // The first subscriber asked for what follows the second row before there was
  // one: the fan-out never brings that row, though every frame fits.
  lemma SeedAheadIsAGap(log: seq<Event>)
    requires |log| == 3 && Increasing(log) && log[0].sequence > 0
    ensures var s := Second(log, log[1].sequence, Delivery(log[1].sequence, [log[2]], [true]), 1);
      && Possible(log, s) && WrittenBy(log, s).frames == [log[0], log[2]] && !Gapless(log, s)
      && forall f :: f in FollowedFan(log, s) ==> f.kept
  {
    var d, f := Delivery(log[1].sequence, [log[2]], [true]), Fanned(log[2], true);
    var s := Second(log, log[1].sequence, d, 1);
    ThreeRows(log);
    IncreasingAt(log, 0, 1);
    IncreasingAt(log, 1, 2);
    OneFanned(Watch(log[1].sequence, []), log[2], true);
    assert [] + [f] == [f];
    SecondIsPossible(log, s, d, [f]);
    assert [f][..0] == [] && Kept([f]) == [log[2]];
    OneFollowed(Written([log[0]], log[0].sequence, true), log[2]);
    assert log[1] in log && Passed(log, log[0].sequence, log[1].sequence);
    assert f in FollowedFan(log, s) && f.event.sequence > log[0].sequence;
  }
}
