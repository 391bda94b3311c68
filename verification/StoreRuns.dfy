// What the store keeps over whole runs of deliveries and refreshes.
module StoreRuns {
  import opened Model
  import opened Logs
  import opened Fold
  import opened Store

  // ---------------------------------------------------------------- deliveries

  function ApplyAll(s: StoreState, evs: seq<Event>): StoreState
    decreases |evs|
  {
    if evs == [] then s else Applied(ApplyAll(s, evs[..|evs| - 1]), evs[|evs| - 1])
  }

  // The events a run of deliveries adds to the log, stamped, before trimming.
  function Accepted(s: StoreState, evs: seq<Event>): seq<Event>
    decreases |evs|
  {
    if evs == [] then []
    else
      var t := ApplyAll(s, evs[..|evs| - 1]);
      var e := evs[|evs| - 1];
      Accepted(s, evs[..|evs| - 1]) + (if Accepts(t, e) then [Stamped(t, e)] else [])
  }

  ghost predicate AllNumbered(evs: seq<Event>) {
    forall e :: e in evs ==> e.sequence != 0
  }

  lemma {:induction false} ApplyAllConcat(s: StoreState, a: seq<Event>, b: seq<Event>)
    ensures ApplyAll(s, a + b) == ApplyAll(ApplyAll(s, a), b)
    decreases |b|
  {
    if b == [] {
      assert a + b == a;
    } else {
      assert (a + b)[..|a + b| - 1] == a + b[..|b| - 1];
      ApplyAllConcat(s, a, b[..|b| - 1]);
    }
  }

  lemma {:induction false} AcceptedConcat(s: StoreState, a: seq<Event>, b: seq<Event>)
    ensures Accepted(s, a + b) == Accepted(s, a) + Accepted(ApplyAll(s, a), b)
    decreases |b|
  {
    if b == [] {
      assert a + b == a && Accepted(s, a) + [] == Accepted(s, a);
    } else {
      var t, e := b[..|b| - 1], b[|b| - 1];
      assert (a + b)[..|a + b| - 1] == a + t;
      AcceptedConcat(s, a, t);
      ApplyAllConcat(s, a, t);
      var u := ApplyAll(s, a + t);
      var more := if Accepts(u, e) then [Stamped(u, e)] else [];
      assert Accepted(s, a + b) == Accepted(s, a + t) + more;
      assert (Accepted(s, a) + Accepted(ApplyAll(s, a), t)) + more == Accepted(s, a) + (Accepted(ApplyAll(s, a), t) + more);
    }
  }

  // ---------------------------------------------------------------- fold once

  // Delivery i is a record: newer than the start and than every one before it.
  predicate IsRecord(c: int, evs: seq<Event>, i: nat)
    requires i < |evs|
  {
    evs[i].sequence > c && forall j :: 0 <= j < i ==> evs[j].sequence < evs[i].sequence
  }

  function Records(c: int, evs: seq<Event>): seq<Event>
    decreases |evs|
  {
    if evs == [] then []
    else
      var n := |evs| - 1;
      Records(c, evs[..n]) + (if IsRecord(c, evs, n) then [evs[n]] else [])
  }

  function MaxSequence(c: int, evs: seq<Event>): int
    decreases |evs|
  {
    if evs == [] then c
    else
      var m := MaxSequence(c, evs[..|evs| - 1]);
      if evs[|evs| - 1].sequence > m then evs[|evs| - 1].sequence else m
  }

  lemma {:induction false} MaxSequenceIsMax(c: int, evs: seq<Event>)
    ensures MaxSequence(c, evs) >= c
    ensures forall j :: 0 <= j < |evs| ==> evs[j].sequence <= MaxSequence(c, evs)
    ensures MaxSequence(c, evs) == c || exists j :: 0 <= j < |evs| && evs[j].sequence == MaxSequence(c, evs)
    decreases |evs|
  {
    if evs != [] {
      var before := evs[..|evs| - 1];
      MaxSequenceIsMax(c, before);
      forall j | 0 <= j < |evs| ensures evs[j].sequence <= MaxSequence(c, evs) {
        if j < |before| { assert evs[j] == before[j]; }
      }
      if MaxSequence(c, before) == MaxSequence(c, evs) != c {
        var j :| 0 <= j < |before| && before[j].sequence == MaxSequence(c, before);
        assert evs[j] == before[j];
      }
    }
  }

  lemma {:induction false} CursorIsMax(s: StoreState, evs: seq<Event>)
    requires AllNumbered(evs)
    ensures ApplyAll(s, evs).sequence == MaxSequence(s.sequence, evs)
    decreases |evs|
  {
    if evs != [] {
      assert evs[|evs| - 1] in evs;
      CursorIsMax(s, evs[..|evs| - 1]);
    }
  }

  lemma RecordBeatsMax(c: int, evs: seq<Event>)
    requires evs != []
    ensures IsRecord(c, evs, |evs| - 1) <==> evs[|evs| - 1].sequence > MaxSequence(c, evs[..|evs| - 1])
  {
    MaxSequenceIsMax(c, evs[..|evs| - 1]);
  }

  // However often and in whatever order events are delivered, the store is the
  // fold of the records alone.
  lemma {:induction false} FoldsOnlyRecords(s: StoreState, evs: seq<Event>)
    requires AllNumbered(evs)
    ensures ApplyAll(s, evs) == ApplyAll(s, Records(s.sequence, evs))
    decreases |evs|
  {
    if evs != [] {
      var n := |evs| - 1;
      FoldsOnlyRecords(s, evs[..n]);
      CursorIsMax(s, evs[..n]);
      RecordBeatsMax(s.sequence, evs);
      assert evs[n] in evs;
      var r := Records(s.sequence, evs[..n]);
      if IsRecord(s.sequence, evs, n) {
        assert (r + [evs[n]])[..|r|] == r;
      } else {
        assert r + [] == r;
      }
    }
  }

  // A redelivery starts no later than where the log had been read to.
  datatype Segment = Segment(start: nat, end: nat)

  ghost predicate Contiguous(segs: seq<Segment>, read: nat, n: nat)
    decreases |segs|
  {
    && read <= n
    && (segs != [] ==>
          && segs[0].start <= read && segs[0].start <= segs[0].end <= n
          && Contiguous(segs[1..], Reach(read, segs[0]), n))
  }

  function Reach(read: nat, seg: Segment): nat {
    if seg.end > read then seg.end else read
  }

  function ReachAll(read: nat, segs: seq<Segment>): nat
    decreases |segs|
  {
    if segs == [] then read else ReachAll(Reach(read, segs[0]), segs[1..])
  }

  function Deliveries(log: seq<Event>, segs: seq<Segment>, read: nat): seq<Event>
    requires Contiguous(segs, read, |log|)
    decreases |segs|
  {
    if segs == [] then []
    else log[segs[0].start..segs[0].end] + Deliveries(log, segs[1..], Reach(read, segs[0]))
  }

  // Applying the first n of an increasing log leaves the cursor at the n-th.
  lemma {:induction false} ApplyPrefix(s: StoreState, log: seq<Event>, n: nat)
    requires Increasing(log) && AllNumbered(log) && AllAbove(log, s.sequence) && n <= |log|
    ensures ApplyAll(s, log[..n]).sequence == (if n == 0 then s.sequence else log[n - 1].sequence)
    decreases n
  {
    if n > 0 {
      ApplyPrefix(s, log, n - 1);
      assert log[..n][..n - 1] == log[..n - 1];
      assert log[n - 1] in log;
      if n > 1 { IncreasingAt(log, n - 2, n - 1); }
    }
  }

  lemma ReadIsBelowCursor(s: StoreState, log: seq<Event>, n: nat)
    requires Increasing(log) && AllNumbered(log) && AllAbove(log, s.sequence) && n <= |log|
    ensures forall i :: 0 <= i < n ==> log[i].sequence <= ApplyAll(s, log[..n]).sequence
  {
    ApplyPrefix(s, log, n);
    forall i | 0 <= i < n ensures log[i].sequence <= log[n - 1].sequence {
      if i < n - 1 { IncreasingAt(log, i, n - 1); }
    }
  }

  // Redelivering a part that was read already changes nothing.
  lemma {:induction false} RedeliveryIsIdle(s: StoreState, log: seq<Event>, start: nat, end: nat)
    requires start <= end <= |log| && AllNumbered(log)
    requires forall i :: start <= i < end ==> log[i].sequence <= s.sequence
    ensures ApplyAll(s, log[start..end]) == s
    decreases end
  {
    if start < end {
      assert log[start..end][..end - 1 - start] == log[start..end - 1];
      assert log[end - 1] in log;
      RedeliveryIsIdle(s, log, start, end - 1);
    }
  }

  lemma SegmentReads(s: StoreState, log: seq<Event>, read: nat, seg: Segment)
    requires Increasing(log) && AllNumbered(log) && AllAbove(log, s.sequence)
    requires seg.start <= read <= |log| && seg.start <= seg.end <= |log|
    ensures ApplyAll(ApplyAll(s, log[..read]), log[seg.start..seg.end]) == ApplyAll(s, log[..Reach(read, seg)])
  {
    ReadIsBelowCursor(s, log, read);
    if seg.end <= read {
      RedeliveryIsIdle(ApplyAll(s, log[..read]), log, seg.start, seg.end);
    } else {
      SegmentExtends(s, log, read, seg.start, seg.end);
    }
  }

  lemma SegmentExtends(s: StoreState, log: seq<Event>, read: nat, start: nat, end: nat)
    requires AllNumbered(log) && start <= read <= end <= |log|
    requires forall i :: start <= i < read ==> log[i].sequence <= ApplyAll(s, log[..read]).sequence
    ensures ApplyAll(ApplyAll(s, log[..read]), log[start..end]) == ApplyAll(s, log[..end])
  {
    var t := ApplyAll(s, log[..read]);
    SplitSegment(log, start, read, end);
    ApplyAllConcat(t, log[start..read], log[read..end]);
    RedeliveryIsIdle(t, log, start, read);
    ApplyAllConcat(s, log[..read], log[read..end]);
  }

  lemma SplitSegment(log: seq<Event>, start: nat, mid: nat, end: nat)
    requires start <= mid <= end <= |log|
    ensures log[start..end] == log[start..mid] + log[mid..end]
    ensures log[..end] == log[..mid] + log[mid..end]
  {
  }

  // Overlapping redelivery of parts of a log equals folding it once.
  lemma {:induction false} RedeliveryFoldsOnce(s: StoreState, log: seq<Event>, segs: seq<Segment>, read: nat)
    requires Increasing(log) && AllNumbered(log) && AllAbove(log, s.sequence)
    requires Contiguous(segs, read, |log|)
    ensures ReachAll(read, segs) <= |log|
    ensures ApplyAll(ApplyAll(s, log[..read]), Deliveries(log, segs, read)) == ApplyAll(s, log[..ReachAll(read, segs)])
    decreases |segs|
  {
    if segs != [] {
      var seg := segs[0];
      SegmentReads(s, log, read, seg);
      RedeliveryFoldsOnce(s, log, segs[1..], Reach(read, seg));
      ApplyAllConcat(ApplyAll(s, log[..read]), log[seg.start..seg.end], Deliveries(log, segs[1..], Reach(read, seg)));
    }
  }

  // ---------------------------------------------------------------- the log

  lemma TrimmedTwice(h: seq<Event>, e: Event)
    ensures Trimmed(Trimmed(h) + [e]) == Trimmed(h + [e])
  {
  }

  lemma AppliedLog(t: StoreState, e: Event, h: seq<Event>)
    requires t.events == Trimmed(h)
    ensures Applied(t, e).events == Trimmed(h + (if Accepts(t, e) then [Stamped(t, e)] else []))
  {
    if Accepts(t, e) {
      TrimmedTwice(h, Stamped(t, e));
    } else {
      assert h + [] == h;
    }
  }

  // The log is the accepted events in order, cut to the newest MAX_EVENTS.
  lemma {:induction false} LogIsAccepted(s: StoreState, evs: seq<Event>)
    requires |s.events| <= MAX_EVENTS
    ensures ApplyAll(s, evs).events == Trimmed(s.events + Accepted(s, evs))
    decreases |evs|
  {
    if evs == [] {
      assert s.events + [] == s.events;
    } else {
      var before, e := evs[..|evs| - 1], evs[|evs| - 1];
      LogIsAccepted(s, before);
      var t, a := ApplyAll(s, before), Accepted(s, before);
      AppliedLog(t, e, s.events + a);
      var added := if Accepts(t, e) then [Stamped(t, e)] else [];
      assert s.events + a + added == s.events + (a + added);
    }
  }

  // Logged sequences strictly increase and end at the cursor.
  lemma {:induction false} AcceptedInOrder(s: StoreState, evs: seq<Event>)
    ensures InOrder(Accepted(s, evs), s.sequence, ApplyAll(s, evs).sequence)
    ensures LastSequence(Accepted(s, evs), s.sequence) == ApplyAll(s, evs).sequence
    decreases |evs|
  {
    if evs != [] {
      var before, e := evs[..|evs| - 1], evs[|evs| - 1];
      AcceptedInOrder(s, before);
      var t, a := ApplyAll(s, before), Accepted(s, before);
      if Accepts(t, e) {
        AppendInOrder(a, s.sequence, t.sequence, Stamped(t, e));
      } else {
        assert a + [] == a;
      }
    }
  }

  function Structural(evs: seq<Event>): nat
    decreases |evs|
  {
    if evs == [] then 0 else Structural(evs[..|evs| - 1]) + (if evs[|evs| - 1].structural then 1 else 0)
  }

  // The board revision rises by one exactly on the accepted structural events.
  lemma {:induction false} RevisionCountsStructural(s: StoreState, evs: seq<Event>)
    ensures ApplyAll(s, evs).boardRevision == s.boardRevision + Structural(Accepted(s, evs))
    decreases |evs|
  {
    if evs != [] {
      var before := evs[..|evs| - 1];
      RevisionCountsStructural(s, before);
      var t := ApplyAll(s, before);
      var a := Accepted(s, evs);
      if Accepts(t, evs[|evs| - 1]) {
        assert a[..|a| - 1] == Accepted(s, before);
      } else {
        assert a == Accepted(s, before);
      }
    }
  }

  // An accepted event is one that came in, but for its number, which it had or is
  // the next one, and the board revision.
  ghost predicate CameIn(e: Event, evs: seq<Event>) {
    exists ev :: ev in evs && e == ev.(sequence := e.sequence, boardRevision := e.boardRevision)
      && (ev.sequence != 0 ==> e.sequence == ev.sequence)
  }

  lemma {:induction false} AcceptedCameIn(s: StoreState, evs: seq<Event>)
    ensures forall e :: e in Accepted(s, evs) ==> CameIn(e, evs)
    decreases |evs|
  {
    if evs != [] {
      var before, ev := evs[..|evs| - 1], evs[|evs| - 1];
      var e := Stamped(ApplyAll(s, before), ev);
      AcceptedCameIn(s, before);
      assert ev in evs && forall x :: x in before ==> x in evs;
      assert CameIn(e, evs);
    }
  }

  // Without a number it takes the next one; with one it is taken if that is higher.
  lemma NextNumber(s: StoreState, ev: Event)
    ensures Applied(s, ev).sequence == if ev.sequence == 0 then s.sequence + 1 else if ev.sequence > s.sequence then ev.sequence else s.sequence
    ensures Applied(s, ev).events != s.events ==> ev.sequence == 0 || ev.sequence > s.sequence
  {
  }

  predicate CountsAt(es: seq<Event>, r: int, i: nat) {
    i < |es| && es[i].boardRevision == r + Structural(es[..i + 1])
  }

  lemma CountsOn(b: seq<Event>, x: Event, r: int, i: nat)
    requires i < |b| ==> CountsAt(b, r, i)
    requires i == |b| ==> x.boardRevision == r + Structural(b) + if x.structural then 1 else 0
    ensures i <= |b| ==> CountsAt(b + [x], r, i)
  {
    if i < |b| {
      assert (b + [x])[..i + 1] == b[..i + 1];
    } else {
      assert (b + [x])[..|b| + 1] == b + [x] && (b + [x])[..|b|] == b;
    }
  }

  // It carries the revision the board had with it.
  lemma {:induction false} StampsRevision(s: StoreState, evs: seq<Event>, i: nat)
    requires i < |Accepted(s, evs)|
    ensures CountsAt(Accepted(s, evs), s.boardRevision, i)
    decreases |evs|
  {
    var before, ev := evs[..|evs| - 1], evs[|evs| - 1];
    var b := Accepted(s, before);
    if i < |b| { StampsRevision(s, before, i); }
    RevisionCountsStructural(s, before);
    if Accepts(ApplyAll(s, before), ev) {
      CountsOn(b, Stamped(ApplyAll(s, before), ev), s.boardRevision, i);
      assert Accepted(s, evs) == b + [Stamped(ApplyAll(s, before), ev)];
    } else {
      assert Accepted(s, evs) == b;
    }
  }

  lemma {:induction false} EventsAfterIsAbove(es: seq<Event>, k: int)
    ensures EventsAfterSpec(es, k) == Above(es, k)
    decreases |es|
  {
    if es != [] {
      var before := es[..|es| - 1];
      EventsAfterIsAbove(before, k);
      assert es == before + [es[|es| - 1]];
      AboveConcat(before, [es[|es| - 1]], k);
      assert Above([es[|es| - 1]], k) == (if es[|es| - 1].sequence > k then [es[|es| - 1]] else []);
    }
  }

  lemma AboveSplit(h: seq<Event>, n: nat, k: int)
    requires n <= |h|
    ensures Above(h, k) == Above(h[..n], k) + Above(h[n..], k)
  {
    assert h == h[..n] + h[n..];
    AboveConcat(h[..n], h[n..], k);
  }

  lemma SuffixComplete(h: seq<Event>, n: nat, k: int)
    requires Increasing(h) && 0 < n <= |h|
    ensures CompleteAfter(h[n..], h, k) <==> k >= h[n - 1].sequence
  {
    EventsAfterIsAbove(h[n..], k);
    AboveSplit(h, n, k);
    PrefixAboveNothing(h, n, k);
    assert |Above(h, k)| == |Above(h[..n], k)| + |Above(h[n..], k)|;
  }

  lemma PrefixAboveNothing(h: seq<Event>, n: nat, k: int)
    requires Increasing(h) && 0 < n <= |h|
    ensures Above(h[..n], k) == [] <==> k >= h[n - 1].sequence
  {
    CutBounds(h, n);
    if k >= h[n - 1].sequence {
      AboveNothing(h[..n], k);
    } else {
      AboveMembers(h[..n], k);
      assert h[..n][n - 1] in h[..n];
    }
  }

  // Reading what is stored after k misses nothing of the history after k.
  ghost predicate CompleteAfter(stored: seq<Event>, h: seq<Event>, k: int) {
    EventsAfterSpec(stored, k) == Above(h, k)
  }

  // Reading the trimmed log after k gives everything ever logged after k
  // exactly when k is not below the newest event that was evicted.
  lemma ResumeDespiteTrimming(h: seq<Event>, k: int)
    requires Increasing(h)
    ensures CompleteAfter(Trimmed(h), h, k) <==> (|h| <= MAX_EVENTS || k >= h[|h| - MAX_EVENTS - 1].sequence)
  {
    if |h| <= MAX_EVENTS {
      EventsAfterIsAbove(h, k);
    } else {
      SuffixComplete(h, |h| - MAX_EVENTS, k);
    }
  }

  // ---------------------------------------------------------------- refreshes

  datatype Op = Deliver(ev: Event) | RefreshWith(ts: TeamState)

  function Run(s: StoreState, ops: seq<Op>): StoreState
    decreases |ops|
  {
    if ops == [] then s
    else
      var t := Run(s, ops[..|ops| - 1]);
      match ops[|ops| - 1]
      case Deliver(ev) => Applied(t, ev)
      case RefreshWith(ts) => Refreshed(t, ts)
  }

  function DeliveredIn(ops: seq<Op>): seq<Event>
    decreases |ops|
  {
    if ops == [] then []
    else DeliveredIn(ops[..|ops| - 1]) + (if ops[|ops| - 1].Deliver? then [ops[|ops| - 1].ev] else [])
  }

  // The same rows but for the board revision they are stamped with.
  ghost predicate SameRows(a: seq<Event>, b: seq<Event>) {
    |a| == |b| && forall i :: 0 <= i < |a| ==> a[i].(boardRevision := 0) == b[i].(boardRevision := 0)
  }

  lemma SameRowsAppend(a: seq<Event>, b: seq<Event>, e: Event, f: Event)
    requires SameRows(a, b) && e.(boardRevision := 0) == f.(boardRevision := 0)
    ensures SameRows(Trimmed(a + [e]), Trimmed(b + [f]))
  {
    assert SameRows(a + [e], b + [f]);
  }

  // Refreshing in between swallows nothing and moves no cursor: the timeline
  // is that of the deliveries alone, and the board revision never falls.
  lemma {:induction false} RefreshSwallowsNothing(s: StoreState, ops: seq<Op>)
    ensures Run(s, ops).sequence == ApplyAll(s, DeliveredIn(ops)).sequence
    ensures SameRows(Run(s, ops).events, ApplyAll(s, DeliveredIn(ops)).events)
    ensures Run(s, ops).boardRevision >= ApplyAll(s, DeliveredIn(ops)).boardRevision >= s.boardRevision
    decreases |ops|
  {
    if ops != [] {
      var before := ops[..|ops| - 1];
      RefreshSwallowsNothing(s, before);
      var a := DeliveredIn(before);
      match ops[|ops| - 1]
      case Deliver(ev) =>
        assert DeliveredIn(ops)[..|a|] == a;
        var r, d := Run(s, before), ApplyAll(s, a);
        assert ApplyAll(s, DeliveredIn(ops)) == Applied(d, ev);
        if Accepts(d, ev) {
          SameRowsAppend(r.events, d.events, Stamped(r, ev), Stamped(d, ev));
        }
      case RefreshWith(_) =>
        assert DeliveredIn(ops) == a;
    }
  }

  // From a load or a refresh on, events change no entity; the revision a refresh
  // leaves is the higher of the two.
  lemma SnapshotTakesOver(s: StoreState, ts: TeamState, evs: seq<Event>)
    ensures ApplyAll(Loaded(s, ts), evs).world == Loaded(s, ts).world
    ensures ApplyAll(Refreshed(s, ts), evs).world == Refreshed(s, ts).world == Loaded(s, ts).world
    ensures Refreshed(s, ts).boardRevision >= s.boardRevision && Refreshed(s, ts).boardRevision >= ts.boardRevision
    ensures Refreshed(s, ts).boardRevision == s.boardRevision || Refreshed(s, ts).boardRevision == ts.boardRevision
  {
    AuthorityKeepsWorld(Loaded(s, ts), evs);
    AuthorityKeepsWorld(Refreshed(s, ts), evs);
  }

  lemma {:induction false} AuthorityKeepsWorld(s: StoreState, evs: seq<Event>)
    requires s.authoritative
    ensures ApplyAll(s, evs).world == s.world && ApplyAll(s, evs).authoritative
    decreases |evs|
  {
    if evs != [] { AuthorityKeepsWorld(s, evs[..|evs| - 1]); }
  }

  // ---------------------------------------------------------------- what a load leaves

  // No later row has the key of this one.
  ghost predicate LastAt<T>(xs: seq<T>, key: T -> string, i: int) {
    0 <= i < |xs| && forall j :: i < j < |xs| ==> key(xs[j]) != key(xs[i])
  }

  // The map has a row for each key among these, the last that has it.
  ghost predicate LastRows<T(!new)>(m: map<string, T>, xs: seq<T>, key: T -> string) {
    && (forall k :: k in m <==> exists x :: x in xs && key(x) == k)
    && (forall i :: LastAt(xs, key, i) ==> key(xs[i]) in m && m[key(xs[i])] == xs[i])
  }

  lemma {:induction false} KeyedIsLast<T(!new)>(xs: seq<T>, key: T -> string)
    ensures LastRows(Keyed(xs, key), xs, key)
    decreases |xs|
  {
    if xs != [] {
      var n := |xs| - 1;
      var t, x := xs[..n], xs[n];
      KeyedIsLast(t, key);
      var before, m := Keyed(t, key), Keyed(xs, key);
      assert xs == t + [x];
      forall k ensures k in m <==> exists y :: y in xs && key(y) == k {
        if k in before {
          var y :| y in t && key(y) == k;
          assert y in xs;
        }
        if k == key(x) { assert x in xs; }
      }
      forall i | LastAt(xs, key, i) ensures key(xs[i]) in m && m[key(xs[i])] == xs[i] {
        if i < n {
          assert key(xs[n]) != key(xs[i]);
          assert t[i] == xs[i] && LastAt(t, key, i);
        }
      }
    }
  }

  // The world has these rows, kind by kind.
  ghost predicate HasRows(w: World, members: seq<Member>, sessions: seq<Session>, intents: seq<Intent>, claims: seq<Claim>,
                          contracts: seq<Contract>, decisions: seq<Decision>, conflicts: seq<Conflict>)
  {
    && LastRows(w.members, members, (m: Member) => m.key)
    && LastRows(w.sessions, sessions, (s: Session) => s.key)
    && LastRows(w.intents, intents, (i: Intent) => i.key)
    && LastRows(w.claims, claims, (c: Claim) => c.key)
    && LastRows(w.contracts, contracts, (c: Contract) => c.key)
    && LastRows(w.decisions, decisions, (d: Decision) => d.key)
    && LastRows(w.conflicts, conflicts, (c: Conflict) => c.key)
  }

  lemma TeamHasRows(ts: TeamState)
    ensures HasRows(WorldOf(ts), ts.members, ts.sessions, ts.intents, ts.claims, ts.contracts, ts.decisions, ts.conflicts)
  {
    KeyedIsLast(ts.members, (m: Member) => m.key);
    KeyedIsLast(ts.sessions, (s: Session) => s.key);
    KeyedIsLast(ts.intents, (i: Intent) => i.key);
    KeyedIsLast(ts.claims, (c: Claim) => c.key);
    KeyedIsLast(ts.contracts, (c: Contract) => c.key);
    KeyedIsLast(ts.decisions, (d: Decision) => d.key);
    KeyedIsLast(ts.conflicts, (c: Conflict) => c.key);
  }

  // A load or a refresh leaves the snapshot's rows of all seven kinds, and no others.
  lemma LoadLeavesRows(s: StoreState, ts: TeamState)
    ensures HasRows(Loaded(s, ts).world, ts.members, ts.sessions, ts.intents, ts.claims, ts.contracts, ts.decisions, ts.conflicts)
    ensures HasRows(Refreshed(s, ts).world, ts.members, ts.sessions, ts.intents, ts.claims, ts.contracts, ts.decisions, ts.conflicts)
  {
    TeamHasRows(ts);
  }

  // ---------------------------------------------------------------- entities

  ghost predicate UniqueAgents(agents: seq<Agent>) {
    forall i, j :: 0 <= i < j < |agents| ==> agents[i].key != agents[j].key
  }

  predicate InForceOk(d: Decision) {
    d.Active() ==> d.endedAt == ZERO_TIME && d.supersededBy == ""
  }

  // No session asserts one side of a contract twice at a time.
  ghost predicate OneActive(xs: seq<Assertion>) {
    forall i, j :: 0 <= i < j < |xs| && xs[i].status == ACTIVE && xs[j].status == ACTIVE
      ==> xs[i].sessionKey != xs[j].sessionKey || xs[i].role != xs[j].role
  }

  ghost predicate SessionsOk(m: map<string, Session>) {
    forall k :: k in m ==> m[k].key == k
  }

  ghost predicate MembersOk(m: map<string, Member>) {
    forall k :: k in m ==> m[k].key == k && UniqueAgents(m[k].agents)
  }

  ghost predicate DecisionsOk(m: map<string, Decision>) {
    forall k :: k in m ==> m[k].key == k && InForceOk(m[k])
  }

  ghost predicate ContractsOk(m: map<string, Contract>) {
    forall k :: k in m ==> OneActive(m[k].assertions)
  }

  ghost predicate WorldOk(w: World) {
    SessionsOk(w.sessions) && MembersOk(w.members) && DecisionsOk(w.decisions) && ContractsOk(w.contracts)
  }

  lemma {:induction false} RegisteredUnique(agents: seq<Agent>, a: Agent)
    requires UniqueAgents(agents)
    ensures UniqueAgents(Registered(agents, a))
    ensures forall x :: x in Registered(agents, a) ==> x.key == a.key || exists y :: y in agents && y.key == x.key
  {
    if agents != [] && agents[0].key != a.key {
      RegisteredUnique(agents[1..], a);
      var rest := Registered(agents[1..], a);
      forall x | x in rest ensures x.key != agents[0].key {
        if x.key != a.key {
          var y :| y in agents[1..] && y.key == x.key;
          var j :| 0 <= j < |agents[1..]| && agents[1..][j] == y;
          assert agents[j + 1] == y;
        }
      }
      forall x | x in [agents[0]] + rest ensures x.key == a.key || exists y :: y in agents && y.key == x.key {
        if x in rest && x.key != a.key {
          var y :| y in agents[1..] && y.key == x.key;
          assert y in agents;
        } else {
          assert agents[0] in agents;
        }
      }
    } else if agents != [] {
      var r := Registered(agents, a);
      assert forall i :: 0 <= i < |r| ==> r[i].key == agents[i].key;
      forall x | x in r ensures x.key == a.key || exists y :: y in agents && y.key == x.key {
        var i :| 0 <= i < |r| && r[i] == x;
        assert agents[i] in agents;
      }
    }
  }

  lemma {:induction false} RestatedKeys(agents: seq<Agent>, key: string, status: string, at: Time)
    ensures var r := Restated(agents, key, status, at);
      |r| == |agents| && forall i :: 0 <= i < |r| ==> r[i].key == agents[i].key
  {
    if agents != [] && agents[0].key != key {
      RestatedKeys(agents[1..], key, status, at);
    }
  }

  lemma PublishedOneActive(xs: seq<Assertion>, a: Assertion, at: Time)
    requires OneActive(xs)
    ensures OneActive(Published(xs, a, at))
  {
    var ys := SupersededAll(xs, a.sessionKey, a.role);
    assert forall i :: 0 <= i < |ys| && ys[i].status == ACTIVE ==>
      ys[i] == xs[i] && (xs[i].sessionKey != a.sessionKey || xs[i].role != a.role);
  }

  lemma WithdrawnOneActive(xs: seq<Assertion>, session: string)
    requires OneActive(xs)
    ensures OneActive(WithdrawnAll(xs, session))
  {
    var ys := WithdrawnAll(xs, session);
    assert forall i :: 0 <= i < |ys| && ys[i].status == ACTIVE ==> ys[i] == xs[i];
  }

  lemma FoldKeepsMembers(m: map<string, Member>, c: Change, at: Time)
    requires MembersOk(m)
    ensures MembersOk(FoldedMembers(m, c, at))
  {
    if c.AgentRegistered? {
      var x := MemberAt(m, c.memberKey);
      RegisteredUnique(x.agents, Agent(c.agentKey, x.key, c.title, OrDefault(c.status, ACTIVE), at));
    } else if c.AgentStatusChanged? && c.memberKey in m {
      RestatedKeys(m[c.memberKey].agents, c.agentKey, c.status, at);
    }
  }

  lemma FoldKeepsContracts(m: map<string, Contract>, c: Change, at: Time)
    requires ContractsOk(m)
    ensures ContractsOk(FoldedContracts(m, c, at))
  {
    if ConcernsContract(c) {
      var xs := ContractAt(m, c.contractKey).assertions;
      assert OneActive(xs);
      if c.ContractWithdrawn? {
        WithdrawnOneActive(xs, c.sessionKey);
      } else if c.assertion.Some? {
        PublishedOneActive(xs, c.assertion.value, at);
      }
    }
  }

  lemma FoldKeepsDecisions(m: map<string, Decision>, c: Change, at: Time)
    requires DecisionsOk(m)
    ensures DecisionsOk(FoldedDecisions(m, c, at))
  {
  }

  lemma FoldKeepsSessions(m: map<string, Session>, intents: map<string, Intent>, c: Change, at: Time)
    requires SessionsOk(m)
    ensures SessionsOk(FoldedSessions(m, intents, c, at))
  {
  }

  // Every event keeps the entities well-formed.
  lemma FoldKeepsWorldOk(w: World, ev: Event)
    requires WorldOk(w)
    ensures WorldOk(Folded(w, ev))
  {
    FoldKeepsMembers(w.members, ev.change, ev.occurredAt);
    FoldKeepsSessions(w.sessions, w.intents, ev.change, ev.occurredAt);
    FoldKeepsContracts(w.contracts, ev.change, ev.occurredAt);
    FoldKeepsDecisions(w.decisions, ev.change, ev.occurredAt);
  }

  function FoldAll(w: World, evs: seq<Event>): World
    decreases |evs|
  {
    if evs == [] then w else Folded(FoldAll(w, evs[..|evs| - 1]), evs[|evs| - 1])
  }

  // Over every log: agent keys unique per member, a decision in force neither
  // ended nor superseded, one active assertion per contract, session and role.
  lemma {:induction false} RunsKeepWorldOk(evs: seq<Event>)
    ensures WorldOk(FoldAll(EMPTY_WORLD, evs))
    decreases |evs|
  {
    if evs != [] {
      RunsKeepWorldOk(evs[..|evs| - 1]);
      FoldKeepsWorldOk(FoldAll(EMPTY_WORLD, evs[..|evs| - 1]), evs[|evs| - 1]);
    }
  }

  // The store of a recording is the fold of the events it accepted.
  lemma {:induction false} StoreFoldsAccepted(s: StoreState, evs: seq<Event>)
    requires !s.authoritative
    ensures !ApplyAll(s, evs).authoritative
    ensures ApplyAll(s, evs).world == FoldAll(s.world, Accepted(s, evs))
    decreases |evs|
  {
    if evs != [] {
      var before := evs[..|evs| - 1];
      StoreFoldsAccepted(s, before);
      var a := Accepted(s, evs);
      if Accepts(ApplyAll(s, before), evs[|evs| - 1]) {
        assert a[..|a| - 1] == Accepted(s, before);
      } else {
        assert a == Accepted(s, before);
      }
    }
  }

  ghost predicate HoldsNothing(m: map<string, Claim>, session: string) {
    forall k :: k in m && m[k].sessionKey == session ==> m[k].status != ACTIVE
  }

  predicate Claims(ev: Event, session: string) {
    ev.change.ClaimCreated? && ev.change.sessionKey == session
  }

  // From the end of a session to the next claim made for it, it holds nothing.
  lemma {:induction false} EndedSessionHoldsNothing(w: World, end: Event, evs: seq<Event>)
    requires SessionsOk(w.sessions) && end.change.SessionEnded?
    requires forall ev :: ev in evs ==> !Claims(ev, end.change.sessionKey)
    ensures HoldsNothing(FoldAll(Folded(w, end), evs).claims, end.change.sessionKey)
    decreases |evs|
  {
    if evs == [] {
      EndReleases(w, end);
    } else {
      var before := evs[..|evs| - 1];
      assert forall ev :: ev in before ==> ev in evs;
      EndedSessionHoldsNothing(w, end, before);
      assert evs[|evs| - 1] in evs;
      var t, ev := FoldAll(Folded(w, end), before), evs[|evs| - 1];
      ClaimsStayReleased(t.claims, t.sessions, ev.change, ev.occurredAt, end.change.sessionKey);
    }
  }

  lemma EndReleases(w: World, end: Event)
    requires SessionsOk(w.sessions) && end.change.SessionEnded?
    ensures HoldsNothing(Folded(w, end).claims, end.change.sessionKey)
  {
  }

  lemma ClaimsStayReleased(m: map<string, Claim>, sessions: map<string, Session>, c: Change, at: Time, session: string)
    requires HoldsNothing(m, session)
    requires !(c.ClaimCreated? && c.sessionKey == session)
    ensures HoldsNothing(FoldedClaims(m, sessions, c, at), session)
  {
  }
}
