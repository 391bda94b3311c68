// From the event table of the backend to the log of the board's store: the
// stream server's writing, the wire, the reconnecting reader, and the store.
module EndToEnd {
  import opened Model
  import opened Logs
  import opened Live
  import opened StreamServer
  import opened Store
  import opened StoreRuns

  // The JSON encoding on one side and the decoding on the other.
  datatype Codec = Codec(encode: Event -> string, kind: Event -> string, decode: Decoder)

  ghost predicate Faithful(k: Codec, log: seq<Event>) {
    forall e :: e in log ==> 0 < e.sequence <= MAX_INT64 && k.encode(e) != "" && k.decode(k.encode(e)) == Some(e)
  }

  // What a connection puts on the wire: frames, with keepalives in between.
  datatype Item = Frame(event: Event) | Keepalive

  function EventsIn(items: seq<Item>): seq<Event>
    decreases |items|
  {
    if items == [] then []
    else EventsIn(items[..|items| - 1]) + (if items[|items| - 1].Frame? then [items[|items| - 1].event] else [])
  }

  function ItemLines(i: Item, k: Codec): seq<string> {
    match i
    case Keepalive => KEEPALIVE
    case Frame(e) => if e.sequence < 0 then [] else FrameLines(e, k.kind(e), k.encode)
  }

  function Lines(items: seq<Item>, k: Codec): seq<string>
    decreases |items|
  {
    if items == [] then [] else Lines(items[..|items| - 1], k) + ItemLines(items[|items| - 1], k)
  }

  // What is written parses back to one message per frame, carrying its event.
  lemma {:induction false} LinesCarry(items: seq<Item>, k: Codec, log: seq<Event>)
    requires Faithful(k, log) && forall e :: e in EventsIn(items) ==> e in log
    ensures Messages(Lines(items, k)).pending == EMPTY
    ensures Carry(Messages(Lines(items, k)).ended, EventsIn(items), k.decode)
    decreases |items|
  {
    if items != [] {
      var before, last := items[..|items| - 1], items[|items| - 1];
      assert forall e :: e in EventsIn(before) ==> e in EventsIn(items);
      LinesCarry(before, k, log);
      MessagesConcat(Lines(before, k), ItemLines(last, k));
      match last
      case Keepalive => KeepaliveIsNoMessage();
      case Frame(e) =>
        assert e in EventsIn(items);
        WrittenFrameCarries(e, k.kind(e), k.encode, k.decode);
    }
  }

  // A tail of lines none of which is blank ends no message.
  lemma {:induction false} TailEndsNothing(a: seq<string>, tail: seq<string>)
    requires Messages(a).pending == EMPTY && forall l :: l in tail ==> l != ""
    ensures Messages(a + tail).ended == Messages(a).ended
    decreases |tail|
  {
    if tail == [] {
      assert a + tail == a;
    } else {
      var n := |tail| - 1;
      assert (a + tail)[..|a + tail| - 1] == a + tail[..n];
      assert tail[n] in tail && forall l :: l in tail[..n] ==> l in tail;
      TailEndsNothing(a, tail[..n]);
    }
  }

  // A body that a connection of the stream server produced for this cursor: no
  // frame was dropped from its buffer, no row passed over by the mark its
  // fan-out started from, and it was cut after any of the frames written, or in
  // the middle of one with a read error.
  ghost predicate Served(c: Connection, log: seq<Event>, cursor: int, k: Codec, s: Follower, items: seq<Item>, tail: seq<string>) {
    && c.Body? && c.lines == Lines(items, k) + tail
    && (forall l :: l in tail ==> l != "") && (c.clean ==> tail == [])
    && Possible(log, s) && s.after == cursor
    && EventsIn(items) <= WrittenBy(log, s).frames
    && Gapless(log, s)
  }

  lemma ServedIsHonest(c: Connection, log: seq<Event>, cursor: int, k: Codec, s: Follower, items: seq<Item>, tail: seq<string>)
    requires Increasing(log) && Faithful(k, log) && Served(c, log, cursor, k, s, items, tail)
    ensures Honest(c, log, cursor, |EventsIn(items)|, k.decode)
  {
    ConnectionIsExact(log, s);
    var es := EventsIn(items);
    AboveMembers(log, cursor);
    assert es == Above(log, cursor)[..|es|];
    LinesCarry(items, k, log);
    TailEndsNothing(Lines(items, k), tail);
    if c.clean {
      assert Lines(items, k) + [] == Lines(items, k);
    }
  }

  ghost predicate ServedRun(conns: seq<Connection>, log: seq<Event>, st: Streamed, k: Codec)
    decreases |conns|
  {
    conns != [] && !conns[0].Gone? ==>
      && (conns[0].Body? ==> exists s, items, tail :: Served(conns[0], log, st.cursor, k, s, items, tail))
      && ServedRun(conns[1..], log, Next(st, conns[0], k.decode), k)
  }

  lemma {:induction false} ServedRunIsHonest(conns: seq<Connection>, log: seq<Event>, st: Streamed, k: Codec)
    requires Increasing(log) && Faithful(k, log) && ServedRun(conns, log, st, k)
    ensures HonestRun(conns, log, st, k.decode)
    decreases |conns|
  {
    if conns != [] && !conns[0].Gone? {
      if conns[0].Body? {
        var s, items, tail :| Served(conns[0], log, st.cursor, k, s, items, tail);
        ServedIsHonest(conns[0], log, st.cursor, k, s, items, tail);
      }
      ServedRunIsHonest(conns[1..], log, Next(st, conns[0], k.decode), k);
    }
  }

  // New events in order are all accepted.
  lemma {:induction false} AllAccepted(s: StoreState, evs: seq<Event>)
    requires Increasing(evs) && AllAbove(evs, s.sequence) && AllNumbered(evs)
    ensures SameRows(Accepted(s, evs), evs)
    ensures ApplyAll(s, evs).sequence == LastSequence(evs, s.sequence)
    decreases |evs|
  {
    if evs != [] {
      var n := |evs| - 1;
      IncreasingTake(evs, n);
      assert forall e :: e in evs[..n] ==> e in evs;
      AllAccepted(s, evs[..n]);
      assert evs[n] in evs;
      if n > 0 { IncreasingAt(evs, n - 1, n); }
    }
  }

  // From the table to the timeline: whatever drops and reconnects happen, the
  // store logs exactly the next events of the table above its cursor, one each.
  lemma TableToTimeline(log: seq<Event>, k: Codec, store: StoreState, conns: seq<Connection>)
    requires Increasing(log) && Faithful(k, log)
    requires ServedRun(conns, log, Streamed(store.sequence, []), k)
    ensures var out := StreamFrom(Streamed(store.sequence, []), conns, k.decode).out;
      && SameRows(Accepted(store, out), out)
      && Above(log, store.sequence) == out + Above(log, ApplyAll(store, out).sequence)
  {
    var c := store.sequence;
    var st := Streamed(c, []);
    ServedRunIsHonest(conns, log, st, k);
    ExactlyOnce(log, c, st, conns, k.decode);
    var r := StreamFrom(st, conns, k.decode);
    AboveMembers(log, c);
    AboveIncreasing(log, c);
    var a := Above(log, c);
    IncreasingTake(a, |r.out|);
    assert r.out == a[..|r.out|];
    assert forall e :: e in r.out ==> e in a;
    AllAccepted(store, r.out);
  }

  // A body whose frames carry all that the table has above the cursor.
  ghost predicate WritesAll(c: Connection, log: seq<Event>, cursor: int, k: Codec, items: seq<Item>, tail: seq<string>) {
    && c.Body? && c.lines == Lines(items, k) + tail && (forall l :: l in tail ==> l != "")
    && EventsIn(items) == Above(log, cursor)
  }

  // As soon as one connection is written to the end of the table, the timeline
  // holds all of it above the store's cursor, one row each, whatever was refused
  // or cut before and after.
  lemma TimelineHoldsTheTable(log: seq<Event>, k: Codec, store: StoreState, conns: seq<Connection>, i: nat,
                              items: seq<Item>, tail: seq<string>)
    requires Increasing(log) && Faithful(k, log)
    requires ServedRun(conns, log, Streamed(store.sequence, []), k)
    requires i < |conns| && Gone !in conns[..i]
    requires WritesAll(conns[i], log, StreamFrom(Streamed(store.sequence, []), conns[..i], k.decode).cursor, k, items, tail)
    ensures SameRows(Accepted(store, StreamFrom(Streamed(store.sequence, []), conns, k.decode).out), Above(log, store.sequence))
  {
    var st := Streamed(store.sequence, []);
    var cursor := StreamFrom(st, conns[..i], k.decode).cursor;
    ServedRunIsHonest(conns, log, st, k);
    AboveMembers(log, cursor);
    LinesCarry(items, k, log);
    TailEndsNothing(Lines(items, k), tail);
    var left := Above(log, cursor);
    assert left[..|left|] == left;
    EverythingComesOut(log, store.sequence, conns, i, k.decode);
    TableToTimeline(log, k, store, conns);
  }
}
