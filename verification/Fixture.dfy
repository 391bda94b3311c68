// Replaying a recorded log as a feed (frontend/internal/feed/fixture.go).
module Fixture {
  import opened Logs
  import opened Model
  import opened Sorting

  // ---------------------------------------------------------------- loading

  predicate Earlier(a: Event, b: Event) {
    a.sequence < b.sequence
  }

  // The recording in sequence order.
  function Loaded(raw: seq<Event>): seq<Event> {
    Sorted(raw, Earlier)
  }

  ghost predicate DistinctSequences(raw: seq<Event>) {
    forall i, j :: 0 <= i < j < |raw| ==> raw[i].sequence != raw[j].sequence
  }

  lemma EarlierTotal(raw: seq<Event>, on: set<Event>)
    requires DistinctSequences(raw) && forall e :: e in on <==> e in raw
    ensures TotalOn(Earlier, on)
  {
    forall x, y | x in on && y in on && x != y ensures Earlier(x, y) || Earlier(y, x) {
      var i :| 0 <= i < |raw| && raw[i] == x;
      var j :| 0 <= j < |raw| && raw[j] == y;
      assert i < j || j < i;
    }
  }

  // With distinct sequences, sorting orders the recording strictly.
  lemma LoadedIncreasing(raw: seq<Event>)
    requires DistinctSequences(raw)
    ensures Increasing(Loaded(raw)) && |Loaded(raw)| == |raw| && forall e :: e in Loaded(raw) <==> e in raw
  {
    var on := set e | e in raw;
    EarlierTotal(raw, on);
    SortedOrdered(raw, Earlier, on);
    SortedMembers(raw, Earlier);
    var es := Loaded(raw);
    forall i, j | 0 <= i < j < |es| ensures SequenceAt(es, i) < SequenceAt(es, j) {
      assert Earlier(es[i], es[j]);
    }
  }

  // ---------------------------------------------------------------- virtual time

  const DEFAULT_GAP := 3_000_000_000  // three seconds, in nanoseconds

  function SpeedOr(speed: real): real {
    if speed <= 0.0 then 1.0 else speed
  }

  function GapOr(maxGap: int): int {
    if maxGap <= 0 then DEFAULT_GAP else maxGap
  }

  const TOP := 0x8000_0000_0000_0000  // 2^63, one more than the longest duration

  // The time between two events: never negative, and as long as a duration can be.
  function Gap(earlier: Time, later: Time): (g: int)
    ensures 0 <= g < TOP
  {
    if later < earlier then 0 else if later - earlier >= TOP then TOP - 1 else later - earlier
  }

  function Quotient(earlier: Time, later: Time, speed: real): (q: real)
    requires speed > 0.0
    ensures q >= 0.0
  {
    DivisionSign(Gap(earlier, later) as real, speed);
    Gap(earlier, later) as real / speed
  }

  lemma DivisionSign(x: real, y: real)
    requires x >= 0.0 && y > 0.0
    ensures x / y >= 0.0
  {
  }

  // Converting a number to a duration truncates it. Go leaves open what a number
  // out of range becomes.
  ghost predicate IsConversion(convert: real -> int) {
    forall x :: -TOP <= convert(x) < TOP && (0.0 <= x < TOP as real ==> convert(x) == x.Floor)
  }

  // On amd64 it becomes the least duration.
  function Amd64(x: real): int {
    if 0.0 <= x < TOP as real then x.Floor else -TOP
  }

  // The pause between two recorded times: scaled, converted and clipped.
  function Pause(earlier: Time, later: Time, speed: real, maxGap: int, convert: real -> int): int
    requires speed > 0.0
  {
    var scaled := convert(Quotient(earlier, later, speed));
    if scaled > maxGap then maxGap else scaled
  }

  // No pause where the clock runs back; else the time between, at this speed and
  // in whole nanoseconds, but no longer than the longest gap; and a time too long
  // for a duration counts as the longest duration.
  lemma PauseIs(earlier: Time, later: Time, speed: real, maxGap: int, convert: real -> int)
    requires speed > 0.0 && maxGap > 0 && IsConversion(convert)
    ensures later <= earlier ==> Pause(earlier, later, speed, maxGap, convert) == 0
    ensures 0 <= later - earlier < TOP && ((later - earlier) as real / speed) < TOP as real ==>
      var q := ((later - earlier) as real / speed).Floor;
      Pause(earlier, later, speed, maxGap, convert) == if q > maxGap then maxGap else q
    ensures later - earlier >= TOP ==> Pause(earlier, later, speed, maxGap, convert) == Pause(0, TOP - 1, speed, maxGap, convert)
  {
    var q := Quotient(earlier, later, speed);
    if later <= earlier {
      assert q == 0.0;
      assert convert(q) == q.Floor == 0;
    } else if later - earlier < TOP && q < TOP as real {
      assert convert(q) == q.Floor;
    }
  }

  // Adding durations wraps around.
  function Wrapped(x: int): int {
    (x + TOP) % (2 * TOP) - TOP
  }

  lemma WrappedIs(x: int)
    ensures -TOP <= x < TOP ==> Wrapped(x) == x
    ensures TOP <= x < 2 * TOP ==> Wrapped(x) < 0
  {
  }

  // The offset of each event from the first, given the pauses between events.
  function OffsetAt(es: seq<Event>, i: nat, pause: (Time, Time) -> int): int
    requires i < |es|
  {
    if i == 0 then 0 else Wrapped(OffsetAt(es, i - 1, pause) + pause(es[i - 1].occurredAt, es[i].occurredAt))
  }

  method Offsets(es: seq<Event>, pause: (Time, Time) -> int) returns (offsets: array<int>)
    ensures fresh(offsets) && offsets.Length == |es|
    ensures forall i {:trigger offsets[i]} :: 0 <= i < |es| ==> offsets[i] == OffsetAt(es, i, pause)
  {
    offsets := new int[|es|];
    var acc := 0;
    for i := 0 to |es|
      invariant offsets.Length == |es| && acc == if i == 0 then 0 else OffsetAt(es, i - 1, pause)
      invariant forall j {:trigger offsets[j]} :: 0 <= j < i ==> offsets[j] == OffsetAt(es, j, pause)
    {
      if i > 0 {
        acc := Wrapped(acc + pause(es[i - 1].occurredAt, es[i].occurredAt));
      }
      offsets[i] := acc;
    }
  }

  function Pausing(speed: real, maxGap: int, convert: real -> int): (Time, Time) -> int {
    (s: Time, t: Time) => Pause(s, t, SpeedOr(speed), GapOr(maxGap), convert)
  }

  // Replayed time never runs backwards, and waits at most the longest gap from
  // each event to the next.
  ghost predicate Advances(es: seq<Event>, pause: (Time, Time) -> int, maxGap: int) {
    forall i :: 0 < i < |es| ==> 0 <= OffsetAt(es, i, pause) - OffsetAt(es, i - 1, pause) <= maxGap
  }

  // The quotient of every gap up to event n by the speed is a duration.
  ghost predicate Fits(es: seq<Event>, n: nat, speed: real)
    requires n < |es| && speed > 0.0
  {
    forall i :: 0 < i <= n ==> FitsAt(es, i, speed)
  }

  predicate FitsAt(es: seq<Event>, i: int, speed: real)
    requires 0 < i < |es| && speed > 0.0
  {
    Quotient(es[i - 1].occurredAt, es[i].occurredAt, speed) < TOP as real
  }

  // How long the replay takes up to event n, were there no bounds on durations.
  function Total(es: seq<Event>, n: nat, speed: real, maxGap: int): (t: int)
    requires n < |es| && speed > 0.0 && maxGap > 0
    ensures t >= 0
  {
    if n == 0 then 0
    else
      var scaled := Quotient(es[n - 1].occurredAt, es[n].occurredAt, speed).Floor;
      Total(es, n - 1, speed, maxGap) + if scaled > maxGap then maxGap else scaled
  }

  // Short enough to be counted: the offsets are then what they should be.
  lemma {:induction false} OffsetIsTotal(es: seq<Event>, n: nat, speed: real, maxGap: int, convert: real -> int)
    requires n < |es| && IsConversion(convert)
    requires Fits(es, n, SpeedOr(speed)) && Total(es, n, SpeedOr(speed), GapOr(maxGap)) < TOP
    ensures OffsetAt(es, n, Pausing(speed, maxGap, convert)) == Total(es, n, SpeedOr(speed), GapOr(maxGap))
  {
    if n > 0 {
      OffsetIsTotal(es, n - 1, speed, maxGap, convert);
      var q := Quotient(es[n - 1].occurredAt, es[n].occurredAt, SpeedOr(speed));
      assert FitsAt(es, n, SpeedOr(speed));
      assert convert(q) == q.Floor;
      WrappedIs(Total(es, n, SpeedOr(speed), GapOr(maxGap)));
    }
  }

  lemma {:induction false} TotalGrows(es: seq<Event>, m: nat, n: nat, speed: real, maxGap: int)
    requires m <= n < |es| && speed > 0.0 && maxGap > 0
    ensures Total(es, m, speed, maxGap) <= Total(es, n, speed, maxGap)
  {
    if m < n { TotalGrows(es, m, n - 1, speed, maxGap); }
  }

  // Replayed at its own speed, which a speed of nothing or less stands for, a
  // recording whose clock never runs back and never pauses longer than the
  // longest gap keeps its own time; three seconds is the longest if none is given.
  lemma {:induction false} KeepsItsTime(es: seq<Event>, n: nat, speed: real, maxGap: int)
    requires n < |es| && (speed <= 0.0 || speed == 1.0)
    requires forall i :: 0 < i <= n ==> 0 <= es[i].occurredAt - es[i - 1].occurredAt < TOP
    requires forall i :: 0 < i <= n ==> es[i].occurredAt - es[i - 1].occurredAt <= if maxGap <= 0 then 3_000_000_000 else maxGap
    ensures Total(es, n, SpeedOr(speed), GapOr(maxGap)) == es[n].occurredAt - es[0].occurredAt
  {
    if n > 0 {
      KeepsItsTime(es, n - 1, speed, maxGap);
      var gap := es[n].occurredAt - es[n - 1].occurredAt;
      assert Quotient(es[n - 1].occurredAt, es[n].occurredAt, SpeedOr(speed)) == gap as real;
    }
  }

  // The quotients are durations, and so is the whole of the replay.
  ghost predicate Countable(es: seq<Event>, n: nat, speed: real, maxGap: int)
    requires n < |es|
  {
    Fits(es, n, SpeedOr(speed)) && Total(es, n, SpeedOr(speed), GapOr(maxGap)) < TOP
  }

  // Then replayed time advances, whatever clock the recording had, at any speed
  // and with any gap asked for.
  lemma ReplayAdvances(es: seq<Event>, speed: real, maxGap: int, convert: real -> int)
    requires es != [] && IsConversion(convert) && Countable(es, |es| - 1, speed, maxGap)
    ensures Advances(es, Pausing(speed, maxGap, convert), if maxGap <= 0 then 3_000_000_000 else maxGap)
  {
    var pause := Pausing(speed, maxGap, convert);
    forall i | 0 < i < |es| ensures 0 <= OffsetAt(es, i, pause) - OffsetAt(es, i - 1, pause) <= GapOr(maxGap) {
      TotalGrows(es, i, |es| - 1, SpeedOr(speed), GapOr(maxGap));
      OffsetIsTotal(es, i, speed, maxGap, convert);
      OffsetIsTotal(es, i - 1, speed, maxGap, convert);
    }
  }

  // The first event at which something no longer fits has its offset below the
  // one before it.
  lemma BreaksAt(es: seq<Event>, n: nat, speed: real, maxGap: int)
    requires 0 < n < |es| && Countable(es, n - 1, speed, maxGap) && !Countable(es, n, speed, maxGap)
    requires GapOr(maxGap) < TOP
    ensures OffsetAt(es, n, Pausing(speed, maxGap, Amd64)) < OffsetAt(es, n - 1, Pausing(speed, maxGap, Amd64))
  {
    var before, total := Total(es, n - 1, SpeedOr(speed), GapOr(maxGap)), Total(es, n, SpeedOr(speed), GapOr(maxGap));
    OffsetIsTotal(es, n - 1, speed, maxGap, Amd64);
    if FitsAt(es, n, SpeedOr(speed)) {
      assert Fits(es, n, SpeedOr(speed));
      WrappedIs(total);
    } else {
      WrappedIs(before - TOP);
    }
  }

  lemma {:induction false} FirstBreak(es: seq<Event>, n: nat, speed: real, maxGap: int) returns (i: nat)
    requires n < |es| && !Countable(es, n, speed, maxGap)
    ensures 0 < i <= n && Countable(es, i - 1, speed, maxGap) && !Countable(es, i, speed, maxGap)
  {
    assert n > 0;
    if Countable(es, n - 1, speed, maxGap) {
      i := n;
    } else {
      i := FirstBreak(es, n - 1, speed, maxGap);
    }
  }

  // Where a number out of range becomes the least duration, it advances if and
  // only if they are.
  lemma AdvancesExactly(es: seq<Event>, speed: real, maxGap: int)
    requires es != [] && GapOr(maxGap) < TOP
    ensures Advances(es, Pausing(speed, maxGap, Amd64), GapOr(maxGap)) <==> Countable(es, |es| - 1, speed, maxGap)
  {
    if Countable(es, |es| - 1, speed, maxGap) {
      ReplayAdvances(es, speed, maxGap, Amd64);
    } else {
      var i := FirstBreak(es, |es| - 1, speed, maxGap);
      BreaksAt(es, i, speed, maxGap);
    }
  }

  // Two events a second apart, replayed ten thousand million times slower: the
  // second is before the first.
  lemma TooSlowRunsBackwards(a: Event, b: Event, maxGap: int)
    requires b.occurredAt == a.occurredAt + 1_000_000_000
    ensures OffsetAt([a, b], 1, Pausing(0.0000000001, maxGap, Amd64)) == -TOP < OffsetAt([a, b], 0, Pausing(0.0000000001, maxGap, Amd64))
  {
    assert Quotient(a.occurredAt, b.occurredAt, 0.0000000001) == 10_000_000_000_000_000_000.0;
    WrappedIs(-TOP);
  }

  // ---------------------------------------------------------------- replaying

  function Shifted(e: Event, base: int, at: Time): Event {
    e.(sequence := e.sequence + base, occurredAt := at)
  }

  // One pass over the recording, renumbered and restarted.
  function Pass(es: seq<Event>, offsets: seq<int>, base: int, start: Time): seq<Event>
    requires |offsets| == |es|
  {
    seq(|es|, i requires 0 <= i < |es| => Shifted(es[i], base, start + offsets[i]))
  }

  // What pass k adds to the recorded sequences.
  function Base(es: seq<Event>, k: nat): int
    requires es != []
  {
    if k == 0 then 0 else es[|es| - 1].sequence + Base(es, k - 1)
  }

  lemma {:induction false} BaseIs(es: seq<Event>, k: nat)
    requires es != []
    ensures Base(es, k) == k * es[|es| - 1].sequence
  {
    if k > 0 {
      BaseIs(es, k - 1);
      var last := es[|es| - 1].sequence;
      assert k * last == (k - 1) * last + last;
    }
  }

  // The first passes, each above the last; pass k starts at starts(k).
  function Passes(es: seq<Event>, offsets: seq<int>, starts: nat -> Time, n: nat): seq<Event>
    requires |offsets| == |es| && es != []
  {
    if n == 0 then []
    else Passes(es, offsets, starts, n - 1) + Pass(es, offsets, Base(es, n - 1), starts(n - 1))
  }

  // One pass of the loop: what the cursor does not cut off.
  method ReplayPass(es: seq<Event>, offsets: array<int>, base: int, start: Time, after: int) returns (out: seq<Event>)
    requires offsets.Length == |es|
    ensures out == Above(Pass(es, offsets[..], base, start), after)
  {
    out := [];
    ghost var pass := Pass(es, offsets[..], base, start);
    for i := 0 to |es|
      invariant out == Above(pass[..i], after)
    {
      var ev := Shifted(es[i], base, start + offsets[i]);
      AboveConcat(pass[..i], [ev], after);
      assert pass[..i + 1] == pass[..i] + [ev];
      if ev.sequence <= after {
        continue;
      }
      out := out + [ev];
    }
    assert pass[..|es|] == pass;
  }

  lemma PassesNext(es: seq<Event>, offsets: seq<int>, starts: nat -> Time, k: nat, base: int, after: int)
    requires |offsets| == |es| && es != [] && base == Base(es, k)
    ensures Above(Passes(es, offsets, starts, k + 1), after)
         == Above(Passes(es, offsets, starts, k), after) + Above(Pass(es, offsets, base, starts(k)), after)
    ensures Base(es, k + 1) == es[|es| - 1].sequence + base
  {
    AboveConcat(Passes(es, offsets, starts, k), Pass(es, offsets, base, starts(k)), after);
  }

  // The stream over a number of passes before it is cancelled.
  method Stream(raw: seq<Event>, after: int, speed: real, maxGap: int, convert: real -> int, loop: bool,
                starts: nat -> Time, passes: nat)
    returns (out: seq<Event>, ghost offsets: seq<int>)
    ensures |offsets| == |raw| == |Loaded(raw)|
    ensures forall i :: 0 <= i < |raw| ==> offsets[i] == OffsetAt(Loaded(raw), i, Pausing(speed, maxGap, convert))
    ensures raw == [] ==> out == []
    ensures raw != [] ==> out == Above(Passes(Loaded(raw), offsets, starts, if loop || passes == 0 then passes else 1), after)
  {
    SortedMembers(raw, Earlier);
    var es := Loaded(raw);
    var times := Offsets(es, Pausing(speed, maxGap, convert));
    offsets := times[..];
    out := [];
    if |es| == 0 {
      return;
    }
    var base := 0;
    for k := 0 to passes
      invariant times[..] == offsets && base == Base(es, k)
      invariant out == Above(Passes(es, offsets, starts, k), after)
      invariant !loop ==> k == 0
    {
      var pass := ReplayPass(es, times, base, starts(k), after);
      PassesNext(es, offsets, starts, k, base, after);
      out := out + pass;
      if !loop {
        return;
      }
      base := es[|es| - 1].sequence + base;
    }
  }

  // ---------------------------------------------------------------- what is emitted

  lemma PassIncreasing(es: seq<Event>, offsets: seq<int>, base: int, start: Time)
    requires |offsets| == |es| && es != [] && Increasing(es)
    ensures InOrder(Pass(es, offsets, base, start), base + es[0].sequence - 1, base + es[|es| - 1].sequence)
  {
    var pass := Pass(es, offsets, base, start);
    forall i, j | 0 <= i < j < |pass| ensures SequenceAt(pass, i) < SequenceAt(pass, j) {
      IncreasingAt(es, i, j);
    }
    forall e | e in pass ensures base + es[0].sequence - 1 < e.sequence <= base + es[|es| - 1].sequence {
      var i :| 0 <= i < |pass| && pass[i] == e;
      if i > 0 { IncreasingAt(es, 0, i); }
      if i < |es| - 1 { IncreasingAt(es, i, |es| - 1); }
    }
    if |es| > 1 { IncreasingAt(es, 0, |es| - 1); }
  }

  // However many passes a looping recording with distinct positive sequences is
  // replayed, the stream is strictly increasing, above zero, and ends where the
  // next pass begins.
  lemma {:induction false} PassesIncreasing(es: seq<Event>, offsets: seq<int>, starts: nat -> Time, n: nat)
    requires |offsets| == |es| && es != [] && Increasing(es) && es[0].sequence > 0
    ensures InOrder(Passes(es, offsets, starts, n), 0, Base(es, n))
  {
    if |es| > 1 { IncreasingAt(es, 0, |es| - 1); }
    if n > 0 {
      PassesIncreasing(es, offsets, starts, n - 1);
      PassIncreasing(es, offsets, Base(es, n - 1), starts(n - 1));
      IncreasingConcat(Passes(es, offsets, starts, n - 1), Pass(es, offsets, Base(es, n - 1), starts(n - 1)), Base(es, n - 1));
    }
  }

  // Event i of pass k is the recorded one with its own sequence plus k times the
  // last one, at its offset from when that pass began.
  lemma {:induction false} PassesNumber(es: seq<Event>, offsets: seq<int>, starts: nat -> Time, n: nat, k: nat, i: nat)
    requires |offsets| == |es| && k < n && i < |es|
    ensures |Passes(es, offsets, starts, n)| == n * |es| && 0 <= k * |es| + i < n * |es|
    ensures Passes(es, offsets, starts, n)[k * |es| + i]
      == es[i].(sequence := k * es[|es| - 1].sequence + es[i].sequence, occurredAt := starts(k) + offsets[i])
  {
    assert n * |es| == (n - 1) * |es| + |es|;
    BaseIs(es, k);
    if k == n - 1 {
      PassesLength(es, offsets, starts, n - 1);
    } else {
      PassesNumber(es, offsets, starts, n - 1, k, i);
    }
  }

  lemma {:induction false} PassesLength(es: seq<Event>, offsets: seq<int>, starts: nat -> Time, n: nat)
    requires |offsets| == |es| && es != []
    ensures |Passes(es, offsets, starts, n)| == n * |es|
  {
    if n > 0 {
      PassesLength(es, offsets, starts, n - 1);
      assert n * |es| == (n - 1) * |es| + |es|;
    }
  }

  // Resuming above a cursor gives exactly the part of the whole stream above it,
  // strictly increasing, over any number of passes.
  lemma ResumesExactly(raw: seq<Event>, offsets: seq<int>, starts: nat -> Time, n: nat, after: nat)
    requires raw != [] && DistinctSequences(raw) && (forall e :: e in raw ==> e.sequence > 0) && |offsets| == |raw|
    ensures |Loaded(raw)| == |raw|
    ensures var all := Passes(Loaded(raw), offsets, starts, n);
      Above(all, after) == Above(Above(all, 0), after) && Above(all, 0) == all && Increasing(Above(all, after))
  {
    LoadedIncreasing(raw);
    var es := Loaded(raw);
    assert es[0] in es;
    var all := Passes(es, offsets, starts, n);
    PassesIncreasing(es, offsets, starts, n);
    AboveEverything(all, 0);
    AboveTwice(all, 0, after);
    AboveIncreasing(all, after);
  }
}
