// Event logs ordered by sequence: the vocabulary the feed, the store and the
// browser resume share.
module Logs {
  import opened Model

  function SequenceAt(es: seq<Event>, i: int): int
    requires 0 <= i < |es|
  {
    es[i].sequence
  }

  ghost predicate Increasing(es: seq<Event>) {
    forall i, j :: 0 <= i < j < |es| ==> SequenceAt(es, i) < SequenceAt(es, j)
  }

  lemma IncreasingAt(es: seq<Event>, i: int, j: int)
    requires Increasing(es) && 0 <= i < j < |es|
    ensures es[i].sequence < es[j].sequence
  {
    assert SequenceAt(es, i) < SequenceAt(es, j);
  }

  // Every stretch of an increasing log is increasing.
  lemma IncreasingTake(es: seq<Event>, n: int)
    requires Increasing(es) && 0 <= n <= |es|
    ensures Increasing(es[..n])
  {
    forall i, j | 0 <= i < j < n ensures SequenceAt(es[..n], i) < SequenceAt(es[..n], j) {
      IncreasingAt(es, i, j);
    }
  }

  lemma IncreasingDrop(es: seq<Event>, n: int)
    requires Increasing(es) && 0 <= n <= |es|
    ensures Increasing(es[n..])
  {
    forall i, j | 0 <= i < j < |es| - n ensures SequenceAt(es[n..], i) < SequenceAt(es[n..], j) {
      IncreasingAt(es, n + i, n + j);
    }
  }

  ghost predicate AllAbove(es: seq<Event>, c: int) {
    forall e :: e in es ==> e.sequence > c
  }

  // The events with a sequence strictly greater than c, in log order.
  function Above(es: seq<Event>, c: int): seq<Event> {
    if es == [] then []
    else if es[0].sequence > c then [es[0]] + Above(es[1..], c)
    else Above(es[1..], c)
  }

  lemma {:induction false} AboveMembers(es: seq<Event>, c: int)
    ensures forall e :: e in Above(es, c) <==> e in es && e.sequence > c
  {
    if es != [] {
      AboveMembers(es[1..], c);
      assert es == [es[0]] + es[1..];
    }
  }

  // The head of an increasing log is below the rest.
  lemma HeadIsLeast(es: seq<Event>, c: int)
    requires Increasing(es) && es != [] && es[0].sequence > c
    ensures AllAbove(es, c)
  {
    forall e | e in es ensures e.sequence > c {
      var i :| 0 <= i < |es| && es[i] == e;
      if i > 0 { IncreasingAt(es, 0, i); }
    }
  }

  lemma {:induction false} AboveIncreasing(es: seq<Event>, c: int)
    requires Increasing(es)
    ensures Increasing(Above(es, c))
  {
    if es != [] {
      if es[0].sequence > c {
        HeadIsLeast(es, c);
        AboveEverything(es, c);
      } else {
        IncreasingDrop(es, 1);
        AboveIncreasing(es[1..], c);
      }
    }
  }

  // Of an increasing log, what is above c is a suffix.
  lemma {:induction false} AboveIsSuffix(es: seq<Event>, c: int)
    requires Increasing(es)
    ensures |Above(es, c)| <= |es| && Above(es, c) == es[|es| - |Above(es, c)|..]
  {
    if es != [] {
      if es[0].sequence > c {
        HeadIsLeast(es, c);
        AboveEverything(es, c);
      } else {
        IncreasingDrop(es, 1);
        AboveIsSuffix(es[1..], c);
      }
    }
  }

  lemma {:induction false} AboveEverything(es: seq<Event>, c: int)
    requires AllAbove(es, c)
    ensures Above(es, c) == es
  {
    if es != [] {
      AboveEverything(es[1..], c);
    }
  }

  lemma {:induction false} AboveNothing(es: seq<Event>, c: int)
    requires forall e :: e in es ==> e.sequence <= c
    ensures Above(es, c) == []
  {
    if es != [] {
      AboveNothing(es[1..], c);
    }
  }

  lemma {:induction false} AboveConcat(a: seq<Event>, b: seq<Event>, c: int)
    ensures Above(a + b, c) == Above(a, c) + Above(b, c)
  {
    if a == [] {
      assert a + b == b;
    } else {
      var rest := a[1..];
      assert (a + b)[1..] == rest + b;
      AboveConcat(rest, b, c);
      assert ([a[0]] + Above(rest, c)) + Above(b, c) == [a[0]] + (Above(rest, c) + Above(b, c));
    }
  }

  // Reading above c and then above d is reading above the larger of the two.
  lemma {:induction false} AboveTwice(es: seq<Event>, c: int, d: int)
    ensures Above(Above(es, c), d) == Above(es, if c > d then c else d)
  {
    if es != [] {
      AboveTwice(es[1..], c, d);
      if es[0].sequence > c {
        assert Above(es, c)[1..] == Above(es[1..], c);
      }
    }
  }

  // In an increasing log, the n-th event is the last at or below its sequence.
  lemma CutBounds(es: seq<Event>, n: nat)
    requires Increasing(es) && 0 < n <= |es|
    ensures forall e :: e in es[..n] ==> e.sequence <= es[n - 1].sequence
    ensures AllAbove(es[n..], es[n - 1].sequence)
  {
    forall e | e in es[..n] ensures e.sequence <= es[n - 1].sequence {
      var i :| 0 <= i < n && es[i] == e;
      if i < n - 1 { IncreasingAt(es, i, n - 1); }
    }
    forall e | e in es[n..] ensures e.sequence > es[n - 1].sequence {
      var i :| n <= i < |es| && es[i] == e;
      IncreasingAt(es, n - 1, i);
    }
  }

  // An increasing log cut at n: above the n-th event lies exactly the rest.
  lemma AboveCut(es: seq<Event>, n: nat)
    requires Increasing(es) && 0 < n <= |es|
    ensures Above(es, es[n - 1].sequence) == es[n..]
  {
    var d := es[n - 1].sequence;
    CutBounds(es, n);
    assert es == es[..n] + es[n..];
    AboveConcat(es[..n], es[n..], d);
    AboveNothing(es[..n], d);
    AboveEverything(es[n..], d);
  }

  // Taking n events above c moves the cursor to the last of them, and what is
  // above the moved cursor is what was left.
  lemma AboveAfterTaking(es: seq<Event>, c: int, n: nat)
    requires Increasing(es) && n <= |Above(es, c)|
    ensures Above(es, if n == 0 then c else Above(es, c)[n - 1].sequence) == Above(es, c)[n..]
  {
    if n > 0 {
      var a := Above(es, c);
      AboveIncreasing(es, c);
      AboveTwice(es, c, a[n - 1].sequence);
      AboveMembers(es, c);
      assert a[n - 1] in a;
      AboveCut(a, n);
    }
  }

  lemma IncreasingConcat(a: seq<Event>, b: seq<Event>, c: int)
    requires Increasing(a) && Increasing(b)
    requires forall e :: e in a ==> e.sequence <= c
    requires AllAbove(b, c)
    ensures Increasing(a + b)
  {
    forall i, j | 0 <= i < j < |a + b| ensures SequenceAt(a + b, i) < SequenceAt(a + b, j) {
      if j < |a| {
        IncreasingAt(a, i, j);
      } else if i >= |a| {
        IncreasingAt(b, i - |a|, j - |a|);
      } else {
        assert (a + b)[i] in a && (a + b)[j] in b;
      }
    }
  }

  // Everything in a log is above where it started, in order, and at or below
  // the cursor it has reached.
  ghost predicate InOrder(es: seq<Event>, after: int, cursor: int) {
    && after <= cursor
    && Increasing(es)
    && AllAbove(es, after)
    && forall e :: e in es ==> e.sequence <= cursor
  }

  lemma AppendInOrder(es: seq<Event>, after: int, cursor: int, e: Event)
    requires InOrder(es, after, cursor) && e.sequence > cursor
    ensures InOrder(es + [e], after, e.sequence)
  {
    IncreasingConcat(es, [e], cursor);
  }

  function LastSequence(es: seq<Event>, c: int): int {
    if es == [] then c else es[|es| - 1].sequence
  }

  lemma LastSequenceConcat(a: seq<Event>, b: seq<Event>, c: int)
    ensures LastSequence(a + b, c) == LastSequence(b, LastSequence(a, c))
  {
    if b == [] {
      assert a + b == a;
    }
  }

  // No event between the old cursor and the new one is missing.
  ghost predicate NothingSkipped(log: seq<Event>, after: int, cursor: int, out: seq<Event>) {
    out <= Above(log, after) && cursor == LastSequence(out, after)
  }

  lemma SkippedNone(log: seq<Event>, after: int, cursor: int, out: seq<Event>)
    requires Increasing(log) && NothingSkipped(log, after, cursor, out)
    ensures Above(log, after) == out + Above(log, cursor)
  {
    AboveAfterTaking(log, after, |out|);
  }

  lemma SkippedNoneOnwards(log: seq<Event>, after: int, c1: int, out1: seq<Event>, c2: int, out2: seq<Event>)
    requires Increasing(log)
    requires NothingSkipped(log, after, c1, out1) && NothingSkipped(log, c1, c2, out2)
    ensures NothingSkipped(log, after, c2, out1 + out2)
  {
    SkippedNone(log, after, c1, out1);
  }
}
