// What the standard library's sorts promise: a stable sort moves each element
// left past those it must precede. Go compares strings byte by byte. With it,
// the list functions the views share: choosing, mapping and gathering.
module Sorting {

  // ---------------------------------------------------------------- stable sort

  function Insert<T>(s: seq<T>, x: T, less: (T, T) -> bool): seq<T> {
    if s != [] && less(x, s[|s| - 1]) then Insert(s[..|s| - 1], x, less) + [s[|s| - 1]] else s + [x]
  }

  function Sorted<T>(s: seq<T>, less: (T, T) -> bool): seq<T> {
    if s == [] then [] else Insert(Sorted(s[..|s| - 1], less), s[|s| - 1], less)
  }

  lemma {:induction false} InsertKeeps<T>(s: seq<T>, x: T, less: (T, T) -> bool)
    ensures multiset(Insert(s, x, less)) == multiset(s) + multiset{x}
  {
    if s != [] && less(x, s[|s| - 1]) {
      InsertKeeps(s[..|s| - 1], x, less);
      assert s == s[..|s| - 1] + [s[|s| - 1]];
    }
  }

  lemma LastApart<T>(s: seq<T>)
    requires s != []
    ensures multiset(s) == multiset(s[..|s| - 1]) + multiset{s[|s| - 1]}
  {
    assert s == s[..|s| - 1] + [s[|s| - 1]];
  }

  // Sorting loses nothing and adds nothing.
  lemma {:induction false} SortedKeeps<T>(s: seq<T>, less: (T, T) -> bool)
    ensures multiset(Sorted(s, less)) == multiset(s)
  {
    if s != [] {
      var t, last := s[..|s| - 1], s[|s| - 1];
      SortedKeeps(t, less);
      InsertKeeps(Sorted(t, less), last, less);
      LastApart(s);
    }
  }

  lemma SortedMembers<T>(s: seq<T>, less: (T, T) -> bool)
    ensures forall x :: x in Sorted(s, less) <==> x in s
    ensures |Sorted(s, less)| == |s|
  {
    SortedKeeps(s, less);
    forall x ensures x in Sorted(s, less) <==> x in s {
      assert x in Sorted(s, less) <==> x in multiset(Sorted(s, less));
      assert x in s <==> x in multiset(s);
    }
    assert |multiset(Sorted(s, less))| == |Sorted(s, less)| && |multiset(s)| == |s|;
  }

  // ---------------------------------------------------------------- order

  // A strict total order on the elements of a set.
  ghost predicate TotalOn<T(!new)>(less: (T, T) -> bool, on: set<T>) {
    && (forall x :: x in on ==> !less(x, x))
    && (forall x, y, z :: x in on && y in on && z in on && less(x, y) && less(y, z) ==> less(x, z))
    && (forall x, y :: x in on && y in on && x != y ==> less(x, y) || less(y, x))
  }

  ghost predicate Ordered<T(!new)>(s: seq<T>, less: (T, T) -> bool) {
    forall i, j :: 0 <= i < j < |s| ==> less(s[i], s[j])
  }

  lemma {:induction false} InsertOrdered<T(!new)>(s: seq<T>, x: T, less: (T, T) -> bool, on: set<T>)
    requires TotalOn(less, on) && Ordered(s, less) && x !in s && x in on && forall y :: y in s ==> y in on
    ensures Ordered(Insert(s, x, less), less)
  {
    if s != [] {
      var n := |s| - 1;
      assert s[n] in s;
      if less(x, s[n]) {
        InsertOrdered(s[..n], x, less, on);
        InsertKeeps(s[..n], x, less);
        var t := Insert(s[..n], x, less);
        forall i | 0 <= i < |t| ensures less(t[i], s[n]) {
          assert t[i] in multiset(t);
          assert t[i] in multiset(s[..n]) + multiset{x};
        }
      } else {
        forall i | 0 <= i < |s| ensures less(s[i], x) {
          assert s[i] in s;
        }
      }
    }
  }

  ghost predicate AllDistinct<T(!new)>(s: seq<T>) {
    forall i, j :: 0 <= i < j < |s| ==> s[i] != s[j]
  }

  // Distinct elements come out strictly in order.
  lemma {:induction false} SortedOrdered<T(!new)>(s: seq<T>, less: (T, T) -> bool, on: set<T>)
    requires TotalOn(less, on) && AllDistinct(s) && forall y :: y in s ==> y in on
    ensures Ordered(Sorted(s, less), less)
  {
    if s != [] {
      var n := |s| - 1;
      SortedOrdered(s[..n], less, on);
      SortedMembers(s[..n], less);
      InsertOrdered(Sorted(s[..n], less), s[n], less, on);
    }
  }

  // There is one strictly ordered arrangement of a set of elements.
  lemma {:induction false} OneOrder<T(!new)>(a: seq<T>, b: seq<T>, less: (T, T) -> bool, on: set<T>)
    requires TotalOn(less, on) && Ordered(a, less) && Ordered(b, less)
    requires (forall x :: x in a ==> x in on) && (forall x :: x in a <==> x in b)
    ensures a == b
    decreases |a|
  {
    BothEmpty(a, b);
    if a != [] {
      SameFirst(a, b, less, on);
      forall x ensures x in a[1..] <==> x in b[1..] {
        TailMember(a, x, less, on);
        TailMember(b, x, less, on);
      }
      OneOrder(a[1..], b[1..], less, on);
      assert a == [a[0]] + a[1..] && b == [b[0]] + b[1..];
    }
  }

  lemma BothEmpty<T(!new)>(a: seq<T>, b: seq<T>)
    requires forall x :: x in a <==> x in b
    ensures a == [] <==> b == []
  {
    if a != [] { assert a[0] in b; }
    if b != [] { assert b[0] in a; }
  }

  lemma SameFirst<T(!new)>(a: seq<T>, b: seq<T>, less: (T, T) -> bool, on: set<T>)
    requires TotalOn(less, on) && Ordered(a, less) && Ordered(b, less) && a != [] && b != []
    requires (forall x :: x in a ==> x in on) && (forall x :: x in a <==> x in b)
    ensures a[0] == b[0]
  {
    assert a[0] in b && b[0] in a;
    var i :| 0 <= i < |b| && b[i] == a[0];
    var j :| 0 <= j < |a| && a[j] == b[0];
    assert a[0] in a;
  }

  lemma TailMember<T(!new)>(a: seq<T>, x: T, less: (T, T) -> bool, on: set<T>)
    requires TotalOn(less, on) && Ordered(a, less) && a != [] && forall y :: y in a ==> y in on
    ensures x in a[1..] <==> x in a && x != a[0]
  {
    assert a == [a[0]] + a[1..];
    assert a[0] in a;
  }

  // An order that may hold neither way: of three elements, what is not before is
  // not before by way of the third.
  ghost predicate WeakOn<T(!new)>(less: (T, T) -> bool, on: set<T>) {
    && (forall x, y :: x in on && y in on && less(x, y) ==> !less(y, x))
    && (forall x, y, z :: x in on && y in on && z in on && !less(x, y) && !less(y, z) ==> !less(x, z))
  }

  ghost predicate Ascending<T(!new)>(s: seq<T>, less: (T, T) -> bool) {
    forall i, j :: 0 <= i < j < |s| ==> !less(s[j], s[i])
  }

  lemma {:induction false} InsertAscends<T(!new)>(s: seq<T>, x: T, less: (T, T) -> bool, on: set<T>)
    requires WeakOn(less, on) && Ascending(s, less) && x in on && forall y :: y in s ==> y in on
    ensures Ascending(Insert(s, x, less), less)
  {
    if s != [] {
      var n := |s| - 1;
      assert s[n] in s;
      if less(x, s[n]) {
        var t := Insert(s[..n], x, less);
        InsertAscends(s[..n], x, less, on);
        InsertKeeps(s[..n], x, less);
        forall i | 0 <= i < |t| ensures !less(s[n], t[i]) {
          assert t[i] in multiset(t) && t[i] in multiset(s[..n]) + multiset{x};
        }
      } else {
        forall i | 0 <= i < |s| ensures !less(x, s[i]) {
          assert s[i] in s;
        }
      }
    }
  }

  // Nothing comes out behind what it must precede.
  lemma {:induction false} SortedAscends<T(!new)>(s: seq<T>, less: (T, T) -> bool, on: set<T>)
    requires WeakOn(less, on) && forall y :: y in s ==> y in on
    ensures Ascending(Sorted(s, less), less)
  {
    if s != [] {
      var n := |s| - 1;
      SortedAscends(s[..n], less, on);
      SortedMembers(s[..n], less);
      InsertAscends(Sorted(s[..n], less), s[n], less, on);
    }
  }

  // ---------------------------------------------------------------- two classes

  function Only<T>(s: seq<T>, p: T -> bool): seq<T> {
    if s == [] then [] else Only(s[..|s| - 1], p) + if p(s[|s| - 1]) then [s[|s| - 1]] else []
  }

  lemma {:induction false} OnlyMembers<T(!new)>(s: seq<T>, p: T -> bool)
    ensures forall x :: x in Only(s, p) <==> x in s && p(x)
  {
    if s != [] {
      OnlyMembers(s[..|s| - 1], p);
      assert s == s[..|s| - 1] + [s[|s| - 1]];
    }
  }

  lemma {:induction false} InsertPast<T>(front: seq<T>, back: seq<T>, x: T, less: (T, T) -> bool)
    requires forall y :: y in back ==> less(x, y)
    requires forall y :: y in front ==> !less(x, y)
    ensures Insert(front + back, x, less) == front + [x] + back
    decreases |back|
  {
    if back == [] {
      assert front + back == front;
      if front != [] { assert front[|front| - 1] in front; }
    } else {
      var n := |back| - 1;
      assert back[n] in back;
      assert (front + back)[..|front + back| - 1] == front + back[..n];
      InsertPast(front, back[..n], x, less);
      assert front + [x] + back == front + [x] + back[..n] + [back[n]];
    }
  }

  function When<T>(c: bool, x: T): seq<T> {
    if c then [x] else []
  }

  lemma InsertInTwo<T(!new)>(a: seq<T>, b: seq<T>, x: T, less: (T, T) -> bool, first: bool)
    requires forall y :: y in a ==> !less(x, y)
    requires forall y :: y in b ==> (less(x, y) <==> first)
    ensures Insert(a + b, x, less) == (a + When(first, x)) + (b + When(!first, x))
  {
    if first {
      InsertPast(a, b, x, less);
      assert a + [x] + b == (a + [x]) + (b + []);
    } else {
      assert a + b == (a + b) + [];
      InsertPast(a + b, [], x, less);
      assert a + b + [x] + [] == (a + []) + (b + [x]);
    }
  }

  lemma OnlyStep<T(!new)>(t: seq<T>, x: T, p: T -> bool)
    ensures Only(t + [x], p) == Only(t, p) + When(p(x), x)
  {
    assert (t + [x])[..|t|] == t;
  }

  lemma {:induction false} OnlyConcat<T(!new)>(a: seq<T>, b: seq<T>, p: T -> bool)
    ensures Only(a + b, p) == Only(a, p) + Only(b, p)
  {
    if b == [] {
      assert a + b == a;
    } else {
      var t, x := b[..|b| - 1], b[|b| - 1];
      assert a + b == (a + t) + [x] && b == t + [x];
      OnlyConcat(a, t, p);
      OnlyStep(a + t, x, p);
      OnlyStep(t, x, p);
    }
  }

  function Map<S, T>(xs: seq<S>, f: S -> T): seq<T> {
    seq(|xs|, i requires 0 <= i < |xs| => f(xs[i]))
  }

  lemma MapAppend<S, T>(xs: seq<S>, x: S, f: S -> T)
    ensures Map(xs + [x], f) == Map(xs, f) + [f(x)]
  {
  }

  // The lists f gives for the elements, one after another.
  function Gathered<X, Y>(xs: seq<X>, f: X -> seq<Y>): seq<Y> {
    if xs == [] then [] else Gathered(xs[..|xs| - 1], f) + f(xs[|xs| - 1])
  }

  lemma {:induction false} GatheredNothing<X(!new), Y>(xs: seq<X>, f: X -> seq<Y>)
    ensures Gathered(xs, f) == [] <==> forall x :: x in xs ==> f(x) == []
  {
    if xs != [] {
      var t, x := xs[..|xs| - 1], xs[|xs| - 1];
      GatheredNothing(t, f);
      assert xs == t + [x];
    }
  }

  lemma {:induction false} GatheredMembers<X(!new), Y(!new)>(xs: seq<X>, f: X -> seq<Y>)
    ensures forall y :: y in Gathered(xs, f) <==> exists x :: x in xs && y in f(x)
  {
    if xs != [] {
      var t, x := xs[..|xs| - 1], xs[|xs| - 1];
      GatheredMembers(t, f);
      assert xs == t + [x];
      forall y ensures y in Gathered(xs, f) <==> y in Gathered(t, f) || y in f(x) {
      }
    }
  }

  lemma GatheredAppend<X, Y>(xs: seq<X>, x: X, f: X -> seq<Y>)
    ensures Gathered(xs + [x], f) == Gathered(xs, f) + f(x)
  {
    assert (xs + [x])[..|xs|] == xs;
  }

  lemma {:induction false} GatheredConcat<X, Y>(xs: seq<X>, ys: seq<X>, f: X -> seq<Y>)
    ensures Gathered(xs + ys, f) == Gathered(xs, f) + Gathered(ys, f)
  {
    if ys == [] {
      assert xs + ys == xs;
    } else {
      var t, y := ys[..|ys| - 1], ys[|ys| - 1];
      assert xs + ys == (xs + t) + [y] && ys == t + [y];
      GatheredConcat(xs, t, f);
      GatheredAppend(xs + t, y, f);
      GatheredAppend(t, y, f);
    }
  }

  lemma MapOnlyStep<S(!new), T(!new)>(t: seq<S>, x: S, f: S -> T, p: S -> bool, q: T -> bool)
    requires Only(Map(t, f), q) == Map(Only(t, p), f) && (p(x) <==> q(f(x)))
    ensures Only(Map(t + [x], f), q) == Map(Only(t + [x], p), f)
  {
    MapAppend(t, x, f);
    OnlyStep(t, x, p);
    OnlyStep(Map(t, f), f(x), q);
    if p(x) {
      MapAppend(Only(t, p), x, f);
    } else {
      assert Only(t, p) + [] == Only(t, p);
    }
  }

  // Choosing by the image is choosing first.
  lemma {:induction false} MapOnly<S(!new), T(!new)>(xs: seq<S>, f: S -> T, p: S -> bool, q: T -> bool)
    requires forall x :: p(x) <==> q(f(x))
    ensures Only(Map(xs, f), q) == Map(Only(xs, p), f)
  {
    if xs != [] {
      MapOnly(xs[..|xs| - 1], f, p, q);
      MapOnlyStep(xs[..|xs| - 1], xs[|xs| - 1], f, p, q);
      assert xs == xs[..|xs| - 1] + [xs[|xs| - 1]];
    }
  }

  lemma SortedInTwoStep<T(!new)>(t: seq<T>, x: T, less: (T, T) -> bool, first: T -> bool, other: T -> bool)
    requires Sorted(t, less) == Only(t, first) + Only(t, other)
    requires forall y :: y in t ==> (less(x, y) <==> first(x) && !first(y))
    requires (other(x) <==> !first(x)) && forall y :: y in t ==> (other(y) <==> !first(y))
    ensures Sorted(t + [x], less) == Only(t + [x], first) + Only(t + [x], other)
  {
    OnlyMembers(t, first);
    OnlyMembers(t, other);
    SortedAppend(t, x, less);
    InsertInTwo(Only(t, first), Only(t, other), x, less, first(x));
    OnlyStep(t, x, first);
    OnlyStep(t, x, other);
  }

  lemma SortedAppend<T>(t: seq<T>, x: T, less: (T, T) -> bool)
    ensures Sorted(t + [x], less) == Insert(Sorted(t, less), x, less)
  {
    assert (t + [x])[..|t|] == t;
  }

  // When only membership of a class decides, a stable sort puts the class
  // first and keeps the order within and outside it.
  lemma {:induction false} SortedInTwo<T(!new)>(s: seq<T>, less: (T, T) -> bool, first: T -> bool, other: T -> bool)
    requires forall x, y :: x in s && y in s ==> (less(x, y) <==> first(x) && !first(y))
    requires forall x :: x in s ==> (other(x) <==> !first(x))
    ensures Sorted(s, less) == Only(s, first) + Only(s, other)
  {
    if s != [] {
      var t, x := s[..|s| - 1], s[|s| - 1];
      assert s == t + [x];
      SortedInTwo(t, less, first, other);
      SortedInTwoStep(t, x, less, first, other);
    }
  }

  lemma {:induction false} InsertStable<T(!new)>(s: seq<T>, x: T, less: (T, T) -> bool, p: T -> bool)
    requires p(x) ==> forall y :: y in s && p(y) ==> !less(x, y)
    ensures Only(Insert(s, x, less), p) == Only(s, p) + When(p(x), x)
  {
    if s != [] && less(x, s[|s| - 1]) {
      var t, y := s[..|s| - 1], s[|s| - 1];
      assert s == t + [y] && y in s;
      InsertStable(t, x, less, p);
      OnlyStep(Insert(t, x, less), y, p);
      OnlyStep(t, y, p);
    } else {
      OnlyStep(s, x, p);
    }
  }

  // Elements of which none precedes another stay in the order they came in.
  lemma {:induction false} SortedStable<T(!new)>(s: seq<T>, less: (T, T) -> bool, p: T -> bool)
    requires forall x, y :: x in s && y in s && p(x) && p(y) ==> !less(x, y)
    ensures Only(Sorted(s, less), p) == Only(s, p)
  {
    if s != [] {
      var t, x := s[..|s| - 1], s[|s| - 1];
      assert s == t + [x];
      SortedStable(t, less, p);
      SortedMembers(t, less);
      InsertStable(Sorted(t, less), x, less, p);
    }
  }

  // ---------------------------------------------------------------- strings

  predicate LexLess(a: string, b: string) {
    if b == "" then false
    else if a == "" then true
    else a[0] < b[0] || (a[0] == b[0] && LexLess(a[1..], b[1..]))
  }

  lemma {:induction false} LexIrreflexive(a: string)
    ensures !LexLess(a, a)
  {
    if a != "" { LexIrreflexive(a[1..]); }
  }

  lemma {:induction false} LexTransitive(a: string, b: string, c: string)
    requires LexLess(a, b) && LexLess(b, c)
    ensures LexLess(a, c)
  {
    if a != "" && a[0] == b[0] == c[0] { LexTransitive(a[1..], b[1..], c[1..]); }
  }

  lemma {:induction false} LexTotal(a: string, b: string)
    requires a != b
    ensures LexLess(a, b) || LexLess(b, a)
  {
    if a != "" && b != "" && a[0] == b[0] {
      assert a == [a[0]] + a[1..] && b == [b[0]] + b[1..];
      LexTotal(a[1..], b[1..]);
    }
  }

  lemma LexLaws()
    ensures forall a :: !LexLess(a, a)
    ensures forall a, b, c :: LexLess(a, b) && LexLess(b, c) ==> LexLess(a, c)
    ensures forall a, b :: a != b ==> LexLess(a, b) || LexLess(b, a)
  {
    forall a ensures !LexLess(a, a) { LexIrreflexive(a); }
    forall a, b, c | LexLess(a, b) && LexLess(b, c) ensures LexLess(a, c) { LexTransitive(a, b, c); }
    forall a: string, b | a != b ensures LexLess(a, b) || LexLess(b, a) { LexTotal(a, b); }
  }

  // The first place where they differ decides, or that one ends there.
  lemma {:induction false} LexMeans(a: string, b: string)
    ensures LexLess(a, b) <==> exists i :: 0 <= i <= |a| && i < |b| && a[..i] == b[..i] && (i == |a| || a[i] < b[i])
  {
    if b != "" && a != "" && a[0] == b[0] {
      LexMeans(a[1..], b[1..]);
      forall i | 0 < i <= |a| && i < |b|
        ensures a[..i] == b[..i] <==> a[1..][..i - 1] == b[1..][..i - 1]
      {
        assert a[..i] == [a[0]] + a[1..][..i - 1] && b[..i] == [b[0]] + b[1..][..i - 1];
      }
      if LexLess(a, b) {
        var j :| 0 <= j <= |a| - 1 && j < |b| - 1 && a[1..][..j] == b[1..][..j] && (j == |a| - 1 || a[1..][j] < b[1..][j]);
        assert a[..j + 1] == b[..j + 1];
      }
      if i :| 0 <= i <= |a| && i < |b| && a[..i] == b[..i] && (i == |a| || a[i] < b[i]) {
        assert i > 0 && a[1..][..i - 1] == b[1..][..i - 1];
      }
    } else if b != "" {
      assert a[..0] == b[..0];
      if i :| 0 < i <= |a| && i < |b| && a[..i] == b[..i] {
        assert a[..i][0] == b[..i][0];
      }
    }
  }

  lemma {:induction false} OnlyDistinct<T(!new)>(s: seq<T>, p: T -> bool)
    requires AllDistinct(s)
    ensures AllDistinct(Only(s, p))
  {
    if s != [] {
      var t, x := s[..|s| - 1], s[|s| - 1];
      OnlyDistinct(t, p);
      OnlyMembers(t, p);
      OnlyStep(t, x, p);
      assert s == t + [x] && x !in t;
    }
  }
}
