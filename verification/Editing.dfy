// Replacing the lines of two kinds in a list: the first of each kind by a new
// one, the others by nothing, and a new one at the end where there was none.
module Editing {
  import opened Model
  import opened Sorting

  function Once<T>(x: Option<T>, wrote: bool): seq<T> {
    if wrote || x.None? then [] else [x.value]
  }

  // What one element becomes, given what was written before it.
  function EditedOne<T>(x: T, isA: T -> bool, isB: T -> bool, a: Option<T>, b: Option<T>, wroteA: bool, wroteB: bool): seq<T> {
    if isA(x) then Once(a, wroteA) else if isB(x) then Once(b, wroteB) else [x]
  }

  // What is written from here on.
  function Edited<T>(xs: seq<T>, isA: T -> bool, isB: T -> bool, a: Option<T>, b: Option<T>, wroteA: bool, wroteB: bool): seq<T> {
    if xs == [] then Once(a, wroteA) + Once(b, wroteB)
    else
      EditedOne(xs[0], isA, isB, a, b, wroteA, wroteB)
      + Edited(xs[1..], isA, isB, a, b, wroteA || isA(xs[0]), wroteB || isB(xs[0]))
  }

  // Nothing is of both kinds, and what is written is of its own.
  ghost predicate Apart<T(!new)>(isA: T -> bool, isB: T -> bool, other: T -> bool, a: Option<T>, b: Option<T>) {
    && (forall x :: !(isA(x) && isB(x)) && (other(x) <==> !isA(x) && !isB(x)))
    && (a.Some? ==> isA(a.value)) && (b.Some? ==> isB(b.value))
  }

  ghost predicate WrittenOnce<T(!new)>(xs: seq<T>, out: seq<T>, isA: T -> bool, isB: T -> bool, other: T -> bool,
                                       a: Option<T>, b: Option<T>, wroteA: bool, wroteB: bool) {
    Only(out, isA) == Once(a, wroteA) && Only(out, isB) == Once(b, wroteB) && Only(out, other) == Only(xs, other)
  }

  lemma OneOnly<T(!new)>(x: T, p: T -> bool)
    ensures Only([x], p) == if p(x) then [x] else []
  {
    OnlyStep([], x, p);
    assert [] + [x] == [x];
  }

  lemma OnceClasses<T(!new)>(x: Option<T>, wrote: bool, p: T -> bool)
    ensures Only(Once(x, wrote), p) == if x.Some? && p(x.value) then Once(x, wrote) else []
  {
    if x.Some? { OneOnly(x.value, p); }
  }

  lemma OneClasses<T(!new)>(x: T, isA: T -> bool, isB: T -> bool, other: T -> bool,
                            a: Option<T>, b: Option<T>, wroteA: bool, wroteB: bool)
    requires Apart(isA, isB, other, a, b)
    ensures var out := EditedOne(x, isA, isB, a, b, wroteA, wroteB);
      && Only(out, isA) == (if isA(x) then Once(a, wroteA) else [])
      && Only(out, isB) == (if isB(x) then Once(b, wroteB) else [])
      && Only(out, other) == (if other(x) then [x] else [])
  {
    OnceClasses(a, wroteA, isA);
    OnceClasses(a, wroteA, isB);
    OnceClasses(a, wroteA, other);
    OnceClasses(b, wroteB, isA);
    OnceClasses(b, wroteB, isB);
    OnceClasses(b, wroteB, other);
    OneOnly(x, isA);
    OneOnly(x, isB);
    OneOnly(x, other);
  }

  // One of each kind is written, and everything else is kept, in order.
  lemma {:induction false} EditedClasses<T(!new)>(xs: seq<T>, isA: T -> bool, isB: T -> bool, other: T -> bool,
                                                  a: Option<T>, b: Option<T>, wroteA: bool, wroteB: bool)
    requires Apart(isA, isB, other, a, b)
    ensures WrittenOnce(xs, Edited(xs, isA, isB, a, b, wroteA, wroteB), isA, isB, other, a, b, wroteA, wroteB)
  {
    if xs == [] {
      EndClasses(isA, isB, other, a, b, wroteA, wroteB);
    } else {
      var x, rest := xs[0], xs[1..];
      var out := Edited(rest, isA, isB, a, b, wroteA || isA(x), wroteB || isB(x));
      EditedClasses(rest, isA, isB, other, a, b, wroteA || isA(x), wroteB || isB(x));
      StepClasses(x, rest, out, isA, isB, other, a, b, wroteA, wroteB);
      Unfolded(xs, x, rest, out, isA, isB, a, b, wroteA, wroteB);
    }
  }

  lemma Unfolded<T>(xs: seq<T>, x: T, rest: seq<T>, out: seq<T>, isA: T -> bool, isB: T -> bool,
                    a: Option<T>, b: Option<T>, wroteA: bool, wroteB: bool)
    requires xs != [] && x == xs[0] && rest == xs[1..]
    requires out == Edited(rest, isA, isB, a, b, wroteA || isA(x), wroteB || isB(x))
    ensures xs == [x] + rest
    ensures Edited(xs, isA, isB, a, b, wroteA, wroteB) == EditedOne(x, isA, isB, a, b, wroteA, wroteB) + out
  {
  }

  lemma EndClasses<T(!new)>(isA: T -> bool, isB: T -> bool, other: T -> bool,
                            a: Option<T>, b: Option<T>, wroteA: bool, wroteB: bool)
    requires Apart(isA, isB, other, a, b)
    ensures WrittenOnce([], Once(a, wroteA) + Once(b, wroteB), isA, isB, other, a, b, wroteA, wroteB)
  {
    var x, y := Once(a, wroteA), Once(b, wroteB);
    OnlyConcat(x, y, isA);
    OnlyConcat(x, y, isB);
    OnlyConcat(x, y, other);
    OnceClasses(a, wroteA, isA);
    OnceClasses(a, wroteA, isB);
    OnceClasses(a, wroteA, other);
    OnceClasses(b, wroteB, isA);
    OnceClasses(b, wroteB, isB);
    OnceClasses(b, wroteB, other);
  }

  lemma StepClasses<T(!new)>(x: T, xs: seq<T>, out: seq<T>, isA: T -> bool, isB: T -> bool, other: T -> bool,
                             a: Option<T>, b: Option<T>, wroteA: bool, wroteB: bool)
    requires Apart(isA, isB, other, a, b)
    requires WrittenOnce(xs, out, isA, isB, other, a, b, wroteA || isA(x), wroteB || isB(x))
    ensures WrittenOnce([x] + xs, EditedOne(x, isA, isB, a, b, wroteA, wroteB) + out, isA, isB, other, a, b, wroteA, wroteB)
  {
    var one := EditedOne(x, isA, isB, a, b, wroteA, wroteB);
    OneClasses(x, isA, isB, other, a, b, wroteA, wroteB);
    OnlyConcat(one, out, isA);
    OnlyConcat(one, out, isB);
    OnlyConcat(one, out, other);
    OneOnly(x, other);
    OnlyConcat([x], xs, other);
  }

  // A list already as it would be written stays as it is.
  lemma {:induction false} EditedFixed<T(!new)>(xs: seq<T>, isA: T -> bool, isB: T -> bool, other: T -> bool,
                                                a: Option<T>, b: Option<T>, wroteA: bool, wroteB: bool)
    requires Apart(isA, isB, other, a, b)
    requires Only(xs, isA) == Once(a, wroteA) && Only(xs, isB) == Once(b, wroteB)
    ensures Edited(xs, isA, isB, a, b, wroteA, wroteB) == xs
  {
    if xs != [] {
      var x, rest := xs[0], xs[1..];
      assert xs == [x] + rest;
      FirstApart(x, rest, isA, Once(a, wroteA));
      FirstApart(x, rest, isB, Once(b, wroteB));
      EditedFixed(rest, isA, isB, other, a, b, wroteA || isA(x), wroteB || isB(x));
    }
  }

  lemma FirstApart<T(!new)>(x: T, rest: seq<T>, p: T -> bool, once: seq<T>)
    requires Only([x] + rest, p) == once && |once| <= 1
    ensures if p(x) then once == [x] && Only(rest, p) == [] else Only(rest, p) == once
  {
    OnlyConcat([x], rest, p);
    OneOnly(x, p);
    if p(x) { assert once[0] == x; }
  }

  // From position k on.
  lemma EditedStep<T>(xs: seq<T>, k: nat, isA: T -> bool, isB: T -> bool, a: Option<T>, b: Option<T>, wroteA: bool, wroteB: bool)
    requires k < |xs|
    ensures Edited(xs[k..], isA, isB, a, b, wroteA, wroteB)
      == EditedOne(xs[k], isA, isB, a, b, wroteA, wroteB)
       + Edited(xs[k + 1..], isA, isB, a, b, wroteA || isA(xs[k]), wroteB || isB(xs[k]))
  {
    assert xs[k..][0] == xs[k] && xs[k..][1..] == xs[k + 1..];
  }

  // ---------------------------------------------------------------- reading only so far

  // The elements before the first that does not fit.
  function Cut<T>(xs: seq<T>, fits: T -> bool): seq<T> {
    if xs == [] || !fits(xs[0]) then [] else [xs[0]] + Cut(xs[1..], fits)
  }

  lemma {:induction false} CutMembers<T(!new)>(xs: seq<T>, fits: T -> bool)
    ensures forall x :: x in Cut(xs, fits) ==> x in xs
  {
    if xs != [] && fits(xs[0]) { CutMembers(xs[1..], fits); }
  }

  lemma {:induction false} CutConcat<T>(xs: seq<T>, ys: seq<T>, fits: T -> bool)
    requires forall i :: 0 <= i < |xs| ==> fits(xs[i])
    ensures Cut(xs + ys, fits) == xs + Cut(ys, fits)
  {
    if xs == [] {
      assert xs + ys == ys;
    } else {
      assert (xs + ys)[1..] == xs[1..] + ys;
      CutConcat(xs[1..], ys, fits);
    }
  }

  // Nothing that does not fit stands before the first of the first kind; what
  // does not fit but is replaced is no obstacle.
  predicate Reaches<T>(xs: seq<T>, isA: T -> bool, isB: T -> bool, fits: T -> bool) {
    xs == [] || isA(xs[0]) || ((isB(xs[0]) || fits(xs[0])) && Reaches(xs[1..], isA, isB, fits))
  }

  lemma NoneLeft<T(!new)>(xs: seq<T>, isA: T -> bool, isB: T -> bool, other: T -> bool, fits: T -> bool,
                          a: Option<T>, b: Option<T>, wroteB: bool)
    requires Apart(isA, isB, other, a, b)
    ensures Only(Cut(Edited(xs, isA, isB, a, b, true, wroteB), fits), isA) == []
  {
    var out := Edited(xs, isA, isB, a, b, true, wroteB);
    EditedClasses(xs, isA, isB, other, a, b, true, wroteB);
    CutMembers(out, fits);
    OnlyMembers(out, isA);
    OnlyMembers(Cut(out, fits), isA);
    HasFirst(Only(Cut(out, fits), isA));
  }

  lemma HasFirst<T>(xs: seq<T>)
    ensures xs == [] || xs[0] in xs
  {
  }

  // What is read of the edited list holds the new first-kind element exactly
  // when the reading reaches it.
  lemma {:induction false} ReadsNew<T(!new)>(xs: seq<T>, isA: T -> bool, isB: T -> bool, other: T -> bool, fits: T -> bool,
                                             a: Option<T>, b: Option<T>, wroteB: bool)
    requires Apart(isA, isB, other, a, b) && (a.Some? ==> fits(a.value)) && (b.Some? ==> fits(b.value))
    ensures Only(Cut(Edited(xs, isA, isB, a, b, false, wroteB), fits), isA)
      == if Reaches(xs, isA, isB, fits) then Once(a, false) else []
  {
    if xs == [] {
      EndReads(isA, isB, other, fits, a, b, wroteB);
    } else {
      var x, rest := xs[0], xs[1..];
      var out := Edited(rest, isA, isB, a, b, isA(x), wroteB || isB(x));
      Unfolded(xs, x, rest, out, isA, isB, a, b, false, wroteB);
      if isA(x) {
        NoneLeft(rest, isA, isB, other, fits, a, b, wroteB || isB(x));
      } else {
        ReadsNew(rest, isA, isB, other, fits, a, b, wroteB || isB(x));
      }
      StepReads(x, out, isA, isB, other, fits, a, b, wroteB);
    }
  }

  lemma EndReads<T(!new)>(isA: T -> bool, isB: T -> bool, other: T -> bool, fits: T -> bool,
                          a: Option<T>, b: Option<T>, wroteB: bool)
    requires Apart(isA, isB, other, a, b) && (a.Some? ==> fits(a.value)) && (b.Some? ==> fits(b.value))
    ensures Only(Cut(Once(a, false) + Once(b, wroteB), fits), isA) == Once(a, false)
  {
    var ab := Once(a, false) + Once(b, wroteB);
    CutConcat(ab, [], fits);
    assert ab + [] == ab;
    EndClasses(isA, isB, other, a, b, false, wroteB);
  }

  lemma StepReads<T(!new)>(x: T, out: seq<T>, isA: T -> bool, isB: T -> bool, other: T -> bool, fits: T -> bool,
                           a: Option<T>, b: Option<T>, wroteB: bool)
    requires Apart(isA, isB, other, a, b) && (a.Some? ==> fits(a.value)) && (b.Some? ==> fits(b.value))
    ensures Only(Cut(EditedOne(x, isA, isB, a, b, false, wroteB) + out, fits), isA)
      == if other(x) && !fits(x) then [] else (if isA(x) then Once(a, false) else []) + Only(Cut(out, fits), isA)
  {
    var one := EditedOne(x, isA, isB, a, b, false, wroteB);
    if other(x) && !fits(x) {
      assert ([x] + out)[0] == x;
    } else {
      CutConcat(one, out, fits);
      OnlyConcat(one, Cut(out, fits), isA);
      OneClasses(x, isA, isB, other, a, b, false, wroteB);
    }
  }

  // ---------------------------------------------------------------- the first of a kind

  // The first element a predicate holds of.
  function First<T>(xs: seq<T>, p: T -> bool): (x: Option<T>)
    ensures x.Some? ==> p(x.value) && x.value in xs
    ensures x.None? ==> forall i :: 0 <= i < |xs| ==> !p(xs[i])
  {
    if xs == [] then None
    else
      var before := First(xs[..|xs| - 1], p);
      if before.None? && p(xs[|xs| - 1]) then Some(xs[|xs| - 1]) else before
  }

  lemma FirstStep<T>(xs: seq<T>, i: nat, p: T -> bool)
    requires i < |xs|
    ensures First(xs[..i + 1], p) == if First(xs[..i], p).None? && p(xs[i]) then Some(xs[i]) else First(xs[..i], p)
  {
    assert xs[..i + 1][..i] == xs[..i];
  }

  // Nothing before it is of its kind.
  lemma {:induction false} FirstIsFirst<T>(xs: seq<T>, p: T -> bool) returns (i: int)
    requires First(xs, p).Some?
    ensures 0 <= i < |xs| && First(xs, p) == Some(xs[i]) && forall j :: 0 <= j < i ==> !p(xs[j])
  {
    var t := xs[..|xs| - 1];
    if First(t, p).Some? {
      i := FirstIsFirst(t, p);
    } else {
      i := |xs| - 1;
    }
  }
}
