// nestSubagents (frontend/internal/state/derive.go): one member's agent lanes
// reordered so that every subagent lane follows its supervisor's.
module Nesting {
  import opened Model
  import opened Counting

  // ---------------------------------------------------------------- places

  // A lane drawn at a depth.
  datatype Spot = Spot(lane: nat, depth: nat)

  // parent[i] is the lane that supervises lane i, or -1.
  ghost predicate ParentsOk(parent: seq<int>) {
    forall i :: 0 <= i < |parent| ==> -1 <= parent[i] < |parent|
  }

  ghost predicate LanesOk(out: seq<Spot>, n: nat) {
    forall k :: 0 <= k < |out| ==> out[k].lane < n
  }

  ghost predicate Distinct(out: seq<Spot>) {
    forall j, k :: 0 <= j < k < |out| ==> out[j].lane != out[k].lane
  }

  ghost predicate IsPlaced(out: seq<Spot>, i: int) {
    exists k :: 0 <= k < |out| && out[k].lane == i
  }

  // The spot at j is the supervisor the lane would be nested under at this
  // depth, were it drawn at position k: one level up, with nothing shallower
  // than the lane in between.
  ghost predicate Supervises(out: seq<Spot>, j: int, k: int, supervisor: int, depth: nat)
    requires k <= |out|
  {
    && 0 <= j < k && out[j].lane == supervisor && out[j].depth + 1 == depth
    && forall m :: j < m < k ==> out[m].depth >= depth
  }

  // Every nested lane follows its supervisor.
  ghost predicate WellNested(out: seq<Spot>, parent: seq<int>)
    requires LanesOk(out, |parent|)
  {
    forall k :: 0 <= k < |out| && out[k].depth > 0 ==>
      exists j :: Supervises(out, j, k, parent[out[k].lane], out[k].depth)
  }

  // Lanes nested under one supervisor keep their order.
  ghost predicate SiblingsInOrder(out: seq<Spot>, parent: seq<int>)
    requires LanesOk(out, |parent|)
  {
    forall j, k ::
      (0 <= j < k < |out| && out[j].depth > 0 && out[k].depth > 0 && parent[out[j].lane] == parent[out[k].lane])
      ==> out[j].lane < out[k].lane
  }

  ghost predicate Good(out: seq<Spot>, parent: seq<int>) {
    && ParentsOk(parent) && LanesOk(out, |parent|) && Distinct(out)
    && WellNested(out, parent) && SiblingsInOrder(out, parent)
  }

  ghost predicate ChildrenOk(children: seq<seq<nat>>, parent: seq<int>) {
    && |children| == |parent| && ParentsOk(parent)
    && (forall p, a, b :: 0 <= p < |children| && 0 <= a < b < |children[p]| ==> children[p][a] < children[p][b])
    && (forall p, a :: 0 <= p < |children| && 0 <= a < |children[p]| ==> children[p][a] < |parent| && parent[children[p][a]] == p)
    && (forall c :: 0 <= c < |parent| && parent[c] >= 0 ==> c in children[parent[c]])
  }

  // ---------------------------------------------------------------- placing

  // out1 adds lane i at a depth, and then only deeper lanes.
  ghost predicate Extends(out0: seq<Spot>, out1: seq<Spot>, i: nat, depth: nat) {
    && out0 <= out1 && |out0| < |out1| && out1[|out0|] == Spot(i, depth)
    && forall k :: |out0| < k < |out1| ==> out1[k].depth > depth
  }

  // The lanes under every lane drawn since out0 are drawn, but perhaps not
  // those under one exception.
  ghost predicate ClosedBetween(out0: seq<Spot>, out1: seq<Spot>, parent: seq<int>, except: int) {
    forall c ::
      (0 <= c < |parent| && parent[c] >= 0 && parent[c] != except && IsPlaced(out1, parent[c]) && !IsPlaced(out0, parent[c]))
      ==> IsPlaced(out1, c)
  }

  // The lanes nested under i so far are among these, and these are all drawn.
  ghost predicate ChildrenDone(out: seq<Spot>, parent: seq<int>, i: nat, done: seq<nat>)
    requires LanesOk(out, |parent|)
  {
    && (forall k :: 0 <= k < |out| && out[k].depth > 0 && parent[out[k].lane] == i ==> out[k].lane in done)
    && (forall c :: c in done ==> IsPlaced(out, c))
  }

  // No lane after i is nested under i's supervisor yet.
  ghost predicate InTurn(out: seq<Spot>, parent: seq<int>, i: nat)
    requires LanesOk(out, |parent|) && i < |parent|
  {
    forall k :: 0 <= k < |out| && out[k].depth > 0 && parent[out[k].lane] == parent[i] ==> out[k].lane <= i
  }

  // Lane i may be drawn next at this depth.
  ghost predicate Ready(out: seq<Spot>, parent: seq<int>, i: nat, depth: nat)
    requires LanesOk(out, |parent|) && i < |parent|
  {
    depth > 0 ==> InTurn(out, parent, i) && exists j :: Supervises(out, j, |out|, parent[i], depth)
  }

  // What drawing lane i and everything under it does.
  ghost predicate Drawn(out0: seq<Spot>, out1: seq<Spot>, parent: seq<int>, i: nat, depth: nat) {
    && IsPlaced(out1, i) && ClosedBetween(out0, out1, parent, -1)
    && if IsPlaced(out0, i) then out1 == out0 else Extends(out0, out1, i, depth)
  }

  // Lane i is drawn last, and the lanes under it up to these.
  ghost predicate DrawingUnder(out0: seq<Spot>, out1: seq<Spot>, parent: seq<int>, i: nat, depth: nat, done: seq<nat>) {
    && Good(out1, parent)
    && Extends(out0, out1, i, depth) && ClosedBetween(out0, out1, parent, i) && ChildrenDone(out1, parent, i, done)
  }

  ghost function Unplaced(out: seq<Spot>, n: nat): set<int> {
    set i | 0 <= i < n && !IsPlaced(out, i)
  }

  lemma PlacedStays(out0: seq<Spot>, out1: seq<Spot>)
    requires out0 <= out1
    ensures forall i :: IsPlaced(out0, i) ==> IsPlaced(out1, i)
  {
    forall i | IsPlaced(out0, i) ensures IsPlaced(out1, i) {
      var k :| 0 <= k < |out0| && out0[k].lane == i;
      assert out1[k].lane == i;
    }
  }

  // The closure of nestSubagents as an object: what place reads and writes.
  class Placement {
    ghost const parent: seq<int>
    const children: seq<seq<nat>>
    var placed: seq<bool>
    var out: seq<Spot>

    ghost predicate Valid()
      reads this
    {
      && ChildrenOk(children, parent) && Good(out, parent)
      && |placed| == |parent|
      && forall i :: 0 <= i < |placed| ==> (placed[i] <==> IsPlaced(out, i))
    }

    constructor (ghost parent: seq<int>, children: seq<seq<nat>>)
      requires ParentsOk(parent) && ChildrenOk(children, parent)
      ensures Valid() && out == [] && this.parent == parent && this.children == children
    {
      this.parent, this.children := parent, children;
      placed, out := seq(|children|, _ => false), [];
    }

    // Draw lane i at a depth, and then the lanes under it, unless it is drawn.
    method Place(i: nat, depth: nat)
      requires Valid() && i < |parent| && Ready(out, parent, i, depth)
      modifies this
      ensures Valid() && Drawn(old(out), out, parent, i, depth)
      decreases Unplaced(out, |parent|), 0
    {
      if placed[i] {
        return;
      }
      ghost var start := out;
      Append(i, depth);
      for a := 0 to |children[i]|
        invariant Valid() && DrawingUnder(start, out, parent, i, depth, children[i][..a])
        invariant Unplaced(out, |parent|) < Unplaced(start, |parent|)
      {
        PlaceChild(start, i, depth, a);
      }
      AllUnderDrawn(start, out, parent, children, i, depth);
    }

    // One step of the loop over the lanes under lane i.
    method PlaceChild(ghost start: seq<Spot>, i: nat, depth: nat, a: nat)
      requires Valid() && i < |parent| && a < |children[i]|
      requires DrawingUnder(start, out, parent, i, depth, children[i][..a])
      modifies this
      ensures Valid() && DrawingUnder(start, out, parent, i, depth, children[i][..a + 1])
      ensures Unplaced(out, |parent|) <= Unplaced(old(out), |parent|)
      decreases Unplaced(out, |parent|), 1
    {
      NextChild(start, out, parent, children, i, depth, a);
      Place(children[i][a], depth + 1);
      ChildDrawn(start, old(out), out, parent, children[i][..a], i, children[i][a], depth);
      assert children[i][..a + 1] == children[i][..a] + [children[i][a]];
    }

    // Mark lane i drawn and draw it last.
    method Append(i: nat, depth: nat)
      requires Valid() && i < |parent| && !placed[i] && Ready(out, parent, i, depth)
      modifies this
      ensures Valid() && DrawingUnder(old(out), out, parent, i, depth, [])
      ensures Unplaced(out, |parent|) < Unplaced(old(out), |parent|)
    {
      placed := placed[i := true];
      out := out + [Spot(i, depth)];
      AppendGood(old(out), parent, i, depth);
      AppendPlaces(old(out), i, depth);
      assert i in Unplaced(old(out), |parent|);
      NothingUnder(old(out), parent, i, depth);
    }
  }

  lemma AppendPlaces(out: seq<Spot>, i: nat, depth: nat)
    ensures forall x :: IsPlaced(out + [Spot(i, depth)], x) <==> IsPlaced(out, x) || x == i
  {
    var more := out + [Spot(i, depth)];
    PlacedStays(out, more);
    assert more[|out|].lane == i;
    forall x | IsPlaced(more, x) ensures IsPlaced(out, x) || x == i {
      var k :| 0 <= k < |more| && more[k].lane == x;
      if k < |out| { assert out[k].lane == x; }
    }
  }

  lemma AppendDistinct(out: seq<Spot>, i: nat, depth: nat)
    requires Distinct(out) && !IsPlaced(out, i)
    ensures Distinct(out + [Spot(i, depth)])
  {
  }

  lemma SupervisesStill(out: seq<Spot>, more: seq<Spot>, j: int, k: int, supervisor: int, depth: nat)
    requires out <= more && k <= |out| && Supervises(out, j, k, supervisor, depth)
    ensures Supervises(more, j, k, supervisor, depth)
  {
    assert forall m :: 0 <= m < |out| ==> more[m] == out[m];
  }

  lemma NestedStays(out: seq<Spot>, more: seq<Spot>, parent: seq<int>, k: nat)
    requires LanesOk(out, |parent|) && WellNested(out, parent) && out <= more && k < |out| && out[k].depth > 0
    ensures exists j :: Supervises(more, j, k, parent[out[k].lane], out[k].depth)
  {
    var j :| Supervises(out, j, k, parent[out[k].lane], out[k].depth);
    SupervisesStill(out, more, j, k, parent[out[k].lane], out[k].depth);
  }

  lemma AppendedNested(out: seq<Spot>, more: seq<Spot>, parent: seq<int>, i: nat, depth: nat)
    requires LanesOk(out, |parent|) && i < |parent| && Ready(out, parent, i, depth) && depth > 0 && out <= more
    ensures exists j :: Supervises(more, j, |out|, parent[i], depth)
  {
    var j :| Supervises(out, j, |out|, parent[i], depth);
    SupervisesStill(out, more, j, |out|, parent[i], depth);
  }

  lemma AppendNested(out: seq<Spot>, parent: seq<int>, i: nat, depth: nat)
    requires LanesOk(out, |parent|) && WellNested(out, parent) && i < |parent| && Ready(out, parent, i, depth)
    ensures WellNested(out + [Spot(i, depth)], parent)
  {
    var more := out + [Spot(i, depth)];
    assert more[..|out|] == out;
    forall k | 0 <= k < |more| && more[k].depth > 0
      ensures exists j :: Supervises(more, j, k, parent[more[k].lane], more[k].depth)
    {
      if k < |out| {
        assert more[k] == out[k];
        NestedStays(out, more, parent, k);
      } else {
        assert more[k] == Spot(i, depth);
        AppendedNested(out, more, parent, i, depth);
      }
    }
  }

  lemma AppendSiblings(out: seq<Spot>, parent: seq<int>, i: nat, depth: nat)
    requires LanesOk(out, |parent|) && SiblingsInOrder(out, parent) && i < |parent|
    requires !IsPlaced(out, i) && Ready(out, parent, i, depth)
    ensures SiblingsInOrder(out + [Spot(i, depth)], parent)
  {
  }

  lemma AppendGood(out: seq<Spot>, parent: seq<int>, i: nat, depth: nat)
    requires Good(out, parent) && i < |parent| && !IsPlaced(out, i) && Ready(out, parent, i, depth)
    ensures Good(out + [Spot(i, depth)], parent)
  {
    AppendDistinct(out, i, depth);
    AppendNested(out, parent, i, depth);
    AppendSiblings(out, parent, i, depth);
  }

  // A lane just drawn has none nested under it yet.
  lemma NothingUnder(out: seq<Spot>, parent: seq<int>, i: nat, depth: nat)
    requires Good(out + [Spot(i, depth)], parent) && i < |parent| && !IsPlaced(out, i)
    ensures ChildrenDone(out + [Spot(i, depth)], parent, i, [])
  {
    var more := out + [Spot(i, depth)];
    forall k | 0 <= k < |more| && more[k].depth > 0 ensures parent[more[k].lane] != i {
      var j :| Supervises(more, j, k, parent[more[k].lane], more[k].depth);
      assert out[j].lane == more[j].lane;
    }
  }

  lemma NextChild(start: seq<Spot>, before: seq<Spot>, parent: seq<int>, children: seq<seq<nat>>, i: nat, depth: nat, a: nat)
    requires ChildrenOk(children, parent) && i < |parent| && a < |children[i]|
    requires DrawingUnder(start, before, parent, i, depth, children[i][..a])
    ensures children[i][a] < |parent| && parent[children[i][a]] == i && Ready(before, parent, children[i][a], depth + 1)
  {
    assert Supervises(before, |start|, |before|, i, depth + 1);
  }

  lemma StillExtends(start: seq<Spot>, before: seq<Spot>, after: seq<Spot>, i: nat, c: nat, depth: nat)
    requires Extends(start, before, i, depth)
    requires after == before || Extends(before, after, c, depth + 1)
    ensures Extends(start, after, i, depth)
  {
    forall k | |start| < k < |after| ensures after[k].depth > depth {
      if k < |before| { assert after[k] == before[k]; }
    }
  }

  // Drawing one more lane under i nests no other lane under it.
  lemma NestsNoOther(start: seq<Spot>, before: seq<Spot>, after: seq<Spot>, parent: seq<int>, i: nat, c: nat, depth: nat)
    requires Good(after, parent) && Extends(start, before, i, depth) && Extends(before, after, c, depth + 1)
    ensures forall k :: |before| < k < |after| ==> parent[after[k].lane] != i
  {
    assert after[|start|] == before[|start|] == Spot(i, depth);
    forall k | |before| < k < |after| ensures parent[after[k].lane] != i {
      var j :| Supervises(after, j, k, parent[after[k].lane], after[k].depth);
      assert after[j].depth > depth;
    }
  }

  lemma ClosedOnwards(start: seq<Spot>, before: seq<Spot>, after: seq<Spot>, parent: seq<int>, i: int)
    requires before <= after && ClosedBetween(start, before, parent, i) && ClosedBetween(before, after, parent, -1)
    ensures ClosedBetween(start, after, parent, i)
  {
    PlacedStays(before, after);
    forall c | 0 <= c < |parent| && parent[c] >= 0 && parent[c] != i && IsPlaced(after, parent[c]) && !IsPlaced(start, parent[c])
      ensures IsPlaced(after, c)
    {
      if IsPlaced(before, parent[c]) {
        assert IsPlaced(before, c);
      }
    }
  }

  lemma ChildrenStillDone(before: seq<Spot>, after: seq<Spot>, parent: seq<int>, done: seq<nat>, i: nat, c: nat)
    requires LanesOk(before, |parent|) && LanesOk(after, |parent|) && before <= after
    requires ChildrenDone(before, parent, i, done) && IsPlaced(after, c)
    requires forall k :: |before| <= k < |after| && parent[after[k].lane] == i ==> after[k].lane == c
    ensures ChildrenDone(after, parent, i, done + [c])
  {
    forall k | 0 <= k < |after| && after[k].depth > 0 && parent[after[k].lane] == i ensures after[k].lane in done + [c] {
      if k < |before| { assert after[k] == before[k]; }
    }
    forall x | x in done + [c] ensures IsPlaced(after, x) {
      if x in done { PlacedStays(before, after); }
    }
  }

  lemma ChildrenOnwards(start: seq<Spot>, before: seq<Spot>, after: seq<Spot>, parent: seq<int>, done: seq<nat>, i: nat, c: nat, depth: nat)
    requires Good(before, parent) && Good(after, parent) && Extends(start, before, i, depth) && ChildrenDone(before, parent, i, done)
    requires after == before || Extends(before, after, c, depth + 1)
    requires IsPlaced(after, c)
    ensures ChildrenDone(after, parent, i, done + [c])
  {
    if after != before {
      NestsNoOther(start, before, after, parent, i, c, depth);
    }
    ChildrenStillDone(before, after, parent, done, i, c);
  }

  lemma ChildDrawn(start: seq<Spot>, before: seq<Spot>, after: seq<Spot>, parent: seq<int>, done: seq<nat>, i: nat, c: nat, depth: nat)
    requires Good(after, parent) && DrawingUnder(start, before, parent, i, depth, done)
    requires Drawn(before, after, parent, c, depth + 1)
    ensures DrawingUnder(start, after, parent, i, depth, done + [c])
    ensures before <= after && Unplaced(after, |parent|) <= Unplaced(before, |parent|)
  {
    PlacedStays(before, after);
    StillExtends(start, before, after, i, c, depth);
    ClosedOnwards(start, before, after, parent, i);
    ChildrenOnwards(start, before, after, parent, done, i, c, depth);
  }

  lemma AllUnderDrawn(start: seq<Spot>, out: seq<Spot>, parent: seq<int>, children: seq<seq<nat>>, i: nat, depth: nat)
    requires ChildrenOk(children, parent) && i < |parent| && !IsPlaced(start, i)
    requires DrawingUnder(start, out, parent, i, depth, children[i][..|children[i]|])
    ensures Drawn(start, out, parent, i, depth)
  {
    assert out[|start|].lane == i;
    assert children[i][..|children[i]|] == children[i];
  }

  // ---------------------------------------------------------------- the order

  // Parents rank above their children: no chain of supervisors comes back.
  ghost predicate Ranks(rank: seq<nat>, parent: seq<int>) {
    |rank| == |parent| && ParentsOk(parent)
    && forall i :: 0 <= i < |parent| && parent[i] >= 0 ==> rank[parent[i]] < rank[i]
  }

  ghost predicate Acyclic(parent: seq<int>) {
    exists rank :: Ranks(rank, parent)
  }

  ghost predicate AllPlaced(out: seq<Spot>, n: nat) {
    forall i :: 0 <= i < n ==> IsPlaced(out, i)
  }

  // Every lane with a working supervisor is drawn under it.
  ghost predicate AllNested(out: seq<Spot>, parent: seq<int>)
    requires LanesOk(out, |parent|)
  {
    forall k :: 0 <= k < |out| && parent[out[k].lane] >= 0 ==> out[k].depth > 0
  }

  // Top-level lanes are those nobody here supervises, in their order.
  ghost predicate RootsInOrder(out: seq<Spot>, parent: seq<int>)
    requires LanesOk(out, |parent|)
  {
    forall j, k :: 0 <= j < k < |out| && parent[out[j].lane] < 0 && parent[out[k].lane] < 0 ==> out[j].lane < out[k].lane
  }

  ghost predicate OnlyRootsOnTop(out: seq<Spot>, parent: seq<int>)
    requires LanesOk(out, |parent|)
  {
    forall k :: 0 <= k < |out| && out[k].depth == 0 ==> parent[out[k].lane] < 0
  }

  lemma {:induction false} PlacedByRank(out: seq<Spot>, parent: seq<int>, rank: seq<nat>, i: nat)
    requires Ranks(rank, parent) && i < |parent|
    requires ClosedBetween([], out, parent, -1)
    requires forall r :: 0 <= r < |parent| && parent[r] < 0 ==> IsPlaced(out, r)
    ensures IsPlaced(out, i)
    decreases rank[i]
  {
    if parent[i] >= 0 {
      PlacedByRank(out, parent, rank, parent[i]);
      assert !IsPlaced([], parent[i]);
    }
  }

  // Without cycles the pass over the top-level lanes already draws every lane.
  lemma AcyclicPlacesAll(out: seq<Spot>, parent: seq<int>)
    requires Acyclic(parent) && ClosedBetween([], out, parent, -1)
    requires forall r :: 0 <= r < |parent| && parent[r] < 0 ==> IsPlaced(out, r)
    ensures AllPlaced(out, |parent|)
  {
    var rank :| Ranks(rank, parent);
    forall i | 0 <= i < |parent| ensures IsPlaced(out, i) {
      PlacedByRank(out, parent, rank, i);
    }
  }

  ghost function DepthOf(out: seq<Spot>, i: int): nat
    requires IsPlaced(out, i)
  {
    var k :| 0 <= k < |out| && out[k].lane == i;
    out[k].depth
  }

  lemma DepthAt(out: seq<Spot>, k: nat)
    requires Distinct(out) && k < |out|
    ensures IsPlaced(out, out[k].lane) && DepthOf(out, out[k].lane) == out[k].depth
  {
  }

  // When every supervised lane is nested, depths rank the lanes.
  lemma NestedIsAcyclic(out: seq<Spot>, parent: seq<int>)
    requires Good(out, parent) && AllPlaced(out, |parent|) && AllNested(out, parent)
    ensures Acyclic(parent)
  {
    var rank := seq(|parent|, i requires 0 <= i < |parent| => DepthOf(out, i));
    forall i | 0 <= i < |parent| && parent[i] >= 0 ensures rank[parent[i]] < rank[i] {
      assert IsPlaced(out, i);
      var k :| 0 <= k < |out| && out[k].lane == i;
      DepthAt(out, k);
      var j :| Supervises(out, j, k, parent[i], out[k].depth);
      DepthAt(out, j);
    }
    assert Ranks(rank, parent);
  }

  ghost predicate RootsPlaced(out: seq<Spot>, parent: seq<int>) {
    forall r :: 0 <= r < |parent| && parent[r] < 0 ==> IsPlaced(out, r)
  }

  // The first pass draws the lanes nobody here supervises, and those under them.
  method DrawRoots(p: Placement, parent: seq<int>)
    requires p.Valid() && p.out == [] && p.parent == parent
    modifies p
    ensures p.Valid() && RootsPlaced(p.out, parent) && RootsInOrder(p.out, parent)
    ensures OnlyRootsOnTop(p.out, parent) && ClosedBetween([], p.out, parent, -1)
  {
    for i := 0 to |parent|
      invariant p.Valid() && RootsDrawn(p.out, parent, i)
    {
      DrawRoot(p, parent, i);
    }
  }

  // The lanes without a supervisor are drawn up to this one, and all under them.
  ghost predicate RootsDrawn(out: seq<Spot>, parent: seq<int>, i: int)
    requires LanesOk(out, |parent|)
  {
    && ClosedBetween([], out, parent, -1) && OnlyRootsOnTop(out, parent) && RootsInOrder(out, parent)
    && forall r :: 0 <= r < |parent| && parent[r] < 0 ==> (IsPlaced(out, r) <==> r < i)
  }

  method DrawRoot(p: Placement, parent: seq<int>, i: nat)
    requires p.Valid() && p.parent == parent && i < |parent| && RootsDrawn(p.out, parent, i)
    modifies p
    ensures p.Valid() && RootsDrawn(p.out, parent, i + 1)
  {
    if parent[i] < 0 {
      ghost var before := p.out;
      p.Place(i, 0);
      RootDrawn(before, p.out, parent, i);
    }
  }

  // The second pass draws, flat, whatever a cycle of supervisors left out.
  method DrawRest(p: Placement, ghost parent: seq<int>, n: nat)
    requires p.Valid() && p.parent == parent && n == |parent|
    requires RootsPlaced(p.out, parent) && RootsInOrder(p.out, parent)
    modifies p
    ensures p.Valid() && AllPlaced(p.out, n) && RootsInOrder(p.out, parent)
    ensures AllPlaced(old(p.out), n) ==> p.out == old(p.out)
  {
    for i := 0 to n
      invariant p.Valid() && RootsPlaced(p.out, parent) && RootsInOrder(p.out, parent)
      invariant AllPlaced(old(p.out), n) ==> p.out == old(p.out)
      invariant AllPlaced(p.out, i)
    {
      DrawFlat(p, parent, i);
    }
  }

  method DrawFlat(p: Placement, ghost parent: seq<int>, i: nat)
    requires p.Valid() && p.parent == parent && i < |parent|
    requires RootsPlaced(p.out, parent) && RootsInOrder(p.out, parent) && AllPlaced(p.out, i)
    modifies p
    ensures p.Valid() && RootsPlaced(p.out, parent) && RootsInOrder(p.out, parent) && AllPlaced(p.out, i + 1)
    ensures IsPlaced(old(p.out), i) ==> p.out == old(p.out)
  {
    ghost var before := p.out;
    p.Place(i, 0);
    assert before <= p.out;
    PlacedStays(before, p.out);
    RootsStay(before, p.out, parent);
  }

  // The two passes: every lane once, subagents under their supervisors.
  method Order(parent: seq<int>, children: seq<seq<nat>>) returns (out: seq<Spot>)
    requires ParentsOk(parent) && ChildrenOk(children, parent)
    ensures Good(out, parent) && AllPlaced(out, |parent|) && RootsInOrder(out, parent)
    ensures AllNested(out, parent) <==> Acyclic(parent)
  {
    var p := new Placement(parent, children);
    DrawRoots(p, parent);
    ghost var first := p.out;
    if Acyclic(parent) {
      AcyclicPlacesAll(first, parent);
    }
    DrawRest(p, parent, |parent|);
    out := p.out;
    if AllNested(out, parent) {
      NestedIsAcyclic(out, parent);
    }
  }

  lemma RootDrawn(before: seq<Spot>, after: seq<Spot>, parent: seq<int>, i: nat)
    requires Good(before, parent) && Good(after, parent) && i < |parent| && parent[i] < 0
    requires Drawn(before, after, parent, i, 0) && RootsDrawn(before, parent, i)
    ensures RootsDrawn(after, parent, i + 1)
  {
    assert !IsPlaced(before, i);
    ClosedOnwards([], before, after, parent, -1);
    RootsAdded(before, after, parent, i);
  }

  // The lane drawn is the one spot added whose lane has no supervisor.
  ghost predicate OneRootAdded(before: seq<Spot>, after: seq<Spot>, parent: seq<int>, i: nat)
    requires LanesOk(after, |parent|)
  {
    && |before| < |after| && after[|before|] == Spot(i, 0)
    && (forall k :: 0 <= k < |before| ==> after[k] == before[k])
    && (forall k :: |before| < k < |after| ==> parent[after[k].lane] >= 0 && after[k].depth > 0)
  }

  lemma OthersAreNested(before: seq<Spot>, after: seq<Spot>, parent: seq<int>, i: nat)
    requires Good(after, parent) && Extends(before, after, i, 0)
    ensures OneRootAdded(before, after, parent, i)
  {
    forall k | |before| < k < |after| ensures parent[after[k].lane] >= 0 && after[k].depth > 0 {
      var j :| Supervises(after, j, k, parent[after[k].lane], after[k].depth);
      assert after[j].lane >= 0;
    }
  }

  lemma RootsOnTopStill(before: seq<Spot>, after: seq<Spot>, parent: seq<int>, i: nat)
    requires LanesOk(before, |parent|) && LanesOk(after, |parent|) && i < |parent| && parent[i] < 0
    requires OneRootAdded(before, after, parent, i) && OnlyRootsOnTop(before, parent)
    ensures OnlyRootsOnTop(after, parent)
  {
    forall k | 0 <= k < |after| && after[k].depth == 0 ensures parent[after[k].lane] < 0 {
      if k < |before| { assert after[k] == before[k]; }
    }
  }

  lemma RootsInOrderStill(before: seq<Spot>, after: seq<Spot>, parent: seq<int>, i: nat)
    requires LanesOk(before, |parent|) && LanesOk(after, |parent|)
    requires OneRootAdded(before, after, parent, i) && RootsInOrder(before, parent)
    requires forall k :: 0 <= k < |before| && parent[before[k].lane] < 0 ==> before[k].lane < i
    ensures RootsInOrder(after, parent)
  {
    forall j, k | 0 <= j < k < |after| && parent[after[j].lane] < 0 && parent[after[k].lane] < 0
      ensures after[j].lane < after[k].lane
    {
      assert k <= |before| && after[j] == before[j];
      if k < |before| { assert after[k] == before[k]; }
    }
  }

  // Drawing a top-level lane adds no other lane without a supervisor.
  lemma RootsAdded(before: seq<Spot>, after: seq<Spot>, parent: seq<int>, i: nat)
    requires Good(before, parent) && Good(after, parent) && i < |parent| && parent[i] < 0
    requires Extends(before, after, i, 0) && OnlyRootsOnTop(before, parent) && RootsInOrder(before, parent)
    requires forall r :: 0 <= r < |parent| && parent[r] < 0 ==> (IsPlaced(before, r) <==> r < i)
    ensures OnlyRootsOnTop(after, parent) && RootsInOrder(after, parent)
    ensures forall r :: 0 <= r < |parent| && parent[r] < 0 ==> (IsPlaced(after, r) <==> r < i + 1)
  {
    OthersAreNested(before, after, parent, i);
    RootsOnTopStill(before, after, parent, i);
    forall k | 0 <= k < |before| && parent[before[k].lane] < 0 ensures before[k].lane < i {
      assert IsPlaced(before, before[k].lane);
    }
    RootsInOrderStill(before, after, parent, i);
    RootPlaced(before, after, parent, i);
  }

  lemma RootPlaced(before: seq<Spot>, after: seq<Spot>, parent: seq<int>, i: nat)
    requires LanesOk(after, |parent|) && OneRootAdded(before, after, parent, i) && before <= after
    requires forall r :: 0 <= r < |parent| && parent[r] < 0 ==> (IsPlaced(before, r) <==> r < i)
    ensures forall r :: 0 <= r < |parent| && parent[r] < 0 ==> (IsPlaced(after, r) <==> r < i + 1)
  {
    PlacedStays(before, after);
    assert after[|before|].lane == i;
    forall r | 0 <= r < |parent| && parent[r] < 0 && IsPlaced(after, r) ensures r < i + 1 {
      var k :| 0 <= k < |after| && after[k].lane == r;
      if k < |before| { assert before[k].lane == r; }
    }
  }

  lemma NewLane(before: seq<Spot>, after: seq<Spot>, k: nat)
    requires Distinct(after) && before <= after && |before| <= k < |after|
    ensures !IsPlaced(before, after[k].lane)
  {
    forall j | 0 <= j < |before| ensures before[j].lane != after[k].lane {
      assert after[j] == before[j];
    }
  }

  // Once every lane without a supervisor is drawn, drawing more adds none.
  lemma RootsStay(before: seq<Spot>, after: seq<Spot>, parent: seq<int>)
    requires Good(before, parent) && Good(after, parent) && before <= after && RootsInOrder(before, parent)
    requires forall r :: 0 <= r < |parent| && parent[r] < 0 ==> IsPlaced(before, r)
    ensures RootsInOrder(after, parent)
  {
    forall k | |before| <= k < |after| ensures parent[after[k].lane] >= 0 {
      NewLane(before, after, k);
    }
    assert forall k :: 0 <= k < |before| ==> after[k] == before[k];
  }

  // ---------------------------------------------------------------- counting

  // Every lane that goes in comes out exactly once.
  lemma EveryLaneOnce(out: seq<Spot>, parent: seq<int>)
    requires Good(out, parent) && AllPlaced(out, |parent|)
    ensures |out| == |parent|
  {
    var lanes := seq(|out|, k requires 0 <= k < |out| => out[k].lane as int);
    var all := seq(|parent|, i => i);
    NoRepeatsSize(lanes);
    NoRepeatsSize(all);
    forall i | i in all ensures i in lanes {
      assert IsPlaced(out, i);
      var k :| 0 <= k < |out| && out[k].lane == i;
      assert lanes[k] == i;
    }
    forall i | i in lanes ensures i in all {
      assert all[i] == i;
    }
    assert Elements(lanes) == Elements(all);
  }

  // What a lane counts as its subagents: the lanes whose supervisor it is.
  function Supervised(parent: seq<int>, p: int): set<int> {
    set c | 0 <= c < |parent| && parent[c] == p
  }

  // The lanes drawn directly under lane p.
  ghost function NestedUnder(out: seq<Spot>, parent: seq<int>, p: int): set<int>
    requires LanesOk(out, |parent|)
  {
    set k | 0 <= k < |out| && out[k].depth > 0 && parent[out[k].lane] == p :: out[k].lane
  }

  lemma ChildrenAreSupervised(children: seq<seq<nat>>, parent: seq<int>, p: nat)
    requires ChildrenOk(children, parent) && p < |parent|
    ensures |children[p]| == |Supervised(parent, p)|
  {
    var cs := seq(|children[p]|, a requires 0 <= a < |children[p]| => children[p][a] as int);
    NoRepeatsSize(cs);
    forall c | c in Supervised(parent, p) ensures c in cs {
      assert c in children[parent[c]];
      var a :| 0 <= a < |children[p]| && children[p][a] == c;
      assert cs[a] == c;
    }
    assert Elements(cs) == Supervised(parent, p);
  }

  // Each lane's count of subagents is the number of lanes drawn directly under
  // it, for every lane, if and only if the supervisors form no cycle.
  lemma SubagentsCounted(out: seq<Spot>, parent: seq<int>)
    requires Good(out, parent) && AllPlaced(out, |parent|)
    requires AllNested(out, parent) <==> Acyclic(parent)
    ensures (forall p :: 0 <= p < |parent| ==> |Supervised(parent, p)| == |NestedUnder(out, parent, p)|) <==> Acyclic(parent)
  {
    assert forall p :: 0 <= p < |parent| ==> NestedUnder(out, parent, p) <= Supervised(parent, p);
    if AllNested(out, parent) {
      forall p | 0 <= p < |parent| ensures NestedUnder(out, parent, p) == Supervised(parent, p) {
        forall c | c in Supervised(parent, p) ensures c in NestedUnder(out, parent, p) {
          assert IsPlaced(out, c);
        }
      }
    } else {
      var k :| 0 <= k < |out| && parent[out[k].lane] >= 0 && out[k].depth == 0;
      var p := parent[out[k].lane];
      assert out[k].lane in Supervised(parent, p) && out[k].lane !in NestedUnder(out, parent, p);
      ProperSubsetSmaller(NestedUnder(out, parent, p), Supervised(parent, p), out[k].lane);
    }
  }

  // ---------------------------------------------------------------- agent lanes

  // One session's lane. What nesting sets is zero before it.
  datatype AgentLane = AgentLane(
    agentKey: string, session: Option<Session>, multi: bool,
    parentKey: string, parentLive: bool, nested: bool, depth: nat, subagents: nat)
  {
    predicate Idle() { session.None? || !session.value.Live() }

    predicate Unnested() { parentKey == "" && !parentLive && !nested && depth == 0 && subagents == 0 }
  }

  // The last working lane of a session key, or -1.
  function WorkingAt(agents: seq<AgentLane>, key: string): (i: int)
    ensures -1 <= i < |agents|
    decreases |agents|
  {
    if agents == [] then -1
    else
      var n := |agents| - 1;
      if !agents[n].Idle() && agents[n].session.value.key == key then n else WorkingAt(agents[..n], key)
  }

  function Claimed(a: AgentLane): string {
    if a.session.None? then "" else a.session.value.parentKey
  }

  // The working lane that supervises lane i here, or -1.
  function ParentAt(agents: seq<AgentLane>, i: nat): (p: int)
    requires i < |agents|
    ensures -1 <= p < |agents|
  {
    if Claimed(agents[i]) == "" || agents[i].Idle() then -1
    else
      var p := WorkingAt(agents, Claimed(agents[i]));
      if p == i then -1 else p
  }

  function Parents(agents: seq<AgentLane>): seq<int> {
    seq(|agents|, i requires 0 <= i < |agents| => ParentAt(agents, i))
  }

  function WithParent(a: AgentLane, liveKeys: set<string>): AgentLane {
    if Claimed(a) == "" then a
    else a.(parentKey := Claimed(a), parentLive := Claimed(a) in liveKeys)
  }

  // The lane drawn at a spot, marked with its place and its subagents counted.
  function DrawnLane(agents: seq<AgentLane>, liveKeys: set<string>, s: Spot): AgentLane
    requires s.lane < |agents|
  {
    WithParent(agents[s.lane], liveKeys).(nested := s.depth > 0, depth := s.depth,
      subagents := |Supervised(Parents(agents), s.lane)|)
  }

  method FindWorking(agents: seq<AgentLane>) returns (working: map<string, int>)
    ensures forall key :: WorkingAt(agents, key) == if key in working then working[key] else -1
    ensures forall key :: key in working ==> 0 <= working[key] < |agents|
  {
    working := map[];
    for i := 0 to |agents|
      invariant forall key :: WorkingAt(agents[..i], key) == if key in working then working[key] else -1
      invariant forall key :: key in working ==> 0 <= working[key] < i
    {
      if !agents[i].Idle() {
        working := working[agents[i].session.value.key := i];
      }
      assert agents[..i + 1][..i] == agents[..i];
    }
    assert agents[..|agents|] == agents;
  }

  method FindParents(agents: seq<AgentLane>, liveKeys: set<string>, working: map<string, int>)
    returns (marked: seq<AgentLane>, parent: seq<int>, children: seq<seq<nat>>)
    requires forall key :: WorkingAt(agents, key) == if key in working then working[key] else -1
    requires forall key :: key in working ==> 0 <= working[key] < |agents|
    ensures |marked| == |agents| && forall i :: 0 <= i < |agents| ==> marked[i] == WithParent(agents[i], liveKeys)
    ensures parent == Parents(agents) && ChildrenOk(children, parent)
  {
    marked := agents;
    parent := seq(|agents|, _ => -1);
    children := seq(|agents|, _ => []);
    for i := 0 to |agents|
      invariant |marked| == |parent| == |agents| && ChildrenOk(children, parent)
      invariant forall j :: 0 <= j < i ==> marked[j] == WithParent(agents[j], liveKeys) && parent[j] == ParentAt(agents, j)
      invariant forall j :: i <= j < |agents| ==> marked[j] == agents[j] && parent[j] == -1
    {
      var a := agents[i];
      if a.session.None? || a.session.value.parentKey == "" {
        continue;
      }
      var key := a.session.value.parentKey;
      marked := marked[i := a.(parentKey := key, parentLive := key in liveKeys)];
      assert WorkingAt(agents, key) == if key in working then working[key] else -1;
      if key in working && !a.Idle() && working[key] != i {
        var p := working[key];
        AddChild(children, parent, i, p);
        children := children[p := children[p] + [i]];
        parent := parent[i := p];
      }
    }
    assert parent == Parents(agents);
  }

  // The next lane under p goes last among the lanes under it.
  lemma AddChild(children: seq<seq<nat>>, parent: seq<int>, i: nat, p: nat)
    requires ChildrenOk(children, parent) && i < |parent| && p < |parent|
    requires forall j :: i <= j < |parent| ==> parent[j] == -1
    ensures ChildrenOk(children[p := children[p] + [i]], parent[i := p])
  {
    var more := children[p := children[p] + [i]];
    var under := parent[i := p];
    forall q, a | 0 <= q < |more| && 0 <= a < |more[q]|
      ensures more[q][a] < |under| && under[more[q][a]] == q
    {
      if q != p || a < |children[p]| { assert more[q][a] == children[q][a]; }
    }
    forall c | 0 <= c < |under| && under[c] >= 0 ensures c in more[under[c]] {
      if c != i { assert c in children[parent[c]]; }
      if c == i { assert more[p][|children[p]|] == i; }
    }
  }

  // The lanes are the agents' lanes drawn at these spots: every one once, each
  // subagent after its supervisor, counted under it.
  ghost predicate IsNesting(agents: seq<AgentLane>, liveKeys: set<string>, lanes: seq<AgentLane>, spots: seq<Spot>) {
    && |lanes| == |spots| == |agents|
    && Good(spots, Parents(agents)) && AllPlaced(spots, |agents|) && RootsInOrder(spots, Parents(agents))
    && (forall k :: 0 <= k < |lanes| ==> lanes[k] == DrawnLane(agents, liveKeys, spots[k]))
    && (AllNested(spots, Parents(agents)) <==> Acyclic(Parents(agents)))
  }

  // Reorders and annotates one member's lanes.
  method NestSubagents(agents: seq<AgentLane>, liveKeys: set<string>) returns (lanes: seq<AgentLane>)
    requires forall a :: a in agents ==> a.Unnested()
    ensures exists spots :: IsNesting(agents, liveKeys, lanes, spots)
  {
    var working := FindWorking(agents);
    var marked, parent, children := FindParents(agents, liveKeys, working);
    if forall p :: 0 <= p < |children| ==> children[p] == [] {
      lanes := marked;
      FlatIsNesting(agents, liveKeys, marked, children);
    } else {
      var out := Order(parent, children);
      EveryLaneOnce(out, parent);
      lanes := Draw(agents, liveKeys, marked, children, out);
      assert IsNesting(agents, liveKeys, lanes, out);
    }
  }

  // The lanes in a given order, with their depths and their subagents counted.
  method Draw(ghost agents: seq<AgentLane>, ghost liveKeys: set<string>, marked: seq<AgentLane>, children: seq<seq<nat>>, out: seq<Spot>)
    returns (lanes: seq<AgentLane>)
    requires |marked| == |agents| && ChildrenOk(children, Parents(agents)) && LanesOk(out, |agents|)
    requires forall i :: 0 <= i < |agents| ==> marked[i] == WithParent(agents[i], liveKeys)
    ensures |lanes| == |out| && forall k :: 0 <= k < |lanes| ==> lanes[k] == DrawnLane(agents, liveKeys, out[k])
  {
    lanes := [];
    for k := 0 to |out|
      invariant |lanes| == k && forall j :: 0 <= j < k ==> lanes[j] == DrawnLane(agents, liveKeys, out[j])
    {
      var i, depth := out[k].lane, out[k].depth;
      ChildrenAreSupervised(children, Parents(agents), i);
      lanes := lanes + [marked[i].(nested := depth > 0, depth := depth, subagents := |children[i]|)];
    }
  }

  lemma FlatIsNesting(agents: seq<AgentLane>, liveKeys: set<string>, marked: seq<AgentLane>, children: seq<seq<nat>>)
    requires forall a :: a in agents ==> a.Unnested()
    requires |marked| == |agents| && forall i :: 0 <= i < |agents| ==> marked[i] == WithParent(agents[i], liveKeys)
    requires ChildrenOk(children, Parents(agents)) && forall p :: 0 <= p < |children| ==> children[p] == []
    ensures exists spots :: IsNesting(agents, liveKeys, marked, spots)
  {
    var spots := FlatIsGood(agents, Parents(agents), children);
    forall k | 0 <= k < |marked| ensures marked[k] == DrawnLane(agents, liveKeys, spots[k]) {
      assert agents[k] in agents;
      ChildrenAreSupervised(children, Parents(agents), k);
    }
    assert IsNesting(agents, liveKeys, marked, spots);
  }

  // With nobody supervised, the lanes as they stand are the order.
  lemma FlatIsGood(agents: seq<AgentLane>, parent: seq<int>, children: seq<seq<nat>>) returns (spots: seq<Spot>)
    requires ChildrenOk(children, parent) && |parent| == |agents|
    requires forall p :: 0 <= p < |children| ==> children[p] == []
    ensures |spots| == |parent| && forall k :: 0 <= k < |spots| ==> spots[k] == Spot(k, 0)
    ensures Good(spots, parent) && AllPlaced(spots, |parent|) && RootsInOrder(spots, parent)
    ensures AllNested(spots, parent) && Acyclic(parent)
  {
    spots := seq(|parent|, k requires 0 <= k < |parent| => Spot(k, 0));
    forall i | 0 <= i < |parent| ensures IsPlaced(spots, i) && parent[i] < 0 {
      assert spots[i].lane == i;
    }
    assert Ranks(seq(|parent|, _ => 0), parent);
  }

  // ---------------------------------------------------------------- who supervises whom

  // The last lane in which a session of this key works.
  ghost predicate LastWorking(agents: seq<AgentLane>, key: string, p: int) {
    && 0 <= p < |agents| && !agents[p].Idle() && agents[p].session.value.key == key
    && forall q :: p < q < |agents| ==> agents[q].Idle() || agents[q].session.value.key != key
  }

  // Lane i works and names the session at work in the other lane p.
  ghost predicate IsSupervisor(agents: seq<AgentLane>, i: int, p: int) {
    && 0 <= i < |agents| && i != p && !agents[i].Idle() && agents[i].session.value.parentKey != ""
    && LastWorking(agents, agents[i].session.value.parentKey, p)
  }

  lemma {:induction false} WorkingIsLast(agents: seq<AgentLane>, key: string, p: nat)
    ensures WorkingAt(agents, key) == p <==> LastWorking(agents, key, p)
    decreases |agents|
  {
    if agents != [] {
      var n := |agents| - 1;
      if agents[n].Idle() || agents[n].session.value.key != key {
        WorkingIsLast(agents[..n], key, p);
      }
    }
  }

  // For any lanes at all: the supervisor of a lane is the last working lane of
  // the session it names, if both work and it is another.
  lemma SupervisorIs(agents: seq<AgentLane>, i: nat, p: nat)
    requires i < |agents|
    ensures Parents(agents)[i] == p <==> IsSupervisor(agents, i, p)
  {
    if agents[i].session.Some? {
      WorkingIsLast(agents, agents[i].session.value.parentKey, p);
    }
  }

  // What the source's board shows of a drawn lane: its agent and session, whom it
  // names, whether that session lives anywhere on the board, and how many lanes
  // it supervises.
  lemma DrawnLaneShows(agents: seq<AgentLane>, liveKeys: set<string>, lanes: seq<AgentLane>, spots: seq<Spot>, k: nat)
    requires IsNesting(agents, liveKeys, lanes, spots) && k < |lanes| && forall a :: a in agents ==> a.Unnested()
    ensures var x, a := lanes[k], agents[spots[k].lane];
      && x.agentKey == a.agentKey && x.session == a.session && x.multi == a.multi
      && x.parentKey == (if a.session.Some? then a.session.value.parentKey else "")
      && (x.parentLive <==> x.parentKey != "" && x.parentKey in liveKeys)
      && (x.nested <==> x.depth > 0)
      && x.subagents == |set i | 0 <= i < |agents| && IsSupervisor(agents, i, spots[k].lane)|
  {
    var p := spots[k].lane;
    assert agents[p] in agents && lanes[k] == DrawnLane(agents, liveKeys, spots[k]);
    forall i | 0 <= i < |agents| ensures Parents(agents)[i] == p <==> IsSupervisor(agents, i, p) {
      SupervisorIs(agents, i, p);
    }
    assert Supervised(Parents(agents), p) == set i | 0 <= i < |agents| && IsSupervisor(agents, i, p);
  }

  // Lane k is drawn one level below lane j, with nothing shallower in between.
  ghost predicate RightBelow(lanes: seq<AgentLane>, j: int, k: int) {
    && 0 <= j < k < |lanes| && lanes[j].depth + 1 == lanes[k].depth
    && forall m :: j < m < k ==> lanes[m].depth >= lanes[k].depth
  }

  lemma DepthsDrawn(agents: seq<AgentLane>, liveKeys: set<string>, lanes: seq<AgentLane>, spots: seq<Spot>)
    requires IsNesting(agents, liveKeys, lanes, spots)
    ensures forall m :: 0 <= m < |lanes| ==>
      lanes[m].depth == spots[m].depth && lanes[m].nested == (spots[m].depth > 0) && lanes[m].session == agents[spots[m].lane].session
  {
    forall m | 0 <= m < |lanes| ensures lanes[m].depth == spots[m].depth && lanes[m].nested == (spots[m].depth > 0)
      && lanes[m].session == agents[spots[m].lane].session
    {
      assert lanes[m] == DrawnLane(agents, liveKeys, spots[m]);
    }
  }

  // A nested lane is drawn right below its supervisor's.
  lemma NestedBelowSupervisor(agents: seq<AgentLane>, liveKeys: set<string>, lanes: seq<AgentLane>, spots: seq<Spot>, k: nat)
    requires IsNesting(agents, liveKeys, lanes, spots) && k < |lanes| && lanes[k].nested
    ensures exists j :: RightBelow(lanes, j, k) && IsSupervisor(agents, spots[k].lane, spots[j].lane)
  {
    DepthsDrawn(agents, liveKeys, lanes, spots);
    var j :| Supervises(spots, j, k, Parents(agents)[spots[k].lane], spots[k].depth);
    SupervisorIs(agents, spots[k].lane, spots[j].lane);
    assert RightBelow(lanes, j, k);
  }

  // Without a cycle, just the lanes that have a supervisor are nested.
  lemma SupervisedAreNested(agents: seq<AgentLane>, liveKeys: set<string>, lanes: seq<AgentLane>, spots: seq<Spot>, k: nat)
    requires IsNesting(agents, liveKeys, lanes, spots) && k < |lanes| && Acyclic(Parents(agents))
    ensures lanes[k].nested <==> exists p :: IsSupervisor(agents, spots[k].lane, p)
  {
    DepthsDrawn(agents, liveKeys, lanes, spots);
    if lanes[k].nested {
      NestedBelowSupervisor(agents, liveKeys, lanes, spots, k);
    }
    if exists p :: IsSupervisor(agents, spots[k].lane, p) {
      var p :| IsSupervisor(agents, spots[k].lane, p);
      SupervisorIs(agents, spots[k].lane, p);
    }
  }

  // No two lanes are at work on one session.
  ghost predicate OneLaneEach(lanes: seq<AgentLane>) {
    forall i, j :: 0 <= i < j < |lanes| && !lanes[i].Idle() && !lanes[j].Idle() ==> lanes[i].session.value.key != lanes[j].session.value.key
  }

  // Lane k works, and names the session at work in another lane j.
  ghost predicate Names(lanes: seq<AgentLane>, k: int, j: int) {
    && 0 <= k < |lanes| && 0 <= j < |lanes| && j != k && !lanes[k].Idle() && !lanes[j].Idle()
    && lanes[k].session.value.parentKey != "" && lanes[j].session.value.key == lanes[k].session.value.parentKey
  }

  lemma NamedSupervises(agents: seq<AgentLane>, i: int, p: int)
    requires OneLaneEach(agents)
    ensures IsSupervisor(agents, i, p) <==> Names(agents, i, p)
  {
  }

  lemma NamesAsDrawn(agents: seq<AgentLane>, lanes: seq<AgentLane>, spots: seq<Spot>, k: nat, j: nat)
    requires |lanes| == |spots| && LanesOk(spots, |agents|) && Distinct(spots) && k < |lanes| && j < |lanes|
    requires lanes[k].session == agents[spots[k].lane].session && lanes[j].session == agents[spots[j].lane].session
    ensures Names(lanes, k, j) <==> Names(agents, spots[k].lane, spots[j].lane)
  {
    if j < k { assert spots[j].lane != spots[k].lane; }
    if k < j { assert spots[k].lane != spots[j].lane; }
  }

  // Where no session is at work in two lanes, and no cycle: a drawn lane is nested
  // if and only if it works and names the session at work in another drawn lane.
  lemma NestedUnderTheNamed(agents: seq<AgentLane>, liveKeys: set<string>, lanes: seq<AgentLane>, spots: seq<Spot>, k: nat)
    requires IsNesting(agents, liveKeys, lanes, spots) && k < |lanes| && OneLaneEach(agents) && Acyclic(Parents(agents))
    ensures lanes[k].nested <==> exists j :: Names(lanes, k, j)
  {
    SupervisedAreNested(agents, liveKeys, lanes, spots, k);
    DepthsDrawn(agents, liveKeys, lanes, spots);
    if lanes[k].nested {
      var p :| IsSupervisor(agents, spots[k].lane, p);
      NamedSupervises(agents, spots[k].lane, p);
      assert IsPlaced(spots, p);
      var j :| 0 <= j < |spots| && spots[j].lane == p;
      NamesAsDrawn(agents, lanes, spots, k, j);
    }
    if exists j :: Names(lanes, k, j) {
      var j :| Names(lanes, k, j);
      NamesAsDrawn(agents, lanes, spots, k, j);
      NamedSupervises(agents, spots[k].lane, spots[j].lane);
    }
  }

  // Two working sessions that name each other as supervisor.
  predicate NameEachOther(a: AgentLane, b: AgentLane) {
    && !a.Idle() && !b.Idle()
    && a.session.value.key != b.session.value.key && a.session.value.key != "" && b.session.value.key != ""
    && Claimed(a) == b.session.value.key && Claimed(b) == a.session.value.key
  }

  lemma ParentsOfTwo(a: AgentLane, b: AgentLane)
    requires NameEachOther(a, b)
    ensures Parents([a, b]) == [1, 0]
  {
    var agents := [a, b];
    assert agents[..1] == [a] && [a][..0] == [];
    assert WorkingAt([a], a.session.value.key) == 0;
    assert WorkingAt(agents, b.session.value.key) == 1 && WorkingAt(agents, a.session.value.key) == 0;
  }

  // Of two lanes that supervise each other the one drawn first is on top, so
  // that nothing is drawn under the other.
  lemma FirstIsOnTop(spots: seq<Spot>, parent: seq<int>)
    requires parent == [1, 0] && Good(spots, parent) && spots != []
    ensures NestedUnder(spots, parent, parent[spots[0].lane]) == {}
  {
    var p := parent[spots[0].lane];
    forall k | 0 < k < |spots| && spots[k].depth > 0 ensures parent[spots[k].lane] != p {
      assert spots[k].lane != spots[0].lane;
    }
    assert spots[0].depth == 0;
  }

  lemma OneSupervisedEach(parent: seq<int>)
    requires parent == [1, 0]
    ensures |Supervised(parent, 0)| == 1 && |Supervised(parent, 1)| == 1
  {
    assert Supervised(parent, 0) == {1} && Supervised(parent, 1) == {0};
  }

  // However they are nested, both lanes count one subagent, and one of them has
  // none drawn under it.
  lemma CycleIsMiscounted(a: AgentLane, b: AgentLane, liveKeys: set<string>, lanes: seq<AgentLane>, spots: seq<Spot>)
    requires NameEachOther(a, b) && IsNesting([a, b], liveKeys, lanes, spots)
    ensures forall k :: 0 <= k < |lanes| ==> lanes[k].subagents == 1
    ensures exists p :: 0 <= p < 2 && NestedUnder(spots, Parents([a, b]), p) == {}
  {
    ParentsOfTwo(a, b);
    var parent := Parents([a, b]);
    OneSupervisedEach(parent);
    FirstIsOnTop(spots, parent);
    var p := parent[spots[0].lane];
    assert 0 <= p < 2 && NestedUnder(spots, parent, p) == {};
    forall k | 0 <= k < |lanes| ensures lanes[k].subagents == 1 {
      assert lanes[k] == DrawnLane([a, b], liveKeys, spots[k]);
    }
  }
}
