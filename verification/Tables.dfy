// The entities as the store keeps them (frontend/internal/state/store.go): rows
// behind pointers, found by key, created blank where there is none, and changed
// in place.
module Tables {
  import opened Fold
  import opened Model

  class Row<T> {
    var it: T

    constructor (it: T)
      ensures this.it == it
    {
      this.it := it;
    }
  }

  function Values<K, T>(m: map<K, Row<T>>): map<K, T>
    reads m.Values
  {
    map k | k in m :: m[k].it
  }

  // ---------------------------------------------------------------- one entity map

  class Table<K(==), T> {
    var rows: map<K, Row<T>>
    ghost var view: map<K, T>
    ghost var Repr: set<object>

    // The view is what the rows hold, and no two keys share a row.
    ghost predicate Valid()
      reads this, Repr
    {
      && this in Repr && rows.Keys == view.Keys
      && (forall k :: k in rows ==> rows[k] in Repr && rows[k].it == view[k])
      && (forall k, l :: k in rows && l in rows && k != l ==> rows[k] != rows[l])
    }

    constructor ()
      ensures Valid() && fresh(Repr) && view == map[]
    {
      rows, view, Repr := map[], map[], {this};
    }

    // The row under a key, created if there is none.
    method At(key: K, blank: T) returns (r: Row<T>)
      requires Valid()
      modifies this
      ensures Valid() && fresh(Repr - old(Repr))
      ensures key in rows && r == rows[key] && r.it == if key in old(view) then old(view)[key] else blank
      ensures view == old(view)[key := r.it]
    {
      if key !in rows {
        r := new Row(blank);
        rows, view := rows[key := r], view[key := blank];
        Repr := Repr + {r};
      }
      r := rows[key];
    }

    // A map with no rows; what was in it is left as it is.
    method Clear()
      modifies this
      ensures Valid() && Repr == {this} && view == map[]
    {
      rows, view, Repr := map[], map[], {this};
    }

    // A new row under a key, in place of any other.
    method Put(key: K, t: T)
      requires Valid()
      modifies this
      ensures Valid() && fresh(Repr - old(Repr)) && view == old(view)[key := t]
    {
      var r := new Row(t);
      rows, view := rows[key := r], view[key := t];
      Repr := Repr + {r};
    }

    // A row written in place.
    method Write(key: K, t: T)
      requires Valid() && key in rows
      modifies this`view, Repr
      ensures Valid() && rows == old(rows) && Repr == old(Repr) && view == old(view)[key := t]
    {
      rows[key].it := t;
      view := view[key := t];
    }

    // Copies of the rows, one level deep.
    method Copy() returns (m: map<K, Row<T>>)
      requires Valid()
      ensures Values(m) == view
      ensures forall k :: k in m ==> fresh(m[k])
    {
      m := map[];
      var todo := rows.Keys;
      while todo != {}
        invariant m.Keys == rows.Keys - todo && todo <= rows.Keys
        invariant forall k :: k in m ==> fresh(m[k]) && m[k].it == view[k]
      {
        var k :| k in todo;
        var copy := new Row(rows[k].it);
        m := m[k := copy];
        todo := todo - {k};
      }
    }
  }

  // ---------------------------------------------------------------- rows that point at rows

  // A row with fields of its own and a list of pointers: a copy of it has the
  // same pointers.
  datatype Parent<D, C> = Parent(own: D, kids: seq<Row<C>>)

  // What is seen of it through the pointers.
  datatype Seen<D, C> = Seen(own: D, kids: seq<C>)

  // Where a row stands: under which key, and how many before it.
  datatype Place<K> = Place(key: K, index: int)

  function Deref<C>(ps: seq<Row<C>>, h: map<Row<C>, C>): (cs: seq<C>)
    requires forall i :: 0 <= i < |ps| ==> ps[i] in h
    ensures |cs| == |ps| && forall i :: 0 <= i < |ps| ==> cs[i] == h[ps[i]]
  {
    seq(|ps|, i requires 0 <= i < |ps| => h[ps[i]])
  }

  // Every row pointed at stands at one place only.
  ghost predicate Placed<K, D, C>(v: map<K, Parent<D, C>>, places: map<Row<C>, Place<K>>) {
    forall k, i :: k in v && 0 <= i < |v[k].kids| ==> v[k].kids[i] in places && places[v[k].kids[i]] == Place(k, i)
  }

  ghost function SeenOf<D, C>(p: Parent<D, C>, h: map<Row<C>, C>): Seen<D, C>
    requires forall i :: 0 <= i < |p.kids| ==> p.kids[i] in h
  {
    Seen(p.own, Deref(p.kids, h))
  }

  // A list of pointers only grows at its end.
  ghost predicate PointersKept<K, D, C>(before: map<K, Parent<D, C>>, after: map<K, Parent<D, C>>) {
    forall k :: k in before ==> k in after && before[k].kids <= after[k].kids
  }

  lemma KeptAt<K, D, C>(v: map<K, Parent<D, C>>, key: K, p: Parent<D, C>)
    requires key in v && v[key].kids <= p.kids
    ensures PointersKept(v, v[key := p])
  {
  }

  lemma KeptTwice<K, D, C>(u: map<K, Parent<D, C>>, v: map<K, Parent<D, C>>, w: map<K, Parent<D, C>>)
    requires PointersKept(u, v) && PointersKept(v, w)
    ensures PointersKept(u, w)
  {
  }

  // The rows pointed at.
  function KidsOf<K, D, C>(m: map<K, Row<Parent<D, C>>>): set<Row<C>>
    reads m.Values
  {
    set k, i | k in m && 0 <= i < |m[k].it.kids| :: m[k].it.kids[i]
  }

  // What is seen of rows through their pointers.
  function Look<K, D, C>(m: map<K, Row<Parent<D, C>>>): (w: map<K, Seen<D, C>>)
    reads m.Values, KidsOf(m)
    ensures w.Keys == m.Keys
    ensures forall k :: k in m ==> w[k].own == m[k].it.own && |w[k].kids| == |m[k].it.kids|
    ensures forall k, i :: k in m && 0 <= i < |m[k].it.kids| ==> w[k].kids[i] == m[k].it.kids[i].it
  {
    map k | k in m :: Seen(m[k].it.own,
      seq(|m[k].it.kids|, i requires k in m && 0 <= i < |m[k].it.kids| reads m.Values, KidsOf(m) => m[k].it.kids[i].it))
  }

  twostate lemma LookKept<K, D, C>(m: map<K, Row<Parent<D, C>>>)
    requires unchanged(m.Values) && unchanged(old(KidsOf(m)))
    ensures Look(m) == old(Look(m))
  {
  }

  // What is seen is what the pointers lead to.
  ghost predicate Consistent<K, D, C>(v: map<K, Parent<D, C>>, h: map<Row<C>, C>, places: map<Row<C>, Place<K>>,
                                      w: map<K, Seen<D, C>>)
  {
    && h.Keys == places.Keys && Placed(v, places) && w.Keys == v.Keys
    && forall k :: k in w ==> w[k] == SeenOf(v[k], h)
  }

  lemma PutAnew<K, D, C>(v: map<K, Parent<D, C>>, h: map<Row<C>, C>, places: map<Row<C>, Place<K>>,
                         w: map<K, Seen<D, C>>, key: K, own: D)
    requires Consistent(v, h, places, w)
    ensures Consistent(v[key := Parent(own, [])], h, places, w[key := Seen(own, [])])
  {
    assert SeenOf(Parent(own, []), h) == Seen(own, []);
  }

  lemma PutOwn<K, D, C>(v: map<K, Parent<D, C>>, h: map<Row<C>, C>, places: map<Row<C>, Place<K>>,
                        w: map<K, Seen<D, C>>, key: K, own: D)
    requires Consistent(v, h, places, w) && key in v
    ensures Consistent(v[key := v[key].(own := own)], h, places, w[key := w[key].(own := own)])
  {
  }

  // Writing through one pointer is seen at its place only.
  lemma PutKid<K, D, C>(v: map<K, Parent<D, C>>, h: map<Row<C>, C>, places: map<Row<C>, Place<K>>,
                        w: map<K, Seen<D, C>>, key: K, i: nat, c: C)
    requires Consistent(v, h, places, w) && key in v && i < |v[key].kids|
    ensures Consistent(v, h[v[key].kids[i] := c], places, w[key := w[key].(kids := w[key].kids[i := c])])
  {
    var r, h' := v[key].kids[i], h[v[key].kids[i] := c];
    forall k, j | k in v && 0 <= j < |v[k].kids| && (k != key || j != i) ensures v[k].kids[j] != r {
      assert places[v[k].kids[j]] == Place(k, j);
    }
    assert Deref(v[key].kids, h') == Deref(v[key].kids, h)[i := c];
    forall k | k in v && k != key ensures w[k] == SeenOf(v[k], h') {
      assert Deref(v[k].kids, h') == Deref(v[k].kids, h);
    }
  }

  lemma AddKid<K, D, C>(v: map<K, Parent<D, C>>, h: map<Row<C>, C>, places: map<Row<C>, Place<K>>,
                        w: map<K, Seen<D, C>>, key: K, r: Row<C>, c: C)
    requires Consistent(v, h, places, w) && key in v && r !in h
    ensures Consistent(v[key := v[key].(kids := v[key].kids + [r])], h[r := c], places[r := Place(key, |v[key].kids|)],
                       Grown(w, key, [c]))
  {
    var h' := h[r := c];
    assert Deref(v[key].kids + [r], h') == Deref(v[key].kids, h) + [c];
    forall k | k in v && k != key ensures w[k] == SeenOf(v[k], h') {
      assert Deref(v[k].kids, h') == Deref(v[k].kids, h);
    }
  }

  ghost function WithKids<K, D, C>(w: map<K, Seen<D, C>>, key: K, kids: seq<C>): (m: map<K, Seen<D, C>>)
    requires key in w
    ensures key in m
  {
    w[key := Seen(w[key].own, kids)]
  }

  // The first n of a list changed where they are what is asked for.
  ghost function ChangedWhere<C>(cs: seq<C>, n: nat, asked: C -> bool, change: C -> C): seq<C> {
    seq(|cs|, i requires 0 <= i < |cs| => if i < n && asked(cs[i]) then change(cs[i]) else cs[i])
  }

  lemma NoneChanged<K, D, C>(w: map<K, Seen<D, C>>, key: K, asked: C -> bool, change: C -> C)
    requires key in w
    ensures WithKids(w, key, ChangedWhere(w[key].kids, 0, asked, change)) == w
  {
    assert ChangedWhere(w[key].kids, 0, asked, change) == w[key].kids;
  }

  lemma NextChanged<K, D, C>(w: map<K, Seen<D, C>>, key: K, i: nat, asked: C -> bool, change: C -> C)
    requires key in w && i < |w[key].kids|
    ensures var c, m := w[key].kids[i], WithKids(w, key, ChangedWhere(w[key].kids, i, asked, change));
      && |m[key].kids| == |w[key].kids| && m[key].kids[i] == c
      && WithKids(w, key, ChangedWhere(w[key].kids, i + 1, asked, change))
        == if asked(c) then WithKids(m, key, m[key].kids[i := change(c)]) else m
  {
    var c, cs := w[key].kids[i], w[key].kids;
    var now, next := ChangedWhere(cs, i, asked, change), ChangedWhere(cs, i + 1, asked, change);
    assert next == if asked(c) then now[i := change(c)] else now;
  }

  ghost function ChangedRow<K, D, C>(k: K, s: Seen<D, C>, asked: (K, D) -> bool, change: D -> D): Seen<D, C> {
    if asked(k, s.own) then s.(own := change(s.own)) else s
  }

  // All the rows changed but those that are still to be.
  ghost function ChangedRows<K, D, C>(w: map<K, Seen<D, C>>, todo: set<K>, asked: (K, D) -> bool, change: D -> D)
    : map<K, Seen<D, C>>
  {
    map k | k in w :: if k in todo then w[k] else ChangedRow(k, w[k], asked, change)
  }

  lemma NoRowsChanged<K, D, C>(w: map<K, Seen<D, C>>, asked: (K, D) -> bool, change: D -> D)
    ensures ChangedRows(w, w.Keys, asked, change) == w
  {
  }

  lemma RowChanged<K, D, C>(w: map<K, Seen<D, C>>, todo: set<K>, k: K, asked: (K, D) -> bool, change: D -> D)
    requires k in todo && todo <= w.Keys
    ensures k in ChangedRows(w, todo, asked, change) && ChangedRows(w, todo, asked, change)[k] == w[k]
    ensures ChangedRows(w, todo - {k}, asked, change)
         == ChangedRows(w, todo, asked, change)[k := ChangedRow(k, w[k], asked, change)]
  {
  }

  // The map with a blank row under a key, if there was none.
  ghost function Made<K, D, C>(w: map<K, Seen<D, C>>, key: K, blank: D): (m: map<K, Seen<D, C>>)
    ensures key in m
  {
    if key in w then w else w[key := Seen(blank, [])]
  }

  ghost function KidsAt<K, D, C>(w: map<K, Seen<D, C>>, key: K): seq<C> {
    if key in w then w[key].kids else []
  }

  // The list under a key with more at its end.
  ghost function Grown<K, D, C>(w: map<K, Seen<D, C>>, key: K, cs: seq<C>): map<K, Seen<D, C>>
    requires key in w
  {
    w[key := Seen(w[key].own, w[key].kids + cs)]
  }

  lemma GrownNone<K, D, C>(w: map<K, Seen<D, C>>, key: K)
    requires key in w
    ensures Grown(w, key, []) == w
  {
    assert w[key].kids + [] == w[key].kids;
  }

  lemma GrownOne<K, D, C>(w: map<K, Seen<D, C>>, key: K, cs: seq<C>, c: C)
    requires key in w
    ensures Grown(w, key, cs + [c]) == Grown(Grown(w, key, cs), key, [c])
  {
    assert w[key].kids + cs + [c] == w[key].kids + (cs + [c]);
  }

  lemma GrownNext<K, D, C>(w: map<K, Seen<D, C>>, key: K, cs: seq<C>, i: nat)
    requires key in w && i < |cs|
    ensures Grown(w, key, cs[..i + 1]) == Grown(Grown(w, key, cs[..i]), key, [cs[i]])
  {
    GrownOne(w, key, cs[..i], cs[i]);
    assert cs[..i + 1] == cs[..i] + [cs[i]];
  }

  lemma GrownAnew<K, D, C>(w: map<K, Seen<D, C>>, key: K, own: D, cs: seq<C>)
    ensures Grown(w[key := Seen(own, [])], key, cs) == w[key := Seen(own, cs)]
  {
    assert [] + cs == cs;
  }

  class Family<K(==), D, C> {
    const table: Table<K, Parent<D, C>>
    ghost var heap: map<Row<C>, C>
    ghost var places: map<Row<C>, Place<K>>
    ghost var view: map<K, Seen<D, C>>

    ghost var Repr: set<object>

    // The heap is what the rows pointed at hold; the view is seen through it.
    ghost predicate Valid()
      reads this, Repr
    {
      table in Repr && Seeing(table.view)
    }

    // The view is that of these rows.
    ghost predicate Seeing(v: map<K, Parent<D, C>>)
      reads this, Repr
    {
      && table in Repr && this in Repr && table.Repr <= Repr && this !in table.Repr && table.Valid()
      && (forall r :: r in heap ==> r in Repr && r !in table.Repr && r.it == heap[r])
      && Consistent(v, heap, places, view)
    }

    constructor ()
      ensures Valid() && fresh(Repr) && view == map[] && table.view == map[]
    {
      table := new Table();
      places, heap, view := map[], map[], map[];
      new;
      Repr := {this} + table.Repr;
    }

    // The row under a key is created if there is none.
    method Make(key: K, blank: D)
      requires Valid()
      modifies this`view, this`Repr, table
      ensures Valid() && fresh(Repr - old(Repr)) && fresh(table.Repr - old(table.Repr))
      ensures heap == old(heap) && PointersKept(old(table.view), table.view)
      ensures view == Made(old(view), key, blank)
    {
      if key !in table.rows {
        PutAnew(table.view, heap, places, view, key, blank);
        table.Put(key, Parent(blank, []));
        Repr := Repr + table.Repr;
        view := view[key := Seen(blank, [])];
      }
    }

    // A row written in place, or a new one where there is none.
    method Set(key: K, own: D)
      requires Valid()
      modifies this`view, this`Repr, table.Repr
      ensures Valid() && fresh(Repr - old(Repr)) && heap == old(heap) && PointersKept(old(table.view), table.view)
      ensures view == old(view)[key := Seen(own, KidsAt(old(view), key))]
    {
      if key in table.rows {
        WriteOwn(key, own);
      } else {
        Make(key, own);
      }
    }

    method Get(key: K, blank: D) returns (own: D)
      requires Valid()
      ensures own == if key in view then view[key].own else blank
    {
      own := if key in table.rows then table.rows[key].it.own else blank;
    }

    // Reading through a pointer.
    method Kid(key: K, i: nat) returns (c: C)
      requires Valid() && key in view && i < |view[key].kids|
      ensures c == view[key].kids[i]
    {
      c := table.rows[key].it.kids[i].it;
    }

    method Count(key: K) returns (n: nat)
      requires Valid() && key in view
      ensures n == |view[key].kids|
    {
      n := |table.rows[key].it.kids|;
    }

    method Own(key: K) returns (own: D)
      requires Valid() && key in view
      ensures own == view[key].own
    {
      own := table.rows[key].it.own;
    }

    // A map with no rows; what was in it is left as it is.
    method Clear()
      requires Valid()
      modifies this, table
      ensures Valid() && Repr == {this, table} && table.Repr == {table} && view == map[]
    {
      table.Clear();
      Repr := {this, table};
      heap, places, view := map[], map[], map[];
    }

    // A new row under a key, in place of any other.
    method Renew(key: K, own: D)
      requires Valid()
      modifies this`view, this`Repr, table
      ensures Valid() && fresh(table.Repr - old(table.Repr)) && fresh(Repr - old(Repr)) && heap == old(heap)
      ensures view == old(view)[key := Seen(own, [])]
    {
      PutAnew(table.view, heap, places, view, key, own);
      table.Put(key, Parent(own, []));
      Repr := Repr + table.Repr;
      view := view[key := Seen(own, [])];
    }

    method AppendAll(key: K, cs: seq<C>)
      requires Valid() && key in view
      modifies this, table.Repr
      ensures Valid() && fresh(Repr - old(Repr)) && fresh(table.Repr - old(table.Repr)) && view == Grown(old(view), key, cs)
    {
      ghost var w := view;
      GrownNone(w, key);
      for i := 0 to |cs|
        invariant Valid() && fresh(Repr - old(Repr)) && fresh(table.Repr - old(table.Repr))
        invariant key in view && view == Grown(w, key, cs[..i])
      {
        GrownNext(w, key, cs, i);
        Append(key, cs[i]);
      }
      assert cs[..|cs|] == cs;
    }

    // The same, with new rows to point at.
    method Insert(key: K, own: D, cs: seq<C>)
      requires Valid()
      modifies this, table.Repr
      ensures Valid() && fresh(Repr - old(Repr)) && fresh(table.Repr - old(table.Repr))
      ensures view == old(view)[key := Seen(own, cs)]
    {
      ghost var w := view;
      Renew(key, own);
      GrownAnew(w, key, own, cs);
      AppendAll(key, cs);
    }

    method WriteOwn(key: K, own: D)
      requires Valid() && key in view
      modifies this`view, table.Repr
      ensures Valid() && Repr == old(Repr) && table.Repr == old(table.Repr) && heap == old(heap)
      ensures PointersKept(old(table.view), table.view) && view == old(view)[key := old(view)[key].(own := own)]
    {
      PutOwn(table.view, heap, places, view, key, own);
      KeptAt(table.view, key, table.view[key].(own := own));
      table.Write(key, table.rows[key].it.(own := own));
      view := view[key := view[key].(own := own)];
    }

    // Writing through a pointer.
    method WriteKid(key: K, i: nat, c: C)
      requires Valid() && key in view && i < |view[key].kids|
      modifies this`view, this`heap, heap.Keys
      ensures Valid() && Repr == old(Repr) && table.view == old(table.view) && heap.Keys == old(heap.Keys)
      ensures view == WithKids(old(view), key, old(view)[key].kids[i := c])
    {
      PutKid(table.view, heap, places, view, key, i, c);
      var r := table.rows[key].it.kids[i];
      r.it := c;
      heap := heap[r := c];
      view := view[key := view[key].(kids := view[key].kids[i := c])];
    }

    // Writing through those pointers of a list that lead to what is asked for.
    method WriteWhere(key: K, asked: C -> bool, change: C -> C)
      requires Valid() && key in view
      modifies this`view, this`heap, heap.Keys
      ensures Valid() && Repr == old(Repr) && table.view == old(table.view) && heap.Keys == old(heap.Keys)
      ensures view == WithKids(old(view), key, ChangedWhere(old(view)[key].kids, |old(view)[key].kids|, asked, change))
    {
      ghost var w := view;
      var n := Count(key);
      NoneChanged(w, key, asked, change);
      for i := 0 to n
        invariant Valid() && Repr == old(Repr) && table.view == old(table.view) && heap.Keys == old(heap.Keys)
        invariant view == WithKids(w, key, ChangedWhere(w[key].kids, i, asked, change))
      {
        NextChanged(w, key, i, asked, change);
        var c := Kid(key, i);
        if asked(c) {
          WriteKid(key, i, change(c));
        }
      }
    }

    method Append(key: K, c: C)
      requires Valid() && key in view
      modifies this, table.Repr
      ensures Valid() && fresh(Repr - old(Repr)) && fresh(table.Repr - old(table.Repr))
      ensures PointersKept(old(table.view), table.view) && view == Grown(old(view), key, [c])
    {
      var r := new Row(c);
      Point(key, r);
    }

    // Writing those of all the rows that are what is asked for.
    method WriteRows(asked: (K, D) -> bool, change: D -> D)
      requires Valid()
      modifies this`view, table.Repr
      ensures Valid() && Repr == old(Repr) && PointersKept(old(table.view), table.view)
      ensures view == ChangedRows(old(view), {}, asked, change)
    {
      ghost var w := view;
      var todo := table.rows.Keys;
      NoRowsChanged(w, asked, change);
      while todo != {}
        invariant Valid() && Repr == old(Repr) && table.Repr == old(table.Repr) && PointersKept(old(table.view), table.view)
        invariant view == ChangedRows(w, todo, asked, change) && todo <= w.Keys
      {
        var k :| k in todo;
        RowChanged(w, todo, k, asked, change);
        ghost var v := table.view;
        WriteRow(k, asked, change);
        KeptTwice(old(table.view), v, table.view);
        todo := todo - {k};
      }
    }

    method WriteRow(k: K, asked: (K, D) -> bool, change: D -> D)
      requires Valid() && k in view
      modifies this`view, table.Repr
      ensures Valid() && Repr == old(Repr) && table.Repr == old(table.Repr) && PointersKept(old(table.view), table.view)
      ensures view == old(view)[k := ChangedRow(k, old(view)[k], asked, change)]
    {
      var own := Own(k);
      if asked(k, own) {
        WriteOwn(k, change(own));
      }
    }

    // One more pointer at the end of a list.
    method Point(key: K, r: Row<C>)
      requires Valid() && key in view && r !in heap && r !in table.Repr
      modifies this, table.Repr
      ensures Valid() && Repr == old(Repr) + {r} && table.Repr == old(table.Repr)
      ensures PointersKept(old(table.view), table.view) && view == Grown(old(view), key, [r.it])
    {
      ghost var v := table.view;
      KeptAt(v, key, v[key].(kids := v[key].kids + [r]));
      Link(key, r);
      Adopt(v, key, r);
    }

    // The pointer written; what is seen is still what it was.
    method Link(key: K, r: Row<C>)
      requires Valid() && key in view && r !in table.Repr
      modifies table.Repr
      ensures Seeing(old(table.view)) && table.Repr == old(table.Repr)
      ensures table.view == old(table.view)[key := old(table.view)[key].(kids := old(table.view)[key].kids + [r])]
    {
      var m := table.rows[key].it;
      table.Write(key, m.(kids := m.kids + [r]));
    }

    // The row pointed at is seen too.
    ghost method Adopt(v: map<K, Parent<D, C>>, key: K, r: Row<C>)
      requires Seeing(v) && key in v && r !in heap && r !in table.Repr
      requires table.view == v[key := v[key].(kids := v[key].kids + [r])]
      modifies this
      ensures Valid() && Repr == old(Repr) + {r} && view == Grown(old(view), key, [r.it])
    {
      var h, ps, w := heap[r := r.it], places[r := Place(key, |v[key].kids|)], Grown(view, key, [r.it]);
      AddKid(v, heap, places, view, key, r, r.it);
      heap, places, view, Repr := h, ps, w, Repr + {r};
    }

    // Copies of the rows, one level deep: they point where the rows do.
    method Copy() returns (m: map<K, Row<Parent<D, C>>>)
      requires Valid()
      ensures Values(m) == table.view && forall k :: k in m ==> fresh(m[k])
    {
      m := table.Copy();
    }
  }

  // The same rows, whatever is seen through their pointers.
  ghost predicate Outline<K, D, C>(w: map<K, Seen<D, C>>, v: map<K, Parent<D, C>>) {
    w.Keys == v.Keys && forall k :: k in v ==> w[k].own == v[k].own && |w[k].kids| == |v[k].kids|
  }

  // What was seen before, with what the pointers lead to later.
  ghost predicate Follows<K, D, C>(look: map<K, Seen<D, C>>, w: map<K, Seen<D, C>>, later: map<K, Seen<D, C>>) {
    && look.Keys == w.Keys
    && (forall k :: k in w ==> k in later && |w[k].kids| <= |later[k].kids|)
    && (forall k :: k in w ==> look[k] == Seen(w[k].own, later[k].kids[..|w[k].kids|]))
  }

  lemma OutlineOf<K, D, C>(v: map<K, Parent<D, C>>, h: map<Row<C>, C>, places: map<Row<C>, Place<K>>, w: map<K, Seen<D, C>>)
    requires Consistent(v, h, places, w)
    ensures Outline(w, v)
  {
  }

  // Copies of the rows show, through the pointers they were made with, what the
  // rows now hold.
  lemma LooksLive<K, D, C>(m: map<K, Row<Parent<D, C>>>, f: Family<K, D, C>, w: map<K, Seen<D, C>>)
    requires f.Valid() && PointersKept(Values(m), f.table.view) && Outline(w, Values(m))
    ensures Follows(Look(m), w, f.view)
  {
    forall k | k in w
      ensures k in f.view && |w[k].kids| <= |f.view[k].kids|
      ensures Look(m)[k] == Seen(w[k].own, f.view[k].kids[..|w[k].kids|])
    {
      var p := f.table.view[k];
      assert Values(m)[k].kids <= p.kids && f.view[k] == SeenOf(p, f.heap);
      PrefixHeld(m[k].it.kids, p.kids, f.heap);
      LookAt(m, k, f.view[k].kids);
    }
  }

  lemma LookAt<K, D, C>(m: map<K, Row<Parent<D, C>>>, k: K, held: seq<C>)
    requires k in m && |m[k].it.kids| <= |held| && forall i :: 0 <= i < |m[k].it.kids| ==> m[k].it.kids[i].it == held[i]
    ensures Look(m)[k] == Seen(m[k].it.own, held[..|m[k].it.kids|])
  {
    assert Look(m)[k].kids == held[..|m[k].it.kids|];
  }

  lemma PrefixHeld<C>(ks: seq<Row<C>>, ps: seq<Row<C>>, h: map<Row<C>, C>)
    requires ks <= ps && (forall i :: 0 <= i < |ps| ==> ps[i] in h) && forall r :: r in h ==> r.it == h[r]
    ensures forall i :: 0 <= i < |ks| ==> ks[i].it == Deref(ps, h)[i]
  {
  }

  // Every row pointed at is among those of the family.
  lemma KidsWithin<K, D, C>(m: map<K, Row<Parent<D, C>>>, f: Family<K, D, C>)
    requires f.Valid() && PointersKept(Values(m), f.table.view)
    ensures KidsOf(m) <= f.heap.Keys
  {
    forall k, i | k in m && 0 <= i < |m[k].it.kids| ensures m[k].it.kids[i] in f.heap {
      var p := f.table.view[k];
      assert Values(m)[k].kids <= p.kids;
      assert m[k].it.kids[i] == p.kids[i];
    }
  }
}
