// Entity maps filled anew from a snapshot's rows (replace in
// frontend/internal/state/store.go).
module Filling {
  import opened Entities
  import opened Fold
  import opened Model
  import opened Tables

  // A row to be made, and the key it goes under.
  datatype NewRow = NewRow(key: RowKey, seen: Seen<Own, Child>)

  // Later rows win under a repeated key.
  ghost function Filled<T>(v: EntityView, xs: seq<T>, row: T -> NewRow): EntityView
    decreases |xs|
  {
    if xs == [] then v
    else
      var last := row(xs[|xs| - 1]);
      Filled(v, xs[..|xs| - 1], row)[last.key := last.seen]
  }

  method Fill<T>(f: EntityRows, xs: seq<T>, row: T -> NewRow)
    requires f.Valid()
    modifies f, f.table.Repr
    ensures f.Valid() && fresh(f.Repr - old(f.Repr)) && fresh(f.table.Repr - old(f.table.Repr))
    ensures f.view == Filled(old(f.view), xs, row)
  {
    ghost var v := f.view;
    for i := 0 to |xs|
      invariant f.Valid() && fresh(f.Repr - old(f.Repr)) && fresh(f.table.Repr - old(f.table.Repr))
      invariant f.view == Filled(v, xs[..i], row)
    {
      var r := row(xs[i]);
      f.Insert(r.key, r.seen.own, r.seen.kids);
      assert xs[..i + 1][..i] == xs[..i];
    }
    assert xs[..|xs|] == xs;
  }

  function NewMember(x: Member): NewRow { NewRow(MemberKey(x.key), MemberRow(x)) }

  function NewSession(x: Session): NewRow { NewRow(SessionKey(x.key), Seen(SessionOwn(x), [])) }

  function NewIntent(x: Intent): NewRow { NewRow(IntentKey(x.key), Seen(IntentOwn(x), [])) }

  function NewClaim(x: Claim): NewRow { NewRow(ClaimKey(x.key), Seen(ClaimOwn(x), [])) }

  function NewContract(x: Contract): NewRow { NewRow(ContractKey(x.key), ContractRow(x)) }

  function NewDecision(x: Decision): NewRow { NewRow(DecisionKey(x.key), Seen(DecisionOwn(x), [])) }

  function NewConflict(x: Conflict): NewRow { NewRow(ConflictKey(x.key), Seen(ConflictOwn(x), [])) }

  lemma {:induction false} FillsMembers(v: EntityView, w: World, xs: seq<Member>, key: Member -> string)
    requires Shows(v, w) && w.members == map[] && forall x :: key(x) == x.key
    ensures Shows(Filled(v, xs, NewMember), w.(members := Keyed(xs, key)))
    decreases |xs|
  {
    if xs != [] {
      var x := xs[|xs| - 1];
      FillsMembers(v, w, xs[..|xs| - 1], key);
      ShowsMember(Filled(v, xs[..|xs| - 1], NewMember), w.(members := Keyed(xs[..|xs| - 1], key)), x.key, x);
    }
  }

  lemma {:induction false} FillsSessions(v: EntityView, w: World, xs: seq<Session>, key: Session -> string)
    requires Shows(v, w) && w.sessions == map[] && forall x :: key(x) == x.key
    ensures Shows(Filled(v, xs, NewSession), w.(sessions := Keyed(xs, key)))
    decreases |xs|
  {
    if xs != [] {
      var x := xs[|xs| - 1];
      FillsSessions(v, w, xs[..|xs| - 1], key);
      ShowsSession(Filled(v, xs[..|xs| - 1], NewSession), w.(sessions := Keyed(xs[..|xs| - 1], key)), x.key, x);
    }
  }

  lemma {:induction false} FillsIntents(v: EntityView, w: World, xs: seq<Intent>, key: Intent -> string)
    requires Shows(v, w) && w.intents == map[] && forall x :: key(x) == x.key
    ensures Shows(Filled(v, xs, NewIntent), w.(intents := Keyed(xs, key)))
    decreases |xs|
  {
    if xs != [] {
      var x := xs[|xs| - 1];
      FillsIntents(v, w, xs[..|xs| - 1], key);
      ShowsIntent(Filled(v, xs[..|xs| - 1], NewIntent), w.(intents := Keyed(xs[..|xs| - 1], key)), x.key, x);
    }
  }

  lemma {:induction false} FillsClaims(v: EntityView, w: World, xs: seq<Claim>, key: Claim -> string)
    requires Shows(v, w) && w.claims == map[] && forall x :: key(x) == x.key
    ensures Shows(Filled(v, xs, NewClaim), w.(claims := Keyed(xs, key)))
    decreases |xs|
  {
    if xs != [] {
      var x := xs[|xs| - 1];
      FillsClaims(v, w, xs[..|xs| - 1], key);
      ShowsClaim(Filled(v, xs[..|xs| - 1], NewClaim), w.(claims := Keyed(xs[..|xs| - 1], key)), x.key, x);
    }
  }

  lemma {:induction false} FillsContracts(v: EntityView, w: World, xs: seq<Contract>, key: Contract -> string)
    requires Shows(v, w) && w.contracts == map[] && forall x :: key(x) == x.key
    ensures Shows(Filled(v, xs, NewContract), w.(contracts := Keyed(xs, key)))
    decreases |xs|
  {
    if xs != [] {
      var x := xs[|xs| - 1];
      FillsContracts(v, w, xs[..|xs| - 1], key);
      ShowsContract(Filled(v, xs[..|xs| - 1], NewContract), w.(contracts := Keyed(xs[..|xs| - 1], key)), x.key, x);
    }
  }

  lemma {:induction false} FillsDecisions(v: EntityView, w: World, xs: seq<Decision>, key: Decision -> string)
    requires Shows(v, w) && w.decisions == map[] && forall x :: key(x) == x.key
    ensures Shows(Filled(v, xs, NewDecision), w.(decisions := Keyed(xs, key)))
    decreases |xs|
  {
    if xs != [] {
      var x := xs[|xs| - 1];
      FillsDecisions(v, w, xs[..|xs| - 1], key);
      ShowsDecision(Filled(v, xs[..|xs| - 1], NewDecision), w.(decisions := Keyed(xs[..|xs| - 1], key)), x.key, x);
    }
  }

  lemma {:induction false} FillsConflicts(v: EntityView, w: World, xs: seq<Conflict>, key: Conflict -> string)
    requires Shows(v, w) && w.conflicts == map[] && forall x :: key(x) == x.key
    ensures Shows(Filled(v, xs, NewConflict), w.(conflicts := Keyed(xs, key)))
    decreases |xs|
  {
    if xs != [] {
      var x := xs[|xs| - 1];
      FillsConflicts(v, w, xs[..|xs| - 1], key);
      ShowsConflict(Filled(v, xs[..|xs| - 1], NewConflict), w.(conflicts := Keyed(xs[..|xs| - 1], key)), x.key, x);
    }
  }
}
