// The directional comparison of two shapes (diffShapes and snake in
// frontend/internal/state/derive.go).
module Shapes {
  import opened Model
  import opened Sorting
  import Text

  // ---------------------------------------------------------------- spelling

  function SnakeChar(c: char, first: bool): string {
    if 'A' <= c <= 'Z' then (if first then "" else "_") + [(c as int + 32) as char]
    else if c == '-' || c == ' ' || c == '.' then "_"
    else [c]
  }

  function SnakeFrom(s: string, first: bool): string {
    if s == "" then "" else SnakeChar(s[0], first) + SnakeFrom(s[1..], false)
  }

  function Snake(s: string): string {
    SnakeFrom(s, true)
  }

  lemma {:induction false} SnakeConcat(a: string, b: string, first: bool)
    ensures SnakeFrom(a + b, first) == SnakeFrom(a, first) + SnakeFrom(b, first && a == "")
  {
    if a == "" {
      assert a + b == b;
    } else {
      assert (a + b)[1..] == a[1..] + b;
      SnakeConcat(a[1..], b, false);
    }
  }

  method SnakeCase(s: string) returns (b: string)
    ensures b == Snake(s)
  {
    b := "";
    for i := 0 to |s|
      invariant b == Snake(s[..i])
    {
      SnakeConcat(s[..i], [s[i]], true);
      assert s[..i + 1] == s[..i] + [s[i]];
      if 'A' <= s[i] <= 'Z' {
        if i > 0 {
          b := b + "_";
        }
        b := b + [(s[i] as int + 32) as char];
      } else if s[i] == '-' || s[i] == ' ' || s[i] == '.' {
        b := b + "_";
      } else {
        b := b + [s[i]];
      }
    }
    assert s[..|s|] == s;
  }

  // A lower-case word: no upper-case letter and no separator.
  predicate Word(w: string) {
    w != "" && 'a' <= w[0] <= 'z' && Settled(w)
  }

  predicate Settled(w: string) {
    forall i :: 0 <= i < |w| ==> !('A' <= w[i] <= 'Z') && w[i] != '-' && w[i] != ' ' && w[i] != '.'
  }

  lemma {:induction false} SettledStays(w: string, first: bool)
    requires Settled(w)
    ensures SnakeFrom(w, first) == w
  {
    if w != "" { SettledStays(w[1..], false); }
  }

  function Capital(w: string): string
    requires Word(w)
  {
    [Upper(w[0])] + w[1..]
  }

  ghost predicate Words(ws: seq<string>) {
    forall w :: w in ws ==> Word(w)
  }

  // The words run together, each capitalized.
  function Pascal(ws: seq<string>): string
    requires Words(ws)
  {
    if ws == [] then "" else
      assert Words(ws[1..]);
      Capital(ws[0]) + Pascal(ws[1..])
  }

  function Camel(ws: seq<string>): string
    requires Words(ws)
  {
    if ws == [] then "" else
      assert Words(ws[1..]);
      ws[0] + Pascal(ws[1..])
  }

  // The words each preceded by a separator.
  function Led(ws: seq<string>, sep: char): string {
    if ws == [] then "" else [sep] + ws[0] + Led(ws[1..], sep)
  }

  function Separated(ws: seq<string>, sep: char): string {
    if ws == [] then "" else ws[0] + Led(ws[1..], sep)
  }

  function Upper(c: char): char
    requires 'a' <= c <= 'z'
  {
    (c as int - 32) as char
  }

  lemma SnakeUpper(c: char, first: bool)
    requires 'a' <= c <= 'z'
    ensures SnakeFrom([Upper(c)], first) == (if first then "" else "_") + [c]
  {
    var one := [Upper(c)];
    assert one[1..] == "";
    assert SnakeChar(Upper(c), first) == (if first then "" else "_") + [c];
  }

  lemma SnakeUpperThen(c: char, tail: string, first: bool)
    requires 'a' <= c <= 'z' && Settled(tail)
    ensures SnakeFrom([Upper(c)] + tail, first) == (if first then "" else "_") + [c] + tail
  {
    SnakeConcat([Upper(c)], tail, first);
    assert !(first && [Upper(c)] == "");
    SnakeUpper(c, first);
    SettledStays(tail, false);
  }

  lemma SnakeCapital(w: string, first: bool)
    requires Word(w)
    ensures SnakeFrom(Capital(w), first) == (if first then "" else "_") + w
  {
    SnakeUpperThen(w[0], w[1..], first);
    assert (if first then "" else "_") + [w[0]] + w[1..] == (if first then "" else "_") + w;
  }

  lemma {:induction false} SnakePascal(ws: seq<string>)
    requires Words(ws)
    ensures SnakeFrom(Pascal(ws), false) == Led(ws, '_')
  {
    if ws != [] {
      assert Words(ws[1..]) && Word(ws[0]);
      SnakePascal(ws[1..]);
      SnakeCapital(ws[0], false);
      SnakeConcat(Capital(ws[0]), Pascal(ws[1..]), false);
    }
  }

  lemma {:induction false} SnakeLed(ws: seq<string>, sep: char)
    requires Words(ws) && (sep == '_' || sep == '-' || sep == ' ' || sep == '.')
    ensures SnakeFrom(Led(ws, sep), false) == Led(ws, '_')
  {
    if ws != [] {
      assert Words(ws[1..]) && Word(ws[0]);
      SnakeLed(ws[1..], sep);
      SettledStays(ws[0], false);
      SnakeConcat([sep] + ws[0], Led(ws[1..], sep), false);
      SnakeConcat([sep], ws[0], false);
    }
  }

  lemma CamelSpelling(ws: seq<string>)
    requires ws != [] && Words(ws)
    ensures Snake(Camel(ws)) == Separated(ws, '_')
  {
    assert Words(ws[1..]) && Word(ws[0]);
    SettledStays(ws[0], true);
    SnakePascal(ws[1..]);
    SnakeConcat(ws[0], Pascal(ws[1..]), true);
  }

  lemma PascalSpelling(ws: seq<string>)
    requires ws != [] && Words(ws)
    ensures Snake(Pascal(ws)) == Separated(ws, '_')
  {
    var w, rest := ws[0], ws[1..];
    assert Words(rest) && Word(w);
    var pascal := Pascal(rest);
    SnakePascal(rest);
    SnakeCapital(w, true);
    SnakeConcat(Capital(w), pascal, true);
    assert "" + w == w && Pascal(ws) == Capital(w) + pascal;
  }

  lemma SeparatedSpelling(ws: seq<string>, sep: char)
    requires ws != [] && Words(ws) && (sep == '_' || sep == '-' || sep == ' ' || sep == '.')
    ensures Snake(Separated(ws, sep)) == Separated(ws, '_')
  {
    assert Words(ws[1..]) && Word(ws[0]);
    SettledStays(ws[0], true);
    SnakeLed(ws[1..], sep);
    SnakeConcat(ws[0], Led(ws[1..], sep), true);
  }

  // However a serializer runs the words of a name together, it is one name.
  lemma OneSpelling(ws: seq<string>, sep: char)
    requires ws != [] && Words(ws) && (sep == '_' || sep == '-' || sep == ' ' || sep == '.')
    ensures Snake(Camel(ws)) == Snake(Pascal(ws)) == Snake(Separated(ws, sep)) == Separated(ws, '_')
  {
    CamelSpelling(ws);
    PascalSpelling(ws);
    SeparatedSpelling(ws, sep);
  }

  // ---------------------------------------------------------------- lookups

  const OUT := "out"
  const IN := "in"

  function Key(direction: string, name: string): string {
    direction + ":" + name
  }

  function Spelt(name: string, snaked: bool): string {
    if snaked then Snake(name) else name
  }

  function KeyOf(f: Field, snaked: bool): string {
    Key(f.direction, Spelt(f.name, snaked))
  }

  // The last place a key stands at, or -1.
  function LastIn(keys: seq<string>, key: string): (i: int)
    ensures -1 <= i < |keys| && (i >= 0 ==> keys[i] == key)
    ensures forall j :: i < j < |keys| ==> keys[j] != key
  {
    if keys == [] || keys[|keys| - 1] == key then |keys| - 1 else LastIn(keys[..|keys| - 1], key)
  }

  function Keys(fs: seq<Field>, snaked: bool): (keys: seq<string>)
    ensures |keys| == |fs| && forall i :: 0 <= i < |fs| ==> keys[i] == KeyOf(fs[i], snaked)
  {
    seq(|fs|, i requires 0 <= i < |fs| => KeyOf(fs[i], snaked))
  }

  // The field a map filled in order holds under a key: the last one.
  function LastAt(fs: seq<Field>, key: string, snaked: bool): (f: Option<Field>)
    ensures f.Some? ==> f.value in fs && KeyOf(f.value, snaked) == key
    ensures f.None? <==> forall g :: g in fs ==> KeyOf(g, snaked) != key
  {
    var i := LastIn(Keys(fs, snaked), key);
    assert i < 0 ==> forall j :: 0 <= j < |fs| ==> Keys(fs, snaked)[j] != key;
    assert i < 0 ==> forall j :: 0 <= j < |fs| ==> KeyOf(fs[j], snaked) != key;
    if i < 0 then None else Some(fs[i])
  }

  lemma LastAtStep(fs: seq<Field>, f: Field, key: string, snaked: bool)
    ensures LastAt(fs + [f], key, snaked) == if KeyOf(f, snaked) == key then Some(f) else LastAt(fs, key, snaked)
  {
    var keys := Keys(fs + [f], snaked);
    assert keys == Keys(fs, snaked) + [KeyOf(f, snaked)];
    assert keys[..|keys| - 1] == Keys(fs, snaked);
  }

  function At(m: map<string, Field>, key: string): Option<Field> {
    if key in m then Some(m[key]) else None
  }

  ghost predicate Holds(m: map<string, Field>, fs: seq<Field>, snaked: bool) {
    forall key :: At(m, key) == LastAt(fs, key, snaked)
  }

  lemma StoreKey(m: map<string, Field>, fs: seq<Field>, f: Field, snaked: bool)
    requires Holds(m, fs, snaked)
    ensures Holds(m[KeyOf(f, snaked) := f], fs + [f], snaked)
  {
    var more := m[KeyOf(f, snaked) := f];
    forall key ensures At(more, key) == LastAt(fs + [f], key, snaked) {
      LastAtStep(fs, f, key, snaked);
      assert At(m, key) == LastAt(fs, key, snaked);
    }
  }

  method Index(fs: seq<Field>) returns (byName: map<string, Field>, bySnake: map<string, Field>)
    ensures Holds(byName, fs, false) && Holds(bySnake, fs, true)
  {
    byName, bySnake := map[], map[];
    for i := 0 to |fs|
      invariant Holds(byName, fs[..i], false) && Holds(bySnake, fs[..i], true)
    {
      var f := fs[i];
      assert fs[..i + 1] == fs[..i] + [f];
      var snaked := SnakeCase(f.name);
      StoreKey(byName, fs[..i], f, false);
      StoreKey(bySnake, fs[..i], f, true);
      byName := byName[Key(f.direction, f.name) := f];
      bySnake := bySnake[Key(f.direction, snaked) := f];
    }
    assert fs[..|fs|] == fs;
  }

  // ---------------------------------------------------------------- differences

  datatype Kind = MissingOut | MissingIn | Naming | TypeMismatch

  datatype FieldDiff = FieldDiff(kind: Kind, field: string, expected: string, actual: string, severity: string)

  const HIGH := "high"
  const LOW := "low"

  function Renamed(f: Field, alt: Field): FieldDiff { FieldDiff(Naming, f.name, f.name, alt.name, LOW) }

  function Absent(kind: Kind, f: Field): FieldDiff { FieldDiff(kind, f.name, f.typ, "absent", HIGH) }

  function Retyped(f: Field, other: Field): FieldDiff { FieldDiff(TypeMismatch, f.name, other.typ, f.typ, HIGH) }

  predicate Severe(d: FieldDiff) { d.severity == HIGH }

  predicate Mild(d: FieldDiff) { !Severe(d) }

  predicate Graded(d: FieldDiff) { Severe(d) || d.severity == LOW }

  // A required field of one direction, looked for on the other side.
  function NeedDiff(f: Field, direction: string, kind: Kind, others: seq<Field>): (d: Option<FieldDiff>)
    ensures d.Some? ==> Graded(d.value)
  {
    if f.direction != direction || !f.required || LastAt(others, Key(direction, f.name), false).Some? then None
    else
      match LastAt(others, Key(direction, Snake(f.name)), true)
      case Some(alt) => Some(Renamed(f, alt))
      case None => Some(Absent(kind, f))
  }

  function TypeDiff(f: Field, prod: seq<Field>): (d: Option<FieldDiff>)
    ensures d.Some? ==> Graded(d.value)
  {
    match LastAt(prod, KeyOf(f, false), false)
    case Some(other) => if other.typ != f.typ then Some(Retyped(f, other)) else None
    case None => None
  }

  function Needs(fs: seq<Field>, direction: string, kind: Kind, others: seq<Field>): (ds: seq<FieldDiff>)
    ensures forall d :: d in ds <==> exists f :: f in fs && NeedDiff(f, direction, kind, others) == Some(d)
  {
    if fs == [] then []
    else
      var n := |fs| - 1;
      assert fs == fs[..n] + [fs[n]];
      Needs(fs[..n], direction, kind, others) + Listed(NeedDiff(fs[n], direction, kind, others))
  }

  function Types(fs: seq<Field>, prod: seq<Field>): (ds: seq<FieldDiff>)
    ensures forall d :: d in ds <==> exists f :: f in fs && TypeDiff(f, prod) == Some(d)
  {
    if fs == [] then []
    else
      var n := |fs| - 1;
      assert fs == fs[..n] + [fs[n]];
      Types(fs[..n], prod) + Listed(TypeDiff(fs[n], prod))
  }

  function Listed(d: Option<FieldDiff>): seq<FieldDiff> {
    match d case Some(x) => [x] case None => []
  }

  // The three passes, before sorting.
  function Found(prod: seq<Field>, cons: seq<Field>): seq<FieldDiff> {
    Needs(cons, OUT, MissingOut, prod) + Needs(prod, IN, MissingIn, cons) + Types(cons, prod)
  }

  predicate Worse(a: FieldDiff, b: FieldDiff) {
    SeverityRank(a.severity) > SeverityRank(b.severity)
  }

  function Diffs(prod: seq<Field>, cons: seq<Field>): seq<FieldDiff> {
    Sorted(Found(prod, cons), Worse)
  }

  // The body of either of the first two passes.
  method Need(f: Field, direction: string, kind: Kind, ghost others: seq<Field>,
              byName: map<string, Field>, bySnake: map<string, Field>)
    returns (d: Option<FieldDiff>)
    requires Holds(byName, others, false) && Holds(bySnake, others, true)
    ensures d == NeedDiff(f, direction, kind, others)
  {
    assert At(byName, Key(direction, f.name)) == LastAt(others, Key(direction, f.name), false);
    if f.direction != direction || !f.required {
      return None;
    }
    if Key(direction, f.name) in byName {
      return None;
    }
    var snaked := SnakeCase(f.name);
    var key := Key(direction, snaked);
    assert At(bySnake, key) == LastAt(others, key, true);
    if key in bySnake {
      return Some(Renamed(f, bySnake[key]));
    }
    return Some(Absent(kind, f));
  }

  // One of the first two passes.
  method NeedPass(fs: seq<Field>, direction: string, kind: Kind, ghost others: seq<Field>,
                  byName: map<string, Field>, bySnake: map<string, Field>)
    returns (out: seq<FieldDiff>)
    requires Holds(byName, others, false) && Holds(bySnake, others, true)
    ensures out == Needs(fs, direction, kind, others)
  {
    out := [];
    for i := 0 to |fs|
      invariant out == Needs(fs[..i], direction, kind, others)
    {
      assert fs[..i + 1][..i] == fs[..i];
      var d := Need(fs[i], direction, kind, others, byName, bySnake);
      out := out + Listed(d);
    }
    assert fs[..|fs|] == fs;
  }

  method TypePass(cons: seq<Field>, ghost prod: seq<Field>, byName: map<string, Field>) returns (out: seq<FieldDiff>)
    requires Holds(byName, prod, false)
    ensures out == Types(cons, prod)
  {
    out := [];
    for i := 0 to |cons|
      invariant out == Types(cons[..i], prod)
    {
      var f := cons[i];
      var key := KeyOf(f, false);
      assert cons[..i + 1][..i] == cons[..i];
      assert At(byName, key) == LastAt(prod, key, false);
      if key in byName && byName[key].typ != f.typ {
        out := out + [Retyped(f, byName[key])];
      }
    }
    assert cons[..|cons|] == cons;
  }

  method DiffShapes(prod: seq<Field>, cons: seq<Field>) returns (out: seq<FieldDiff>)
    ensures out == Diffs(prod, cons)
  {
    var pByName, pBySnake := Index(prod);
    var cByName, cBySnake := Index(cons);
    var outs := NeedPass(cons, OUT, MissingOut, prod, pByName, pBySnake);
    var ins := NeedPass(prod, IN, MissingIn, cons, cByName, cBySnake);
    var types := TypePass(cons, prod, pByName);
    out := Sorted(outs + ins + types, Worse);
  }

  // ---------------------------------------------------------------- what is reported

  // Direction and name are told apart by the first colon: a direction that goes
  // on after a colon reads like a name that does.
  ghost predicate Straddles(d: string, n: string, d': string, n': string) {
    exists m :: d' == Key(d, m) && n == Key(m, n')
  }

  // Two fields the comparison takes for one: the same direction and name, or a
  // colon too many in one of the directions.
  ghost predicate Taken(d: string, n: string, d': string, n': string) {
    (d == d' && n == n') || Straddles(d, n, d', n') || Straddles(d', n', d, n)
  }

  ghost predicate Matches(g: Field, direction: string, name: string, snaked: bool) {
    Taken(g.direction, Spelt(g.name, snaked), direction, Spelt(name, snaked))
  }

  // The last of the matching fields.
  ghost predicate IsLastMatch(fs: seq<Field>, i: int, direction: string, name: string, snaked: bool) {
    && 0 <= i < |fs| && Matches(fs[i], direction, name, snaked)
    && forall j :: i < j < |fs| ==> !Matches(fs[j], direction, name, snaked)
  }

  lemma LongerDirection(d: string, n: string, d': string, n': string)
    requires Key(d, n) == Key(d', n') && |d| < |d'|
    ensures Straddles(d, n, d', n')
  {
    var key, m := Key(d, n), d'[|d| + 1..];
    assert key[..|d|] == d && key[|d|] == ':' && key[|d| + 1..] == n;
    assert key[..|d'|] == d' && key[|d'|] == ':' && key[|d'| + 1..] == n';
    assert d'[..|d|] == d && d'[|d|] == ':';
    assert d' == Key(d, m);
    assert n[..|m|] == m && n[|m|] == ':';
    assert n == Key(m, n');
  }

  lemma SameKeyWhenTaken(d: string, n: string, d': string, n': string)
    requires Straddles(d, n, d', n')
    ensures Key(d, n) == Key(d', n')
  {
    var m :| d' == Key(d, m) && n == Key(m, n');
    assert d + ":" + (m + ":" + n') == d + ":" + m + ":" + n';
  }

  // Two fields have one key exactly when they are taken for one.
  lemma KeyTells(d: string, n: string, d': string, n': string)
    ensures Key(d, n) == Key(d', n') <==> Taken(d, n, d', n')
  {
    if Key(d, n) == Key(d', n') {
      if |d| < |d'| {
        LongerDirection(d, n, d', n');
      } else if |d'| < |d| {
        LongerDirection(d', n', d, n);
      } else {
        var key := Key(d, n);
        assert key[..|d|] == d && key[..|d'|] == d' && key[|d| + 1..] == n && key[|d'| + 1..] == n';
      }
    } else {
      if Straddles(d, n, d', n') { SameKeyWhenTaken(d, n, d', n'); }
      if Straddles(d', n', d, n) { SameKeyWhenTaken(d', n', d, n); }
    }
  }

  // Without a colon in the directions that is only the same field.
  lemma TakenWithoutColon(d: string, n: string, d': string, n': string)
    requires ':' !in d && ':' !in d'
    ensures Taken(d, n, d', n') <==> d == d' && n == n'
  {
    forall m ensures d' != Key(d, m) && d != Key(d', m) {
      assert Key(d, m)[|d|] == ':' && Key(d', m)[|d'|] == ':';
    }
  }

  lemma MatchIsKey(g: Field, direction: string, name: string, snaked: bool)
    ensures KeyOf(g, snaked) == Key(direction, Spelt(name, snaked)) <==> Matches(g, direction, name, snaked)
  {
    KeyTells(g.direction, Spelt(g.name, snaked), direction, Spelt(name, snaked));
  }

  lemma LastAtIsLast(fs: seq<Field>, direction: string, name: string, snaked: bool) returns (i: int)
    ensures var f := LastAt(fs, Key(direction, Spelt(name, snaked)), snaked);
      if f.Some? then IsLastMatch(fs, i, direction, name, snaked) && fs[i] == f.value
      else forall g :: g in fs ==> !Matches(g, direction, name, snaked)
  {
    var key := Key(direction, Spelt(name, snaked));
    var keys := Keys(fs, snaked);
    i := LastIn(keys, key);
    forall j | 0 <= j < |fs| ensures keys[j] == key <==> Matches(fs[j], direction, name, snaked) {
      assert fs[j] in fs;
      MatchIsKey(fs[j], direction, name, snaked);
    }
  }

  // A field the other side must have but does not: it has the name in another
  // spelling, or not at all.
  ghost predicate Unmet(f: Field, kind: Kind, others: seq<Field>, d: FieldDiff) {
    && f.required && (forall g :: g in others ==> !Matches(g, f.direction, f.name, false))
    && if forall g :: g in others ==> !Matches(g, f.direction, f.name, true) then d == FieldDiff(kind, f.name, f.typ, "absent", "high")
       else exists i :: IsLastMatch(others, i, f.direction, f.name, true)
              && d == FieldDiff(Naming, f.name, f.name, others[i].name, "low")
  }

  // A field the producer gives with another type: the consumer is told the
  // producer's, and its own is the actual one.
  ghost predicate Clash(f: Field, prod: seq<Field>, d: FieldDiff) {
    exists i :: IsLastMatch(prod, i, f.direction, f.name, false) && prod[i].typ != f.typ
      && d == FieldDiff(TypeMismatch, f.name, prod[i].typ, f.typ, "high")
  }

  // What ought to be reported: a required out field the producer does not give,
  // a required in field the consumer does not send, and a field both name with
  // different types.
  ghost predicate Reportable(d: FieldDiff, prod: seq<Field>, cons: seq<Field>) {
    || (exists f :: f in cons && f.direction == OUT && Unmet(f, MissingOut, prod, d))
    || (exists f :: f in prod && f.direction == IN && Unmet(f, MissingIn, cons, d))
    || (exists f :: f in cons && Clash(f, prod, d))
  }

  lemma OneLastMatch(fs: seq<Field>, i: int, j: int, direction: string, name: string, snaked: bool)
    requires IsLastMatch(fs, i, direction, name, snaked) && IsLastMatch(fs, j, direction, name, snaked)
    ensures i == j
  {
  }

  lemma NeedIsUnmet(f: Field, kind: Kind, others: seq<Field>, d: FieldDiff)
    ensures NeedDiff(f, f.direction, kind, others) == Some(d) <==> Unmet(f, kind, others, d)
  {
    var i := LastAtIsLast(others, f.direction, f.name, false);
    var k := LastAtIsLast(others, f.direction, f.name, true);
    if LastAt(others, Key(f.direction, Snake(f.name)), true).Some? {
      forall j | IsLastMatch(others, j, f.direction, f.name, true) ensures j == k {
        OneLastMatch(others, j, k, f.direction, f.name, true);
      }
    }
  }

  lemma TypeIsClash(f: Field, prod: seq<Field>, d: FieldDiff)
    ensures TypeDiff(f, prod) == Some(d) <==> Clash(f, prod, d)
  {
    var i := LastAtIsLast(prod, f.direction, f.name, false);
    if LastAt(prod, KeyOf(f, false), false).Some? {
      forall j | IsLastMatch(prod, j, f.direction, f.name, false) ensures j == i {
        OneLastMatch(prod, j, i, f.direction, f.name, false);
      }
    }
  }

  lemma NeedsUnmet(fs: seq<Field>, direction: string, kind: Kind, others: seq<Field>, d: FieldDiff)
    ensures d in Needs(fs, direction, kind, others)
      <==> exists f :: f in fs && f.direction == direction && Unmet(f, kind, others, d)
  {
    forall f | f in fs
      ensures NeedDiff(f, direction, kind, others) == Some(d) <==> f.direction == direction && Unmet(f, kind, others, d)
    {
      if f.direction == direction { NeedIsUnmet(f, kind, others, d); }
    }
  }

  lemma TypesClash(cons: seq<Field>, prod: seq<Field>, d: FieldDiff)
    ensures d in Types(cons, prod) <==> exists f :: f in cons && Clash(f, prod, d)
  {
    forall f | f in cons ensures TypeDiff(f, prod) == Some(d) <==> Clash(f, prod, d) {
      TypeIsClash(f, prod, d);
    }
  }

  // The comparison reports exactly what ought to be reported.
  lemma ReportsExactly(prod: seq<Field>, cons: seq<Field>, d: FieldDiff)
    ensures d in Diffs(prod, cons) <==> Reportable(d, prod, cons)
  {
    SortedMembers(Found(prod, cons), Worse);
    NeedsUnmet(cons, OUT, MissingOut, prod, d);
    NeedsUnmet(prod, IN, MissingIn, cons, d);
    TypesClash(cons, prod, d);
  }

  // A consumer that needs an out field "x:y" is taken to have it from a field
  // "y" of a direction "out:x".
  lemma ColonHidesMissing(need: Field, given: Field)
    requires need == Field("x:y", need.typ, OUT, true) && given == Field("y", need.typ, "out:x", given.required)
    ensures Diffs([given], [need]) == [] && given.direction != need.direction && given.name != need.name
  {
    assert [given][..0] == [] && [need][..0] == [];
    assert KeyOf(given, false) == Key(OUT, need.name);
    assert given in [given];
    NothingFound([given], [need]);
  }

  lemma NothingFound(prod: seq<Field>, cons: seq<Field>)
    requires forall f :: f in cons ==> NeedDiff(f, OUT, MissingOut, prod).None? && TypeDiff(f, prod).None?
    requires forall f :: f in prod ==> NeedDiff(f, IN, MissingIn, cons).None?
    ensures Diffs(prod, cons) == []
  {
    HasMember(Needs(cons, OUT, MissingOut, prod));
    HasMember(Needs(prod, IN, MissingIn, cons));
    HasMember(Types(cons, prod));
    SortedMembers(Found(prod, cons), Worse);
    HasMember(Diffs(prod, cons));
  }

  lemma WorseIsSevere(x: FieldDiff, y: FieldDiff)
    requires Graded(x) && Graded(y)
    ensures Worse(x, y) <==> Severe(x) && !Severe(y)
  {
    RankOf(x);
    RankOf(y);
  }

  lemma RankOf(d: FieldDiff)
    requires Graded(d)
    ensures SeverityRank(d.severity) == if Severe(d) then 3 else 1
  {
  }

  lemma SevereInTwo(found: seq<FieldDiff>)
    requires forall d :: d in found ==> Graded(d)
    ensures Sorted(found, Worse) == Only(found, Severe) + Only(found, Mild)
  {
    forall x, y | x in found && y in found ensures Worse(x, y) <==> Severe(x) && !Severe(y) {
      WorseIsSevere(x, y);
    }
    SortedInTwo(found, Worse, Severe, Mild);
  }

  // Sorting puts what breaks a side before what is only spelled differently. Else
  // the order is that in which they are found: what the consumer needs, what the
  // producer needs, then the types.
  lemma SevereFirst(prod: seq<Field>, cons: seq<Field>, found: seq<FieldDiff>)
    requires found == Needs(cons, OUT, MissingOut, prod) + Needs(prod, IN, MissingIn, cons) + Types(cons, prod)
    ensures Diffs(prod, cons) == Only(found, Severe) + Only(found, Mild)
  {
    forall d | d in found ensures Graded(d) {
      FoundGraded(prod, cons, d);
    }
    SevereInTwo(found);
  }

  lemma FoundGraded(prod: seq<Field>, cons: seq<Field>, d: FieldDiff)
    requires d in Found(prod, cons)
    ensures Graded(d)
  {
    var a, b, c := Needs(cons, OUT, MissingOut, prod), Needs(prod, IN, MissingIn, cons), Types(cons, prod);
    assert d in a || d in b || d in c;
  }

  // ---------------------------------------------------------------- agreement

  // No field is listed twice with two types.
  ghost predicate Consistent(fs: seq<Field>) {
    forall f, g :: f in fs && g in fs && KeyOf(f, false) == KeyOf(g, false) ==> f.typ == g.typ
  }

  lemma NothingNeeded(fs: seq<Field>, direction: string, kind: Kind)
    ensures Needs(fs, direction, kind, fs) == []
  {
    var ds := Needs(fs, direction, kind, fs);
    forall f | f in fs ensures NeedDiff(f, direction, kind, fs).None? {
      if f.direction == direction { assert KeyOf(f, false) == Key(direction, f.name); }
    }
    HasMember(ds);
  }

  lemma HasMember(ds: seq<FieldDiff>)
    ensures ds != [] <==> exists d :: d in ds
  {
    if ds != [] { assert ds[0] in ds; }
  }

  // A shape agrees with itself if and only if it gives no field two types.
  lemma SelfAgreement(fs: seq<Field>)
    ensures Diffs(fs, fs) == [] <==> Consistent(fs)
  {
    NothingNeeded(fs, OUT, MissingOut);
    NothingNeeded(fs, IN, MissingIn);
    SortedMembers(Found(fs, fs), Worse);
    var ds := Types(fs, fs);
    assert Found(fs, fs) == ds;
    if Consistent(fs) {
      forall f | f in fs ensures TypeDiff(f, fs).None? {
      }
      HasMember(ds);
    } else {
      var f, g :| f in fs && g in fs && KeyOf(f, false) == KeyOf(g, false) && f.typ != g.typ;
      var other := LastAt(fs, KeyOf(f, false), false).value;
      var h := if other.typ != f.typ then f else g;
      assert TypeDiff(h, fs) == Some(Retyped(h, other));
      assert Retyped(h, other) in ds;
    }
  }
}
