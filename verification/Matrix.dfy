// The produces/consumes matrix over the folded contracts (ContractMatrix and
// verdict in frontend/internal/state/derive.go, byRole in model.go).
module Matrix {
  import opened Model
  import opened Shapes
  import opened StoreRuns
  import Fold
  import opened Sorting

  datatype Cell = Cell(state: string, mismatched: bool, diffs: seq<FieldDiff>, shapeHash: string, fieldCount: nat)

  datatype Column = Column(sessionKey: string, member: string)

  datatype Row = Row(
    contract: Contract, cells: seq<Cell>, producers: seq<Assertion>, consumers: seq<Assertion>,
    status: string, severity: string, diffs: seq<FieldDiff>)

  const EMPTY := ""
  const BOTH := "both"
  const UNCLAIMED := "unclaimed"
  const MISMATCH := "mismatch"
  const CONTESTED := "contested"
  const UNCONSUMED := "unconsumed"
  const CONVERGED := "converged"

  const BLANK_CELL := Cell(EMPTY, false, [], "", 0)

  // ---------------------------------------------------------------- roles

  predicate Asserts(a: Assertion, session: string) {
    a.status == ACTIVE && a.sessionKey == session
  }

  function InRole(xs: seq<Assertion>, role: string): seq<Assertion> {
    if xs == [] then []
    else
      var n := |xs| - 1;
      InRole(xs[..n], role) + if xs[n].role == role && xs[n].status == ACTIVE then [xs[n]] else []
  }

  lemma {:induction false} InRoleMembers(xs: seq<Assertion>, role: string)
    ensures forall a :: a in InRole(xs, role) <==> a in xs && a.role == role && a.status == ACTIVE
  {
    if xs != [] {
      InRoleMembers(xs[..|xs| - 1], role);
      assert xs == xs[..|xs| - 1] + [xs[|xs| - 1]];
    }
  }

  predicate BySession(a: Assertion, b: Assertion) {
    LexLess(a.sessionKey, b.sessionKey)
  }

  method ByRole(xs: seq<Assertion>, role: string) returns (out: seq<Assertion>)
    ensures out == Sorted(InRole(xs, role), BySession)
  {
    out := [];
    for i := 0 to |xs|
      invariant out == InRole(xs[..i], role)
    {
      assert xs[..i + 1][..i] == xs[..i];
      if xs[i].role == role && xs[i].status == ACTIVE {
        out := out + [xs[i]];
      }
    }
    assert xs[..|xs|] == xs;
    out := Sorted(out, BySession);
  }

  // The active assertions on one side, in the order of their sessions.
  function Side(c: Contract, role: string): seq<Assertion> {
    Sorted(InRole(c.assertions, role), BySession)
  }

  lemma SideMembers(c: Contract, role: string)
    ensures forall a :: a in Side(c, role) <==> a in c.assertions && a.role == role && a.status == ACTIVE
  {
    InRoleMembers(c.assertions, role);
    SortedMembers(InRole(c.assertions, role), BySession);
  }

  // ---------------------------------------------------------------- columns

  // The session asserts something somewhere.
  ghost predicate AssertsIn(cs: seq<Contract>, session: string) {
    exists c :: c in cs && AssertsOn(c.assertions, session)
  }

  ghost predicate AssertsOn(xs: seq<Assertion>, session: string) {
    exists a :: a in xs && Asserts(a, session)
  }

  ghost predicate ColumnsFor(cols: seq<Column>, names: map<string, string>, seen: set<string>) {
    && (forall i, j :: 0 <= i < j < |cols| ==> cols[i].sessionKey != cols[j].sessionKey)
    && (forall k :: k in seen <==> ColumnOf(names, k) in cols)
    && (forall c :: c in cols ==> c == ColumnOf(names, c.sessionKey))
  }

  function ColumnOf(names: map<string, string>, session: string): Column {
    Column(session, if session in names then names[session] else session)
  }

  // A session's column goes by its member's name, or by its own key without one.
  predicate IsColumn(c: Column, names: map<string, string>) {
    if c.sessionKey in names then c.member == names[c.sessionKey] else c.member == c.sessionKey
  }

  // By member's name, and by key among those of one name.
  predicate Before(a: Column, b: Column) {
    LexLess(a.member, b.member) || (a.member == b.member && LexLess(a.sessionKey, b.sessionKey))
  }

  predicate ByMember(a: Column, b: Column) {
    if a.member != b.member then LexLess(a.member, b.member) else LexLess(a.sessionKey, b.sessionKey)
  }

  method AddColumns(xs: seq<Assertion>, names: map<string, string>, cols0: seq<Column>, seen0: set<string>)
    returns (cols: seq<Column>, seen: set<string>)
    requires ColumnsFor(cols0, names, seen0)
    ensures ColumnsFor(cols, names, seen)
    ensures forall k :: k in seen <==> k in seen0 || AssertsOn(xs, k)
  {
    cols, seen := cols0, seen0;
    for i := 0 to |xs|
      invariant ColumnsFor(cols, names, seen)
      invariant forall k :: k in seen <==> k in seen0 || AssertsOn(xs[..i], k)
    {
      var a := xs[i];
      assert xs[..i + 1] == xs[..i] + [a];
      assert forall k :: AssertsOn(xs[..i + 1], k) <==> AssertsOn(xs[..i], k) || Asserts(a, k);
      if a.status != ACTIVE || a.sessionKey in seen {
        continue;
      }
      AddColumn(cols, names, seen, a.sessionKey);
      seen := seen + {a.sessionKey};
      cols := cols + [ColumnOf(names, a.sessionKey)];
    }
    assert xs[..|xs|] == xs;
  }

  lemma AddColumn(cols: seq<Column>, names: map<string, string>, seen: set<string>, k: string)
    requires ColumnsFor(cols, names, seen) && k !in seen
    ensures ColumnsFor(cols + [ColumnOf(names, k)], names, seen + {k})
  {
    forall i | 0 <= i < |cols| ensures cols[i].sessionKey != k {
      assert cols[i] in cols;
    }
  }

  // Columns are exactly the sessions with an active assertion, each once.
  method Columns(cs: seq<Contract>, names: map<string, string>) returns (cols: seq<Column>)
    ensures forall c :: c in cols <==> IsColumn(c, names) && AssertsIn(cs, c.sessionKey)
    ensures forall i, j :: 0 <= i < j < |cols| ==> Before(cols[i], cols[j])
  {
    cols := [];
    var seen: set<string> := {};
    for i := 0 to |cs|
      invariant ColumnsFor(cols, names, seen)
      invariant forall k :: k in seen <==> AssertsIn(cs[..i], k)
    {
      assert cs[..i + 1] == cs[..i] + [cs[i]];
      assert forall k :: AssertsIn(cs[..i + 1], k) <==> AssertsIn(cs[..i], k) || AssertsOn(cs[i].assertions, k);
      cols, seen := AddColumns(cs[i].assertions, names, cols, seen);
    }
    assert cs[..|cs|] == cs;
    ColumnsSort(cols, names, seen);
    cols := Sorted(cols, ByMember);
  }

  lemma ColumnsSort(cols: seq<Column>, names: map<string, string>, seen: set<string>)
    requires ColumnsFor(cols, names, seen)
    ensures forall c :: c in Sorted(cols, ByMember) <==> c in cols
    ensures forall i, j :: 0 <= i < j < |Sorted(cols, ByMember)| ==>
      ByMember(Sorted(cols, ByMember)[i], Sorted(cols, ByMember)[j])
      && Sorted(cols, ByMember)[i].sessionKey != Sorted(cols, ByMember)[j].sessionKey
  {
    var on := set c | c in cols;
    ByMemberTotal(on);
    SortedOrdered(cols, ByMember, on);
    SortedMembers(cols, ByMember);
    var out := Sorted(cols, ByMember);
    forall i, j | 0 <= i < j < |out| ensures out[i].sessionKey != out[j].sessionKey {
      assert ByMember(out[i], out[j]) && out[i] in out && out[j] in out;
      assert out[i] in on && out[j] in on;
    }
  }

  lemma ByMemberTotal(on: set<Column>)
    ensures TotalOn(ByMember, on)
  {
    LexLaws();
  }

  // ---------------------------------------------------------------- cells

  function NextState(state: string, role: string): string {
    if state == EMPTY then role else if state != role then BOTH else state
  }

  // A session's cell, from its active assertions in order.
  function Filled(xs: seq<Assertion>, session: string): Cell {
    if xs == [] then BLANK_CELL
    else
      var n := |xs| - 1;
      var cell := Filled(xs[..n], session);
      if !Asserts(xs[n], session) then cell
      else cell.(state := NextState(cell.state, xs[n].role), shapeHash := xs[n].shapeHash,
                 fieldCount := cell.fieldCount + |xs[n].fields|)
  }

  // One consumer against every producer.
  function Against(producers: seq<Assertion>, consumer: Assertion): seq<FieldDiff> {
    Gathered(producers, (p: Assertion) => Diffs(p.fields, consumer.fields))
  }

  function AllDiffs(producers: seq<Assertion>, consumers: seq<Assertion>): seq<FieldDiff> {
    Gathered(consumers, (c: Assertion) => Against(producers, c))
  }

  // A consumer whose shape disagrees has its cell marked.
  function Compared(cell: Cell, session: string, producers: seq<Assertion>, consumers: seq<Assertion>): Cell {
    if consumers == [] then cell
    else
      var n := |consumers| - 1;
      var ds := Against(producers, consumers[n]);
      var before := Compared(cell, session, producers, consumers[..n]);
      if ds != [] && consumers[n].sessionKey == session then before.(mismatched := true, diffs := ds) else before
  }

  ghost predicate Contests(producers: seq<Assertion>, session: string) {
    |producers| > 1 && exists p :: p in producers && p.sessionKey == session
  }

  ghost function CellAt(c: Contract, session: string): Cell {
    var cell := Compared(Filled(c.assertions, session), session, Side(c, PRODUCES), Side(c, CONSUMES));
    if Contests(Side(c, PRODUCES), session) then cell.(mismatched := true) else cell
  }

  // ---------------------------------------------------------------- verdict

  function WorstOf(ds: seq<FieldDiff>): string {
    if ds == [] then LOW
    else
      var n := |ds| - 1;
      var before := WorstOf(ds[..n]);
      if SeverityRank(ds[n].severity) > SeverityRank(before) then ds[n].severity else before
  }

  method Verdict(producers: nat, consumers: nat, diffs: seq<FieldDiff>) returns (status: string, severity: string)
    ensures status == StatusOf(producers, consumers, diffs)
    ensures severity == SeverityOf(status, diffs)
  {
    if consumers > 0 && producers == 0 {
      return UNCLAIMED, "critical";
    } else if |diffs| > 0 {
      var sev := LOW;
      for i := 0 to |diffs|
        invariant sev == WorstOf(diffs[..i])
      {
        assert diffs[..i + 1][..i] == diffs[..i];
        if SeverityRank(diffs[i].severity) > SeverityRank(sev) {
          sev := diffs[i].severity;
        }
      }
      assert diffs[..|diffs|] == diffs;
      return MISMATCH, sev;
    } else if producers > 1 {
      return CONTESTED, HIGH;
    } else if producers > 0 && consumers == 0 {
      return UNCONSUMED, "";
    } else {
      return CONVERGED, "";
    }
  }

  function StatusOf(producers: nat, consumers: nat, diffs: seq<FieldDiff>): string {
    if consumers > 0 && producers == 0 then UNCLAIMED
    else if |diffs| > 0 then MISMATCH
    else if producers > 1 then CONTESTED
    else if producers > 0 && consumers == 0 then UNCONSUMED
    else CONVERGED
  }

  function SeverityOf(status: string, diffs: seq<FieldDiff>): string {
    if status == UNCLAIMED then "critical"
    else if status == MISMATCH then WorstOf(diffs)
    else if status == CONTESTED then HIGH
    else ""
  }

  // ---------------------------------------------------------------- rows

  ghost function RowOf(c: Contract, cols: seq<Column>): Row {
    var producers, consumers := Side(c, PRODUCES), Side(c, CONSUMES);
    var diffs := AllDiffs(producers, consumers);
    var status := StatusOf(|producers|, |consumers|, diffs);
    Row(c, CellsOf(c, cols), producers, consumers, status, SeverityOf(status, diffs), diffs)
  }

  ghost function CellsOf(c: Contract, cols: seq<Column>): seq<Cell> {
    seq(|cols|, i requires 0 <= i < |cols| => CellAt(c, cols[i].sessionKey))
  }

  ghost predicate HasCells(cells: map<string, Cell>, cols: seq<Column>) {
    forall i :: 0 <= i < |cols| ==> cols[i].sessionKey in cells
  }

  method FillCells(xs: seq<Assertion>, cols: seq<Column>) returns (cells: map<string, Cell>)
    ensures HasCells(cells, cols) && forall k :: k in cells ==> cells[k] == Filled(xs, k)
  {
    cells := map[];
    for i := 0 to |cols|
      invariant HasCells(cells, cols[..i]) && forall k :: k in cells ==> cells[k] == BLANK_CELL
    {
      cells := cells[cols[i].sessionKey := BLANK_CELL];
    }
    for i := 0 to |xs|
      invariant HasCells(cells, cols) && forall k :: k in cells ==> cells[k] == Filled(xs[..i], k)
    {
      var a := xs[i];
      assert xs[..i + 1][..i] == xs[..i];
      if a.status != ACTIVE || a.sessionKey !in cells {
        continue;
      }
      var cell := cells[a.sessionKey];
      if cell.state == EMPTY {
        cell := cell.(state := a.role);
      } else if cell.state != a.role {
        cell := cell.(state := BOTH);
      }
      cells := cells[a.sessionKey := cell.(shapeHash := a.shapeHash, fieldCount := cell.fieldCount + |a.fields|)];
    }
    assert xs[..|xs|] == xs;
  }

  method Compare(cells0: map<string, Cell>, producers: seq<Assertion>, consumers: seq<Assertion>)
    returns (cells: map<string, Cell>, diffs: seq<FieldDiff>)
    ensures cells.Keys == cells0.Keys && diffs == AllDiffs(producers, consumers)
    ensures forall k :: k in cells ==> cells[k] == Compared(cells0[k], k, producers, consumers)
  {
    cells, diffs := cells0, [];
    for i := 0 to |consumers|
      invariant cells.Keys == cells0.Keys && diffs == AllDiffs(producers, consumers[..i])
      invariant forall k :: k in cells ==> cells[k] == Compared(cells0[k], k, producers, consumers[..i])
    {
      var c := consumers[i];
      assert consumers[..i + 1][..i] == consumers[..i];
      var ds := CompareOne(producers, c);
      if |ds| > 0 {
        if c.sessionKey in cells {
          cells := cells[c.sessionKey := cells[c.sessionKey].(mismatched := true, diffs := ds)];
        }
        diffs := diffs + ds;
      }
    }
    assert consumers[..|consumers|] == consumers;
  }

  method CompareOne(producers: seq<Assertion>, c: Assertion) returns (ds: seq<FieldDiff>)
    ensures ds == Against(producers, c)
  {
    ds := [];
    for i := 0 to |producers|
      invariant ds == Against(producers[..i], c)
    {
      assert producers[..i + 1][..i] == producers[..i];
      var more := DiffShapes(producers[i].fields, c.fields);
      ds := ds + more;
    }
    assert producers[..|producers|] == producers;
  }

  method MarkContested(cells0: map<string, Cell>, producers: seq<Assertion>) returns (cells: map<string, Cell>)
    ensures cells.Keys == cells0.Keys
    ensures forall k :: k in cells ==> cells[k] == if Contests(producers, k) then cells0[k].(mismatched := true) else cells0[k]
  {
    cells := cells0;
    if |producers| > 1 {
      for i := 0 to |producers|
        invariant cells.Keys == cells0.Keys
        invariant forall k :: k in cells ==>
          (cells[k] == if exists p :: p in producers[..i] && p.sessionKey == k then cells0[k].(mismatched := true) else cells0[k])
      {
        var p := producers[i];
        assert producers[..i + 1] == producers[..i] + [p];
        if p.sessionKey in cells {
          cells := cells[p.sessionKey := cells[p.sessionKey].(mismatched := true)];
        }
      }
      assert producers[..|producers|] == producers;
    }
  }

  method BuildRow(c: Contract, cols: seq<Column>) returns (row: Row)
    ensures row == RowOf(c, cols)
  {
    var producers := ByRole(c.assertions, PRODUCES);
    var consumers := ByRole(c.assertions, CONSUMES);
    var filled := FillCells(c.assertions, cols);
    var compared, diffs := Compare(filled, producers, consumers);
    var marked := MarkContested(compared, producers);
    var cells := seq(|cols|, i requires 0 <= i < |cols| => BLANK_CELL);
    for i := 0 to |cols|
      invariant |cells| == |cols| && forall j :: 0 <= j < i ==> cells[j] == CellAt(c, cols[j].sessionKey)
    {
      cells := cells[i := marked[cols[i].sessionKey]];
    }
    assert cells == CellsOf(c, cols);
    var status, severity := Verdict(|producers|, |consumers|, diffs);
    row := Row(c, cells, producers, consumers, status, severity, diffs);
  }

  function Urgency(status: string): nat {
    if status == UNCLAIMED then 0
    else if status == MISMATCH then 1
    else if status == CONTESTED then 2
    else if status == UNCONSUMED then 3
    else 4
  }

  predicate MoreUrgent(a: Row, b: Row) {
    if Urgency(a.status) != Urgency(b.status) then Urgency(a.status) < Urgency(b.status)
    else LexLess(a.contract.key, b.contract.key)
  }

  ghost function RowsOf(cs: seq<Contract>, cols: seq<Column>): seq<Row> {
    if cs == [] then [] else RowsOf(cs[..|cs| - 1], cols) + [RowOf(cs[|cs| - 1], cols)]
  }

  lemma RowsStep(cs: seq<Contract>, i: nat, cols: seq<Column>)
    requires i < |cs|
    ensures RowsOf(cs[..i + 1], cols) == RowsOf(cs[..i], cols) + [RowOf(cs[i], cols)]
  {
    assert cs[..i + 1][..i] == cs[..i];
  }

  method BuildRows(cs: seq<Contract>, cols: seq<Column>) returns (rows: seq<Row>)
    ensures rows == RowsOf(cs, cols)
  {
    rows := [];
    for i := 0 to |cs|
      invariant rows == RowsOf(cs[..i], cols)
    {
      RowsStep(cs, i, cols);
      var row := BuildRow(cs[i], cols);
      rows := rows + [row];
    }
    assert cs[..|cs|] == cs;
  }

  // A row for every contract, the most urgent first.
  method ContractMatrix(cs: seq<Contract>, names: map<string, string>) returns (cols: seq<Column>, rows: seq<Row>)
    ensures forall c :: c in cols <==> IsColumn(c, names) && AssertsIn(cs, c.sessionKey)
    ensures forall i, j :: 0 <= i < j < |cols| ==> Before(cols[i], cols[j])
    ensures rows == Sorted(RowsOf(cs, cols), MoreUrgent)
  {
    cols := Columns(cs, names);
    rows := BuildRows(cs, cols);
    rows := Sorted(rows, MoreUrgent);
  }

  // ---------------------------------------------------------------- what a cell means

  // The sides of a contract a session actively asserts.
  ghost function Roles(xs: seq<Assertion>, session: string): set<string> {
    set a | a in xs && Asserts(a, session) :: a.role
  }

  // A blank for no role, the role for one, and "both" for more.
  ghost predicate Shows(state: string, roles: set<string>) {
    && (state == EMPTY <==> roles == {})
    && (forall r :: roles == {r} ==> state == r)
    && (forall r, q :: r in roles && q in roles && r != q ==> state == BOTH)
  }

  // The roles a session actively asserts, in the order of the assertions.
  function RolesInOrder(xs: seq<Assertion>, session: string): seq<string>
    decreases |xs|
  {
    if xs == [] then []
    else
      var n := |xs| - 1;
      RolesInOrder(xs[..n], session) + (if Asserts(xs[n], session) then [xs[n].role] else [])
  }

  function StateOf(roles: seq<string>): string
    decreases |roles|
  {
    if roles == [] then EMPTY else NextState(StateOf(roles[..|roles| - 1]), roles[|roles| - 1])
  }

  lemma {:induction false} FilledState(xs: seq<Assertion>, session: string)
    ensures Filled(xs, session).state == StateOf(RolesInOrder(xs, session))
  {
    if xs != [] {
      var n := |xs| - 1;
      var before := RolesInOrder(xs[..n], session);
      FilledState(xs[..n], session);
      assert (before + [xs[n].role])[..|before|] == before;
      assert before + [] == before;
    }
  }

  lemma {:induction false} RolesAre(xs: seq<Assertion>, session: string)
    ensures forall r :: r in Roles(xs, session) <==> r in RolesInOrder(xs, session)
  {
    if xs != [] {
      var n := |xs| - 1;
      assert xs == xs[..n] + [xs[n]];
      RolesAre(xs[..n], session);
      RolesStep(xs[..n], xs[n], session);
    }
  }

  lemma RolesStep(xs: seq<Assertion>, a: Assertion, session: string)
    ensures Roles(xs + [a], session) == if Asserts(a, session) then Roles(xs, session) + {a.role} else Roles(xs, session)
  {
    forall x ensures x in xs + [a] <==> x in xs || x == a {
    }
  }

  // First k blank roles and then one role, over and over.
  ghost predicate BlanksThen(roles: seq<string>, k: nat, role: string) {
    k <= |roles| && forall i :: 0 <= i < |roles| ==> roles[i] == if i < k then EMPTY else role
  }

  ghost predicate AllBlank(roles: seq<string>) {
    forall i :: 0 <= i < |roles| ==> roles[i] == EMPTY
  }

  // A state that is one role: blanks, and then that role only.
  ghost predicate OnlyAfterBlanks(roles: seq<string>, role: string) {
    exists k: nat :: k < |roles| && BlanksThen(roles, k, role)
  }

  lemma OneMoreRole(before: seq<string>, x: string, role: string)
    requires role != EMPTY
    ensures OnlyAfterBlanks(before + [x], role) <==> x == role && (AllBlank(before) || OnlyAfterBlanks(before, role))
  {
    var roles := before + [x];
    if k: nat :| k < |roles| && BlanksThen(roles, k, role) {
      assert roles[|before|] == role;
      if k < |before| {
        assert forall i :: 0 <= i < |before| ==> roles[i] == before[i];
        assert BlanksThen(before, k, role);
      } else {
        forall i | 0 <= i < |before| ensures before[i] == EMPTY { assert roles[i] == before[i]; }
      }
    }
    if x == role {
      if AllBlank(before) {
        assert BlanksThen(roles, |before|, role);
      } else if k: nat :| k < |before| && BlanksThen(before, k, role) {
        assert BlanksThen(roles, k, role);
      }
    }
  }

  lemma {:induction false} StateOfMeans(roles: seq<string>, role: string)
    requires role != EMPTY && role != BOTH
    ensures StateOf(roles) == EMPTY <==> AllBlank(roles)
    ensures StateOf(roles) == role <==> OnlyAfterBlanks(roles, role)
    decreases |roles|
  {
    if roles != [] {
      var before, x := roles[..|roles| - 1], roles[|roles| - 1];
      assert roles == before + [x];
      StateOfMeans(before, role);
      OneMoreRole(before, x, role);
      assert AllBlank(roles) ==> AllBlank(before) by {
        assert forall i :: 0 <= i < |before| ==> before[i] == roles[i];
      }
      if OnlyAfterBlanks(before, role) { BlanksAreNotRoles(before, role); }
    }
  }

  lemma BlanksAreNotRoles(roles: seq<string>, role: string)
    requires role != EMPTY && OnlyAfterBlanks(roles, role)
    ensures !AllBlank(roles)
  {
    var k: nat :| k < |roles| && BlanksThen(roles, k, role);
    assert roles[k] == role;
  }

  // A blank role that leaves no trace: only one role, or none, comes after it
  // and nothing else does.
  ghost predicate HiddenBlank(roles: seq<string>) {
    exists k: nat, role :: k > 0 && role != EMPTY && role != BOTH && BlanksThen(roles, k, role)
  }

  lemma HiddenDoesNotShow(roles: seq<string>, on: set<string>)
    requires forall r :: r in on <==> r in roles
    requires HiddenBlank(roles)
    ensures !Shows(StateOf(roles), on)
  {
    var k: nat, role :| k > 0 && role != EMPTY && role != BOTH && BlanksThen(roles, k, role);
    assert roles[0] == EMPTY && EMPTY in on;
    StateOfMeans(roles, role);
    if k < |roles| {
      assert roles[k] == role && role in on;
      assert StateOf(roles) == role;
    } else {
      assert AllBlank(roles);
    }
  }

  lemma OpenShows(roles: seq<string>, on: set<string>)
    requires forall r :: r in on <==> r in roles
    requires !HiddenBlank(roles)
    ensures Shows(StateOf(roles), on)
  {
    StateOfMeans(roles, PRODUCES);
    if AllBlank(roles) {
      if roles != [] { assert BlanksThen(roles, |roles|, PRODUCES); }
      assert on == {};
    } else {
      var i :| 0 <= i < |roles| && roles[i] != EMPTY;
      assert roles[i] in on;
      OneRoleShows(roles, on);
      ManyRolesShow(roles, on);
    }
  }

  lemma OneRoleShows(roles: seq<string>, on: set<string>)
    requires (forall r :: r in on <==> r in roles) && !AllBlank(roles)
    ensures forall r :: on == {r} ==> StateOf(roles) == r
  {
    forall r | on == {r} ensures StateOf(roles) == r {
      assert forall i :: 0 <= i < |roles| ==> roles[i] in on;
      assert roles != [] && roles[0] == r && BlanksThen(roles, 0, r);
      if r == BOTH {
        AllBoth(roles);
      } else {
        StateOfMeans(roles, r);
      }
    }
  }

  lemma {:induction false} AllBoth(roles: seq<string>)
    requires BlanksThen(roles, 0, BOTH) && roles != []
    ensures StateOf(roles) == BOTH
    decreases |roles|
  {
    var before := roles[..|roles| - 1];
    if before != [] {
      assert forall i :: 0 <= i < |before| ==> before[i] == roles[i];
      AllBoth(before);
    }
  }

  lemma ManyRolesShow(roles: seq<string>, on: set<string>)
    requires (forall r :: r in on <==> r in roles) && !AllBlank(roles) && !HiddenBlank(roles)
    ensures forall r, q :: r in on && q in on && r != q ==> StateOf(roles) == BOTH
  {
    var s := StateOf(roles);
    StateOfMeans(roles, PRODUCES);
    if s != BOTH {
      StateOfMeans(roles, s);
      var k: nat :| k < |roles| && BlanksThen(roles, k, s);
      assert k == 0;
      assert forall r :: r in on ==> r == s;
    }
  }

  // A cell shows exactly the sides its session actively asserts, in whatever
  // order they were published, unless a blank role comes before a single side.
  lemma CellShowsRoles(xs: seq<Assertion>, session: string)
    ensures Shows(Filled(xs, session).state, Roles(xs, session)) <==> !HiddenBlank(RolesInOrder(xs, session))
  {
    var roles, on := RolesInOrder(xs, session), Roles(xs, session);
    FilledState(xs, session);
    RolesAre(xs, session);
    if HiddenBlank(roles) {
      HiddenDoesNotShow(roles, on);
    } else {
      OpenShows(roles, on);
    }
  }

  // A blank role and then "produces" is shown as "produces"; the other way
  // round it is shown as both.
  lemma BlankRoleByOrder(blank: Assertion, a: Assertion)
    requires Asserts(blank, a.sessionKey) && Asserts(a, a.sessionKey) && blank.role == EMPTY && a.role == PRODUCES
    ensures Filled([blank, a], a.sessionKey).state == PRODUCES && HiddenBlank(RolesInOrder([blank, a], a.sessionKey))
    ensures Filled([a, blank], a.sessionKey).state == BOTH && !HiddenBlank(RolesInOrder([a, blank], a.sessionKey))
  {
    RolesOfTwo(blank, a, a.sessionKey);
    RolesOfTwo(a, blank, a.sessionKey);
    assert BlanksThen([EMPTY, PRODUCES], 1, PRODUCES);
    FilledState([blank, a], a.sessionKey);
    FilledState([a, blank], a.sessionKey);
    assert [PRODUCES, EMPTY][..1] == [PRODUCES] && [EMPTY, PRODUCES][..1] == [EMPTY];
    assert StateOf([PRODUCES]) == PRODUCES && StateOf([EMPTY]) == EMPTY;
  }

  lemma RolesOfTwo(a: Assertion, b: Assertion, session: string)
    requires Asserts(a, session) && Asserts(b, session)
    ensures RolesInOrder([a, b], session) == [a.role, b.role]
  {
    assert [a, b][..1] == [a] && [a][..0] == [];
    assert RolesInOrder([a], session) == [] + [a.role];
  }

  // The comparison leaves the state alone.
  lemma {:induction false} ComparedState(cell: Cell, session: string, producers: seq<Assertion>, consumers: seq<Assertion>)
    ensures Compared(cell, session, producers, consumers).state == cell.state
  {
    if consumers != [] { ComparedState(cell, session, producers, consumers[..|consumers| - 1]); }
  }

  lemma {:induction false} ComparedMark(cell: Cell, session: string, producers: seq<Assertion>, consumers: seq<Assertion>)
    requires !cell.mismatched
    ensures Compared(cell, session, producers, consumers).mismatched
      <==> exists c :: c in consumers && c.sessionKey == session && Against(producers, c) != []
  {
    if consumers != [] {
      var n := |consumers| - 1;
      assert consumers == consumers[..n] + [consumers[n]];
      ComparedMark(cell, session, producers, consumers[..n]);
    }
  }

  lemma {:induction false} FilledUnmarked(xs: seq<Assertion>, session: string)
    ensures !Filled(xs, session).mismatched
  {
    if xs != [] { FilledUnmarked(xs[..|xs| - 1], session); }
  }

  // An active producer and an active consumer of a contract.
  ghost predicate Between(c: Contract, producer: Assertion, consumer: Assertion) {
    && producer in c.assertions && producer.role == PRODUCES && producer.status == ACTIVE
    && consumer in c.assertions && consumer.role == CONSUMES && consumer.status == ACTIVE
  }

  // Two such whose shapes disagree.
  ghost predicate Disagree(c: Contract, producer: Assertion, consumer: Assertion) {
    Between(c, producer, consumer) && Diffs(producer.fields, consumer.fields) != []
  }

  lemma AgainstNothing(producers: seq<Assertion>, consumer: Assertion)
    ensures Against(producers, consumer) == [] <==> forall p :: p in producers ==> Diffs(p.fields, consumer.fields) == []
  {
    GatheredNothing(producers, (p: Assertion) => Diffs(p.fields, consumer.fields));
  }

  lemma NoDiffs(producers: seq<Assertion>, consumers: seq<Assertion>)
    ensures AllDiffs(producers, consumers) == [] <==> forall c :: c in consumers ==> Against(producers, c) == []
  {
    GatheredNothing(consumers, (c: Assertion) => Against(producers, c));
  }

  // A cell is marked for a disagreement of its session's own, or because the
  // session is one of several producers.
  lemma CellMarked(c: Contract, session: string)
    ensures CellAt(c, session).state == Filled(c.assertions, session).state
    ensures CellAt(c, session).mismatched <==>
      (exists p, q :: Disagree(c, p, q) && q.sessionKey == session) || Contests(Side(c, PRODUCES), session)
  {
    var producers, consumers := Side(c, PRODUCES), Side(c, CONSUMES);
    var cell := Filled(c.assertions, session);
    FilledUnmarked(c.assertions, session);
    ComparedState(cell, session, producers, consumers);
    ComparedMark(cell, session, producers, consumers);
    SideMembers(c, PRODUCES);
    SideMembers(c, CONSUMES);
    if q :| q in consumers && q.sessionKey == session && Against(producers, q) != [] {
      AgainstNothing(producers, q);
      var p :| p in producers && Diffs(p.fields, q.fields) != [];
      assert Disagree(c, p, q);
    }
    if p, q :| Disagree(c, p, q) && q.sessionKey == session {
      AgainstNothing(producers, q);
      assert p in producers && q in consumers;
    }
  }

  // ---------------------------------------------------------------- what a row means

  lemma DiffsMeanDisagreement(c: Contract)
    ensures AllDiffs(Side(c, PRODUCES), Side(c, CONSUMES)) != [] <==> exists p, q :: Disagree(c, p, q)
  {
    var producers, consumers := Side(c, PRODUCES), Side(c, CONSUMES);
    SideMembers(c, PRODUCES);
    SideMembers(c, CONSUMES);
    NoDiffs(producers, consumers);
    if q :| q in consumers && Against(producers, q) != [] {
      AgainstNothing(producers, q);
      var p :| p in producers && Diffs(p.fields, q.fields) != [];
      assert Disagree(c, p, q);
    }
    if p, q :| Disagree(c, p, q) {
      AgainstNothing(producers, q);
      assert p in producers && q in consumers;
    }
  }

  // The verdict in terms of who asserts what and whether any two disagree.
  lemma StatusMeans(c: Contract, cols: seq<Column>)
    ensures var row := RowOf(c, cols); var disagree := exists p, q :: Disagree(c, p, q);
      && (row.status == UNCLAIMED <==> row.consumers != [] && row.producers == [])
      && (row.status == MISMATCH <==> disagree)
      && (row.status == CONTESTED <==> |row.producers| > 1 && !disagree)
      && (row.status == UNCONSUMED <==> |row.producers| == 1 && row.consumers == [])
      && (row.status == CONVERGED <==> |row.producers| <= 1 && (row.producers == [] <==> row.consumers == []) && !disagree)
  {
    DiffsMeanDisagreement(c);
    SideMembers(c, PRODUCES);
    SideMembers(c, CONSUMES);
  }

  lemma {:induction false} WorstIsHighest(ds: seq<FieldDiff>)
    ensures forall d :: d in ds ==> SeverityRank(d.severity) <= SeverityRank(WorstOf(ds))
    ensures WorstOf(ds) == LOW || exists d :: d in ds && d.severity == WorstOf(ds)
    decreases |ds|
  {
    if ds != [] {
      var n := |ds| - 1;
      assert ds == ds[..n] + [ds[n]];
      WorstIsHighest(ds[..n]);
    }
  }

  // A row is critical when nobody produces what somebody consumes, high when a
  // difference found breaks a side or several produce it, low when it differs in
  // spelling only, and else of no severity.
  lemma SeverityMeans(c: Contract, cols: seq<Column>)
    ensures var row := RowOf(c, cols); Graves(row.severity, row.producers, row.consumers, row.diffs)
  {
    var producers, consumers := Side(c, PRODUCES), Side(c, CONSUMES);
    var diffs := AllDiffs(producers, consumers);
    forall d | d in diffs ensures Graded(d) {
      DiffIsGraded(producers, consumers, d);
    }
    if producers == [] { NothingAgainstNobody(consumers); }
    VerdictIsGrave(producers, consumers, diffs);
  }

  ghost predicate Graves(severity: string, producers: seq<Assertion>, consumers: seq<Assertion>, diffs: seq<FieldDiff>) {
    var breaks := exists d :: d in diffs && d.severity == "high";
    && (severity == "critical" <==> consumers != [] && producers == [])
    && (severity == "high" <==> breaks || (|producers| > 1 && diffs == []))
    && (severity == "low" <==> diffs != [] && !breaks)
    && (severity == "" <==> diffs == [] && |producers| <= 1 && (consumers != [] ==> producers != []))
  }

  lemma VerdictIsGrave(producers: seq<Assertion>, consumers: seq<Assertion>, diffs: seq<FieldDiff>)
    requires (forall d :: d in diffs ==> Graded(d)) && (producers == [] ==> diffs == [])
    ensures Graves(SeverityOf(StatusOf(|producers|, |consumers|, diffs), diffs), producers, consumers, diffs)
  {
    GradesApart();
    StatusesApart();
    WorstIsHighest(diffs);
    if diffs != [] { assert diffs[0] in diffs; }
  }

  lemma StatusesApart()
    ensures UNCLAIMED != MISMATCH && UNCLAIMED != CONTESTED && MISMATCH != CONTESTED
    ensures UNCONSUMED != UNCLAIMED && UNCONSUMED != MISMATCH && UNCONSUMED != CONTESTED
    ensures CONVERGED != UNCLAIMED && CONVERGED != MISMATCH && CONVERGED != CONTESTED
  {
    assert |UNCLAIMED| == 9 && |CONTESTED| == 9 && |CONVERGED| == 9 && |UNCONSUMED| == 10 && |MISMATCH| == 8;
    assert UNCLAIMED[0] != CONTESTED[0] && CONTESTED[3] != CONVERGED[3];
  }

  lemma GradesApart()
    ensures SeverityRank(LOW) == 1 && SeverityRank(HIGH) == 3
    ensures LOW != HIGH && LOW != "critical" && HIGH != "critical" && LOW != "" && HIGH != ""
  {
    assert LOW[0] != HIGH[0] && LOW[0] != "critical"[0] && HIGH[0] != "critical"[0];
  }

  lemma NothingAgainstNobody(consumers: seq<Assertion>)
    ensures AllDiffs([], consumers) == []
  {
    NoDiffs([], consumers);
    forall q ensures Against([], q) == [] { }
  }

  lemma DiffIn(producers: seq<Assertion>, consumers: seq<Assertion>, d: FieldDiff)
    ensures d in AllDiffs(producers, consumers)
      <==> exists p, q :: p in producers && q in consumers && d in Diffs(p.fields, q.fields)
  {
    GatheredMembers(consumers, (q: Assertion) => Against(producers, q));
    forall q ensures d in Against(producers, q) <==> exists p :: p in producers && d in Diffs(p.fields, q.fields) {
      GatheredMembers(producers, (p: Assertion) => Diffs(p.fields, q.fields));
    }
  }

  lemma DiffIsGraded(producers: seq<Assertion>, consumers: seq<Assertion>, d: FieldDiff)
    requires d in AllDiffs(producers, consumers)
    ensures Graded(d)
  {
    DiffIn(producers, consumers, d);
    var p, q :| p in producers && q in consumers && d in Diffs(p.fields, q.fields);
    SortedMembers(Found(p.fields, q.fields), Worse);
    FoundGraded(p.fields, q.fields, d);
  }

  lemma BetweenDiffs(c: Contract, d: FieldDiff)
    ensures d in AllDiffs(Side(c, PRODUCES), Side(c, CONSUMES)) <==> exists p, q :: Between(c, p, q) && d in Diffs(p.fields, q.fields)
  {
    var producers, consumers := Side(c, PRODUCES), Side(c, CONSUMES);
    SideMembers(c, PRODUCES);
    SideMembers(c, CONSUMES);
    DiffIn(producers, consumers, d);
    if d in AllDiffs(producers, consumers) {
      var p, q :| p in producers && q in consumers && d in Diffs(p.fields, q.fields);
      assert Between(c, p, q);
    }
    if p, q :| Between(c, p, q) && d in Diffs(p.fields, q.fields) {
      assert p in producers && q in consumers;
    }
  }

  // A row lists every difference between an active producer and an active
  // consumer of its contract, and nothing else.
  lemma RowDiffers(c: Contract, cols: seq<Column>, d: FieldDiff)
    ensures d in RowOf(c, cols).diffs <==> exists p, q :: Between(c, p, q) && Reportable(d, p.fields, q.fields)
  {
    BetweenDiffs(c, d);
    if p, q :| Between(c, p, q) && d in Diffs(p.fields, q.fields) {
      ReportsExactly(p.fields, q.fields, d);
    }
    if p, q :| Between(c, p, q) && Reportable(d, p.fields, q.fields) {
      ReportsExactly(p.fields, q.fields, d);
    }
  }

  // A row names the active assertions of each side, by session, those of one
  // session in the order they were published.
  lemma RowSides(c: Contract, cols: seq<Column>, session: string)
    ensures SideIs(RowOf(c, cols).producers, c, PRODUCES, session)
    ensures SideIs(RowOf(c, cols).consumers, c, CONSUMES, session)
  {
    SideInOrder(c, PRODUCES, session);
    SideInOrder(c, CONSUMES, session);
  }

  ghost predicate SideIs(side: seq<Assertion>, c: Contract, role: string, session: string) {
    && (forall i, j :: 0 <= i < j < |side| ==> !LexLess(side[j].sessionKey, side[i].sessionKey))
    && Only(side, (a: Assertion) => a.sessionKey == session)
      == Only(c.assertions, (a: Assertion) => Asserts(a, session) && a.role == role)
  }

  lemma InRoleNext(t: seq<Assertion>, x: Assertion, role: string, session: string)
    requires Only(InRole(t, role), (a: Assertion) => a.sessionKey == session)
      == Only(t, (a: Assertion) => Asserts(a, session) && a.role == role)
    ensures Only(InRole(t + [x], role), (a: Assertion) => a.sessionKey == session)
      == Only(t + [x], (a: Assertion) => Asserts(a, session) && a.role == role)
  {
    var on := InRole(t, role);
    assert (t + [x])[..|t|] == t && on + [] == on;
    OnlyStep(on, x, (a: Assertion) => a.sessionKey == session);
    OnlyStep(t, x, (a: Assertion) => Asserts(a, session) && a.role == role);
    if x.role == role && x.status == ACTIVE {
      assert InRole(t + [x], role) == on + [x];
    } else {
      assert InRole(t + [x], role) == on;
    }
  }

  lemma {:induction false} InRoleOf(xs: seq<Assertion>, role: string, session: string)
    ensures Only(InRole(xs, role), (a: Assertion) => a.sessionKey == session)
      == Only(xs, (a: Assertion) => Asserts(a, session) && a.role == role)
  {
    if xs != [] {
      InRoleOf(xs[..|xs| - 1], role, session);
      InRoleNext(xs[..|xs| - 1], xs[|xs| - 1], role, session);
      assert xs == xs[..|xs| - 1] + [xs[|xs| - 1]];
    }
  }

  lemma SideInOrder(c: Contract, role: string, session: string)
    ensures SideIs(Side(c, role), c, role, session)
  {
    var xs := InRole(c.assertions, role);
    LexLaws();
    LexWeak();
    var on := set a | a in xs;
    SortedAscends(xs, BySession, on);
    SortedStable(xs, BySession, (a: Assertion) => a.sessionKey == session);
    InRoleOf(c.assertions, role, session);
  }

  lemma LexWeak()
    ensures forall a, b, c :: !LexLess(a, b) && !LexLess(b, c) ==> !LexLess(a, c)
  {
    LexLaws();
    forall a: string, b: string, c: string | !LexLess(a, b) && !LexLess(b, c) ensures !LexLess(a, c) {
      assert a == b || LexLess(b, a);
      assert b == c || LexLess(c, b);
    }
  }

  // ---------------------------------------------------------------- the order of the rows

  // What is read first: what nobody builds, then what disagrees, then what
  // several build, then what nobody uses; by key among equals.
  ghost predicate ReadsFirst(a: Row, b: Row) {
    if a.status == b.status then !LexLess(b.contract.key, a.contract.key)
    else if a.status == UNCLAIMED || b.status == UNCLAIMED then a.status == UNCLAIMED
    else if a.status == MISMATCH || b.status == MISMATCH then a.status == MISMATCH
    else if a.status == CONTESTED || b.status == CONTESTED then a.status == CONTESTED
    else a.status == UNCONSUMED
  }

  predicate KnownStatus(status: string) {
    status == UNCLAIMED || status == MISMATCH || status == CONTESTED || status == UNCONSUMED || status == CONVERGED
  }

  lemma {:induction false} RowsKnown(cs: seq<Contract>, cols: seq<Column>)
    ensures |RowsOf(cs, cols)| == |cs| && forall r :: r in RowsOf(cs, cols) ==> KnownStatus(r.status)
    decreases |cs|
  {
    if cs != [] {
      RowsKnown(cs[..|cs| - 1], cols);
      RowKnown(cs[|cs| - 1], cols);
    }
  }

  lemma {:induction false} RowsFront(cs: seq<Contract>, cols: seq<Column>, k: nat)
    requires k <= |cs|
    ensures k <= |RowsOf(cs, cols)| && RowsOf(cs, cols)[..k] == RowsOf(cs[..k], cols)
    decreases |cs| - k
  {
    if k == |cs| {
      RowsKnown(cs, cols);
      assert cs[..k] == cs && RowsOf(cs, cols)[..k] == RowsOf(cs, cols);
    } else {
      RowsFront(cs, cols, k + 1);
      RowsStep(cs, k, cols);
      RowsKnown(cs[..k], cols);
      FrontOf(RowsOf(cs, cols), k, RowsOf(cs[..k], cols), RowOf(cs[k], cols));
    }
  }

  lemma FrontOf(all: seq<Row>, k: nat, front: seq<Row>, row: Row)
    requires k < |all| && |front| == k && all[..k + 1] == front + [row]
    ensures all[..k] == front && all[k] == row
  {
    assert all[..k] == all[..k + 1][..k] && all[k] == all[..k + 1][k];
  }

  // There is a row for each contract, in its place before the sorting.
  lemma RowEach(cs: seq<Contract>, cols: seq<Column>, i: nat)
    requires i < |cs|
    ensures |RowsOf(cs, cols)| == |cs| && RowsOf(cs, cols)[i] == RowOf(cs[i], cols)
  {
    RowsKnown(cs, cols);
    RowsKnown(cs[..i], cols);
    RowsFront(cs, cols, i + 1);
    RowsStep(cs, i, cols);
    FrontOf(RowsOf(cs, cols), i, RowsOf(cs[..i], cols), RowOf(cs[i], cols));
  }

  lemma RowKnown(c: Contract, cols: seq<Column>)
    ensures KnownStatus(RowOf(c, cols).status)
  {
  }

  // The rows stand in reading order.
  lemma RowsInOrder(from: seq<Row>, rows: seq<Row>)
    requires rows == Sorted(from, MoreUrgent) && forall r :: r in from ==> KnownStatus(r.status)
    ensures multiset(rows) == multiset(from)
    ensures forall i, j :: 0 <= i < j < |rows| ==> ReadsFirst(rows[i], rows[j])
  {
    var on := set r | r in from;
    UrgencyWeak(on);
    SortedKeeps(from, MoreUrgent);
    SortedAscends(from, MoreUrgent, on);
    SortedMembers(from, MoreUrgent);
    forall i, j | 0 <= i < j < |rows| ensures ReadsFirst(rows[i], rows[j]) {
      assert rows[i] in from && rows[j] in from;
      NotLater(rows[i], rows[j]);
    }
  }

  // Such are the rows of a matrix.
  lemma MatrixInOrder(cs: seq<Contract>, cols: seq<Column>, rows: seq<Row>)
    requires rows == Sorted(RowsOf(cs, cols), MoreUrgent)
    ensures multiset(rows) == multiset(RowsOf(cs, cols))
    ensures forall i, j :: 0 <= i < j < |rows| ==> ReadsFirst(rows[i], rows[j])
  {
    RowsKnown(cs, cols);
    RowsInOrder(RowsOf(cs, cols), rows);
  }

  lemma UrgencyWeak(on: set<Row>)
    ensures WeakOn(MoreUrgent, on)
  {
    LexLaws();
    LexWeak();
  }

  lemma NotLater(a: Row, b: Row)
    requires KnownStatus(a.status) && KnownStatus(b.status) && !MoreUrgent(b, a)
    ensures ReadsFirst(a, b)
  {
  }

  // ---------------------------------------------------------------- what a cell tells

  function OwnFields(a: Assertion): seq<Field> { a.fields }

  function OwnIn(xs: seq<Assertion>, session: string): seq<Assertion> {
    Only(xs, (a: Assertion) => Asserts(a, session))
  }

  ghost predicate Counted(cell: Cell, own: seq<Assertion>) {
    && cell.fieldCount == |Gathered(own, OwnFields)|
    && cell.shapeHash == if own == [] then "" else own[|own| - 1].shapeHash
  }

  lemma CountedNext(before: Cell, after: Cell, own: seq<Assertion>, x: Assertion)
    requires Counted(before, own)
    requires after.shapeHash == x.shapeHash && after.fieldCount == before.fieldCount + |x.fields|
    ensures Counted(after, own + [x])
  {
    GatheredAppend(own, x, OwnFields);
  }

  lemma {:induction false} FilledTells(xs: seq<Assertion>, session: string)
    ensures Counted(Filled(xs, session), OwnIn(xs, session))
    decreases |xs|
  {
    if xs != [] {
      var t, x := xs[..|xs| - 1], xs[|xs| - 1];
      var own := OwnIn(t, session);
      assert xs == t + [x] && own + [] == own;
      FilledTells(t, session);
      OnlyStep(t, x, (a: Assertion) => Asserts(a, session));
      if Asserts(x, session) { CountedNext(Filled(t, session), Filled(xs, session), own, x); }
    }
  }

  // The consumers of a session that some producer disagrees with.
  function Troubled(producers: seq<Assertion>, consumers: seq<Assertion>, session: string): seq<Assertion> {
    Only(consumers, (q: Assertion) => q.sessionKey == session && Against(producers, q) != [])
  }

  ghost predicate Tells(after: Cell, cell: Cell, producers: seq<Assertion>, own: seq<Assertion>) {
    && after.diffs == (if own == [] then cell.diffs else Against(producers, own[|own| - 1]))
    && after.shapeHash == cell.shapeHash && after.fieldCount == cell.fieldCount
  }

  lemma TellsNext(before: Cell, after: Cell, cell: Cell, producers: seq<Assertion>, own: seq<Assertion>, x: Assertion, troubled: bool)
    requires Tells(before, cell, producers, own)
    requires after == if troubled then before.(mismatched := true, diffs := Against(producers, x)) else before
    ensures Tells(after, cell, producers, own + When(troubled, x))
  {
    assert (own + [x])[|own|] == x && own + [] == own;
  }

  lemma ComparedStep(cell: Cell, session: string, producers: seq<Assertion>, t: seq<Assertion>, x: Assertion, troubled: bool)
    requires troubled <==> x.sessionKey == session && Against(producers, x) != []
    ensures var before := Compared(cell, session, producers, t);
      Compared(cell, session, producers, t + [x])
      == if troubled then before.(mismatched := true, diffs := Against(producers, x)) else before
  {
    assert (t + [x])[..|t|] == t;
  }

  lemma {:induction false} ComparedTells(cell: Cell, session: string, producers: seq<Assertion>, consumers: seq<Assertion>)
    ensures Tells(Compared(cell, session, producers, consumers), cell, producers, Troubled(producers, consumers, session))
    decreases |consumers|
  {
    if consumers != [] {
      var t, x := consumers[..|consumers| - 1], consumers[|consumers| - 1];
      var troubled := x.sessionKey == session && Against(producers, x) != [];
      assert consumers == t + [x];
      ComparedTells(cell, session, producers, t);
      ComparedStep(cell, session, producers, t, x, troubled);
      OnlyStep(t, x, (q: Assertion) => q.sessionKey == session && Against(producers, q) != []);
      TellsNext(Compared(cell, session, producers, t), Compared(cell, session, producers, consumers), cell, producers,
                Troubled(producers, t, session), x, troubled);
    }
  }

  lemma {:induction false} FilledPlain(xs: seq<Assertion>, session: string)
    ensures Filled(xs, session).diffs == []
  {
    if xs != [] { FilledPlain(xs[..|xs| - 1], session); }
  }

  // A cell tells the shape its session published last, counts the fields of all
  // it actively asserts, and shows the differences of its last consuming
  // assertion that a producer disagrees with.
  lemma CellTells(c: Contract, session: string)
    ensures Counted(CellAt(c, session), OwnIn(c.assertions, session))
    ensures var own := Troubled(Side(c, PRODUCES), Side(c, CONSUMES), session);
      CellAt(c, session).diffs == if own == [] then [] else Against(Side(c, PRODUCES), own[|own| - 1])
  {
    FilledTells(c.assertions, session);
    FilledPlain(c.assertions, session);
    ComparedTells(Filled(c.assertions, session), session, Side(c, PRODUCES), Side(c, CONSUMES));
  }

  // ---------------------------------------------------------------- convergence

  lemma {:induction false} OtherSideKept(xs: seq<Assertion>, session: string, role: string, other: string)
    requires role != other
    ensures InRole(Fold.SupersededAll(xs, session, role), other) == InRole(xs, other)
  {
    if xs != [] {
      var n := |xs| - 1;
      OtherSideKept(xs[..n], session, role, other);
      assert Fold.SupersededAll(xs, session, role)[..n] == Fold.SupersededAll(xs[..n], session, role);
    }
  }

  lemma {:induction false} OwnSideCleared(xs: seq<Assertion>, session: string, role: string)
    requires forall x :: x in xs && x.role == role && x.status == ACTIVE ==> x.sessionKey == session
    ensures InRole(Fold.SupersededAll(xs, session, role), role) == []
  {
    if xs != [] {
      var n := |xs| - 1;
      assert xs[n] in xs;
      OwnSideCleared(xs[..n], session, role);
      assert Fold.SupersededAll(xs, session, role)[..n] == Fold.SupersededAll(xs[..n], session, role);
    }
  }

  lemma InRoleAppend(xs: seq<Assertion>, a: Assertion, role: string)
    ensures InRole(xs + [a], role) == InRole(xs, role) + if a.role == role && a.status == ACTIVE then [a] else []
  {
    assert (xs + [a])[..|xs|] == xs;
  }

  // Nobody else actively consumes the contract.
  ghost predicate OnlyConsumer(c: Contract, session: string) {
    forall x :: x in c.assertions && x.role == CONSUMES && x.status == ACTIVE ==> x.sessionKey == session
  }

  // When a contract's only consumer publishes the field list of its only
  // producer, the row converges, unless that list gives a field two types.
  lemma Converges(w: Fold.World, ev: Event, p: Assertion, cols: seq<Column>)
    requires ev.change.ContractPublished? && ev.change.contractKey in w.contracts && ev.change.assertion.Some?
    requires Side(w.contracts[ev.change.contractKey], PRODUCES) == [p]
    requires ev.change.assertion.value.role == CONSUMES && ev.change.assertion.value.fields == p.fields
    requires OnlyConsumer(w.contracts[ev.change.contractKey], ev.change.assertion.value.sessionKey)
    ensures RowOf(Fold.Folded(w, ev).contracts[ev.change.contractKey], cols).status
      == if Consistent(p.fields) then CONVERGED else MISMATCH
  {
    var before, a := w.contracts[ev.change.contractKey], ev.change.assertion.value;
    var after := Fold.Folded(w, ev).contracts[ev.change.contractKey];
    var a' := a.(status := ACTIVE, updatedAt := ev.occurredAt);
    assert after.assertions == Fold.Published(before.assertions, a, ev.occurredAt);
    SidesAfter(before, after, a, a');
    assert Side(after, PRODUCES) == [p] && Side(after, CONSUMES) == [a'];
    SelfAgreement(p.fields);
    OnePair(p, a');
  }

  lemma SidesAfter(before: Contract, after: Contract, a: Assertion, a': Assertion)
    requires a.role == CONSUMES && a' == a.(status := ACTIVE, updatedAt := a'.updatedAt)
    requires after.assertions == Fold.SupersededAll(before.assertions, a.sessionKey, CONSUMES) + [a']
    requires OnlyConsumer(before, a.sessionKey)
    ensures Side(after, PRODUCES) == Side(before, PRODUCES) && Side(after, CONSUMES) == [a']
  {
    var kept := Fold.SupersededAll(before.assertions, a.sessionKey, CONSUMES);
    OtherSideKept(before.assertions, a.sessionKey, CONSUMES, PRODUCES);
    OwnSideCleared(before.assertions, a.sessionKey, CONSUMES);
    InRoleAppend(kept, a', PRODUCES);
    InRoleAppend(kept, a', CONSUMES);
    assert PRODUCES[0] != CONSUMES[0];
    assert InRole(after.assertions, PRODUCES) == InRole(before.assertions, PRODUCES);
    assert InRole(after.assertions, CONSUMES) == [a'];
    assert Sorted([a'], BySession) == [a'];
  }

  lemma OnePair(p: Assertion, q: Assertion)
    ensures AllDiffs([p], [q]) == [] <==> Diffs(p.fields, q.fields) == []
  {
    NoDiffs([p], [q]);
    AgainstNothing([p], q);
    assert p in [p] && q in [q];
  }

  // On folded state a session has one cell per side: what it shows as fields
  // comes from at most one assertion each way.
  lemma FoldedSides(evs: seq<Event>, key: string, a: Assertion, b: Assertion)
    requires key in FoldAll(Fold.EMPTY_WORLD, evs).contracts
    requires a in FoldAll(Fold.EMPTY_WORLD, evs).contracts[key].assertions
    requires b in FoldAll(Fold.EMPTY_WORLD, evs).contracts[key].assertions
    requires Asserts(a, b.sessionKey) && Asserts(b, b.sessionKey) && a.role == b.role
    ensures a == b
  {
    RunsKeepWorldOk(evs);
    var xs := FoldAll(Fold.EMPTY_WORLD, evs).contracts[key].assertions;
    assert OneActive(xs);
    var i :| 0 <= i < |xs| && xs[i] == a;
    var j :| 0 <= j < |xs| && xs[j] == b;
  }
}
