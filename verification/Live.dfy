// The live feed (frontend/internal/feed/live.go): one SSE connection read line
// by line with a cursor, and the reconnect loop around it.
module Live {
  import opened Model
  import opened Logs
  import opened Text

  // What the JSON body of a frame decodes to; its sequence may be absent (0).
  type Decoder = string -> Option<Event>

  // ---------------------------------------------------------------- numbers

  const MAX_INT64 := 0x7fff_ffff_ffff_ffff

  predicate IsDigit(c: char) { '0' <= c <= '9' }

  function DigitsValue(s: string): nat
    requires forall c :: c in s ==> IsDigit(c)
  {
    if s == [] then 0
    else
      assert IsDigit(s[|s| - 1]);
      DigitsValue(s[..|s| - 1]) * 10 + (s[|s| - 1] as int - '0' as int)
  }

  // strconv.ParseInt(s, 10, 64): an optional sign, at least one digit, in range.
  function ParseInt64(s: string): Option<int> {
    var signed := s != [] && (s[0] == '-' || s[0] == '+');
    var digits := if signed then s[1..] else s;
    if digits == [] || !forall c :: c in digits ==> IsDigit(c) then None
    else
      var magnitude: int := DigitsValue(digits);
      var n := if signed && s[0] == '-' then -magnitude else magnitude;
      if -MAX_INT64 - 1 <= n <= MAX_INT64 then Some(n) else None
  }

  // fmt's %d for a number that is not negative.
  function Decimal(n: nat): (s: string)
    ensures s != [] && forall c :: c in s ==> IsDigit(c)
  {
    var d := [(n % 10 + '0' as int) as char];
    if n < 10 then d else Decimal(n / 10) + d
  }

  lemma {:induction false} DecimalValue(n: nat)
    ensures DigitsValue(Decimal(n)) == n
  {
    if n >= 10 {
      DecimalValue(n / 10);
      var s := Decimal(n);
      assert s[..|s| - 1] == Decimal(n / 10);
    }
  }

  // A number is read back with either sign or none, as far as 64 bits hold it.
  lemma SignsParse(n: int)
    requires n >= 0
    ensures ParseInt64(Decimal(n)) == (if n <= MAX_INT64 then Some(n) else None) == ParseInt64("+" + Decimal(n))
    ensures ParseInt64("-" + Decimal(n)) == if n <= MAX_INT64 + 1 then Some(-n) else None
  {
    DecimalValue(n);
    var d := Decimal(n);
    assert IsDigit(d[0]);
    assert ("+" + d)[1..] == d && ("-" + d)[1..] == d;
  }

  // Nothing is read but digits after a sign, if any.
  lemma OnlyDigitsParse(s: string)
    requires ParseInt64(s).Some?
    ensures s != "" && forall i :: 0 <= i < |s| ==> IsDigit(s[i]) || (i == 0 && |s| > 1 && (s[0] == '-' || s[0] == '+'))
  {
    forall i | 0 < i < |s| ensures IsDigit(s[i]) {
      assert s[i] == s[1..][i - 1];
    }
  }

  // ---------------------------------------------------------------- the parser

  // One SSE message under construction: its data lines joined, and its id.
  datatype Message = Message(data: string, id: int, haveId: bool)

  const EMPTY := Message("", 0, false)

  // The locals of pump: the message being read, the cursor, what was sent on.
  datatype Parser = Parser(message: Message, cursor: int, out: seq<Event>)

  function Joined(data: string, value: string): string {
    (if data != "" then data + "\n" else data) + value
  }

  // A line that is not blank adds to the message or is ignored.
  function Accumulate(m: Message, line: string): Message {
    if HasPrefix(line, ":") then m
    else if HasPrefix(line, "data:") then
      var rest := line[5..];
      var value := if HasPrefix(rest, " ") then rest[1..] else rest;
      m.(data := Joined(m.data, value))
    else if HasPrefix(line, "id:") then
      match ParseInt64(TrimSpace(line[3..]))
      case Some(n) => m.(id := n, haveId := true)
      case None => m
    else m
  }

  // The event a message carries: the body's, numbered by the id when the body
  // has no sequence of its own.
  function Carried(m: Message, decode: Decoder): Option<Event> {
    match decode(m.data)
    case None => None
    case Some(e) => Some(if e.sequence == 0 && m.haveId then e.(sequence := m.id) else e)
  }

  // Ending a message: send its event on if it is new, or skip past a body that
  // will not parse.
  function Deliver(p: Parser, m: Message, decode: Decoder): (q: Parser)
    ensures q.message == p.message
  {
    match Carried(m, decode)
    case None => if m.haveId && m.id > p.cursor then p.(cursor := m.id) else p
    case Some(e) => if e.sequence <= p.cursor then p else p.(cursor := e.sequence, out := p.out + [e])
  }

  function Flush(p: Parser, decode: Decoder): Parser {
    (if p.message.data == "" then p else Deliver(p, p.message, decode)).(message := EMPTY)
  }

  function Feed(p: Parser, line: string, decode: Decoder): Parser {
    if line == "" then Flush(p, decode) else p.(message := Accumulate(p.message, line))
  }

  function FeedAll(p: Parser, lines: seq<string>, decode: Decoder): Parser
    decreases |lines|
  {
    if lines == [] then p
    else Feed(FeedAll(p, lines[..|lines| - 1], decode), lines[|lines| - 1], decode)
  }

  // How one connection attempt ends: refused, answered "no such team", or a
  // body of lines that ends cleanly or with a read error.
  datatype Connection = Refused | Gone | Body(lines: seq<string>, clean: bool)

  // A whole body read from a cursor. A clean end flushes what is pending; a
  // read error does not.
  function Read(after: int, c: Connection, decode: Decoder): Parser
    requires c.Body?
  {
    var p := FeedAll(Parser(EMPTY, after, []), c.lines, decode);
    if c.clean then Flush(p, decode) else p
  }

  // pump's closure variables as an object: every method step is the source's.
  class Pump {
    var cursor: int
    var data: string
    var eventID: int
    var haveID: bool
    var out: seq<Event>
    const decode: Decoder

    function State(): Parser
      reads this
    {
      Parser(Message(data, eventID, haveID), cursor, out)
    }

    constructor (after: int, decode: Decoder)
      ensures State() == Parser(EMPTY, after, []) && this.decode == decode
    {
      this.decode := decode;
      cursor, data, eventID, haveID, out := after, "", 0, false, [];
    }

    method FlushMessage()
      modifies this
      ensures State() == Flush(old(State()), decode)
    {
      if data != "" {
        match decode(data) {
          case None =>
            if haveID {
              cursor := if cursor > eventID then cursor else eventID;
            }
          case Some(f) =>
            var e := f;
            if e.sequence == 0 && haveID {
              e := e.(sequence := eventID);
            }
            if e.sequence > cursor {
              cursor := e.sequence;
              out := out + [e];
            }
        }
      }
      data, eventID, haveID := "", 0, false;
    }

    method AddData(value: string)
      modifies this`data
      ensures data == Joined(old(data), value)
    {
      if data != "" {
        data := data + "\n";
      }
      data := data + value;
    }

    method TakeLine(line: string)
      modifies this
      ensures State() == Feed(old(State()), line, decode)
    {
      if line == "" {
        FlushMessage();
      } else if HasPrefix(line, ":") {
      } else if HasPrefix(line, "data:") {
        var rest := line[5..];
        AddData(if HasPrefix(rest, " ") then rest[1..] else rest);
      } else if HasPrefix(line, "id:") {
        var n := ParseInt64(TrimSpace(line[3..]));
        if n.Some? {
          eventID, haveID := n.value, true;
        }
      }
    }

    method Scan(body: Connection)
      requires body.Body?
      requires State() == Parser(EMPTY, cursor, [])
      modifies this
      ensures State() == Read(old(cursor), body, decode)
    {
      ghost var start := State();
      var i := 0;
      while i < |body.lines|
        invariant 0 <= i <= |body.lines|
        invariant State() == FeedAll(start, body.lines[..i], decode)
      {
        TakeLine(body.lines[i]);
        i := i + 1;
        assert body.lines[..i][..i - 1] == body.lines[..i - 1];
      }
      assert body.lines[..i] == body.lines;
      if body.clean {
        FlushMessage();
      }
    }
  }

  // ---------------------------------------------------------------- the loop

  datatype Streamed = Streamed(cursor: int, out: seq<Event>)

  // One connection, opened with ?after=<cursor>.
  function Next(s: Streamed, c: Connection, decode: Decoder): Streamed
    requires !c.Gone?
  {
    if c.Refused? then s
    else
      var p := Read(s.cursor, c, decode);
      Streamed(if p.cursor > s.cursor then p.cursor else s.cursor, s.out + p.out)
  }

  // What the reconnect loop hands downstream over a run of connections.
  function StreamFrom(s: Streamed, conns: seq<Connection>, decode: Decoder): Streamed
    decreases |conns|
  {
    if conns == [] || conns[0].Gone? then s
    else StreamFrom(Next(s, conns[0], decode), conns[1..], decode)
  }

  method Stream(after: int, conns: seq<Connection>, decode: Decoder) returns (out: seq<Event>, cursor: int)
    ensures Streamed(cursor, out) == StreamFrom(Streamed(after, []), conns, decode)
  {
    cursor, out := after, [];
    var i := 0;
    while i < |conns|
      invariant 0 <= i <= |conns|
      invariant StreamFrom(Streamed(cursor, out), conns[i..], decode) == StreamFrom(Streamed(after, []), conns, decode)
    {
      var c := conns[i];
      match c {
        case Gone =>
          return;
        case Refused =>
        case Body(_, _) =>
          var pump := new Pump(cursor, decode);
          pump.Scan(c);
          cursor := if pump.cursor > cursor then pump.cursor else cursor;
          out := out + pump.out;
      }
      i := i + 1;
    }
  }

  // ---------------------------------------------------------------- any server

  lemma DeliverInOrder(p: Parser, m: Message, decode: Decoder, after: int)
    requires InOrder(p.out, after, p.cursor)
    ensures InOrder(Deliver(p, m, decode).out, after, Deliver(p, m, decode).cursor)
    ensures Deliver(p, m, decode).cursor >= p.cursor
  {
    var e := Carried(m, decode);
    if e.Some? && e.value.sequence > p.cursor {
      AppendInOrder(p.out, after, p.cursor, e.value);
    }
  }

  lemma {:induction false} FeedInOrder(p: Parser, lines: seq<string>, decode: Decoder, after: int)
    requires InOrder(p.out, after, p.cursor)
    ensures InOrder(FeedAll(p, lines, decode).out, after, FeedAll(p, lines, decode).cursor)
    decreases |lines|
  {
    if lines != [] {
      FeedInOrder(p, lines[..|lines| - 1], decode, after);
      var q := FeedAll(p, lines[..|lines| - 1], decode);
      DeliverInOrder(q, q.message, decode, after);
    }
  }

  lemma ReadInOrder(after: int, c: Connection, decode: Decoder)
    requires c.Body?
    ensures InOrder(Read(after, c, decode).out, after, Read(after, c, decode).cursor)
  {
    var p := Parser(EMPTY, after, []);
    FeedInOrder(p, c.lines, decode, after);
    var q := FeedAll(p, c.lines, decode);
    DeliverInOrder(q, q.message, decode, after);
  }

  // Whatever the server sends, and however often the connection drops, events
  // come out strictly increasing and above the cursor the stream was asked for.
  lemma {:induction false} AnyServerInOrder(after: int, s: Streamed, conns: seq<Connection>, decode: Decoder)
    requires InOrder(s.out, after, s.cursor)
    ensures InOrder(StreamFrom(s, conns, decode).out, after, StreamFrom(s, conns, decode).cursor)
    ensures StreamFrom(s, conns, decode).cursor >= s.cursor
    ensures s.out <= StreamFrom(s, conns, decode).out
    ensures AllAbove(StreamFrom(s, conns, decode).out[|s.out|..], s.cursor)
    decreases |conns|
  {
    if conns != [] && !conns[0].Gone? {
      var t := Next(s, conns[0], decode);
      NextInOrder(after, s, conns[0], decode);
      AnyServerInOrder(after, t, conns[1..], decode);
      var r := StreamFrom(t, conns[1..], decode);
      assert r.out[..|t.out|] == t.out;
      assert r.out[|s.out|..] == t.out[|s.out|..] + r.out[|t.out|..];
    }
  }

  lemma NextInOrder(after: int, s: Streamed, c: Connection, decode: Decoder)
    requires InOrder(s.out, after, s.cursor) && !c.Gone?
    ensures var t := Next(s, c, decode);
      && InOrder(t.out, after, t.cursor) && t.cursor >= s.cursor
      && s.out <= t.out && AllAbove(t.out[|s.out|..], s.cursor)
  {
    if c.Body? {
      ReadInOrder(s.cursor, c, decode);
      var p := Read(s.cursor, c, decode);
      IncreasingConcat(s.out, p.out, s.cursor);
      assert (s.out + p.out)[|s.out|..] == p.out;
    }
  }

  // ---------------------------------------------------------------- messages

  // Reading the lines without a cursor, as section 9.2.6 of the WHATWG HTML
  // standard does: the messages that a blank line ends, and the one pending.
  datatype Parsed = Parsed(ended: seq<Message>, pending: Message)

  function Messages(lines: seq<string>): Parsed
    decreases |lines|
  {
    if lines == [] then Parsed([], EMPTY)
    else
      var before := Messages(lines[..|lines| - 1]);
      var line := lines[|lines| - 1];
      if line != "" then Parsed(before.ended, Accumulate(before.pending, line))
      else Parsed(before.ended + (if before.pending.data == "" then [] else [before.pending]), EMPTY)
  }

  function DeliverAll(p: Parser, ms: seq<Message>, decode: Decoder): (q: Parser)
    ensures q.message == p.message
    decreases |ms|
  {
    if ms == [] then p else Deliver(DeliverAll(p, ms[..|ms| - 1], decode), ms[|ms| - 1], decode)
  }

  // One line more: it ends the pending message or adds to it.
  lemma LineDelivered(p: Parser, before: Parsed, line: string, decode: Decoder)
    ensures var all := if line != "" then Parsed(before.ended, Accumulate(before.pending, line))
                       else Parsed(before.ended + (if before.pending.data == "" then [] else [before.pending]), EMPTY);
      Feed(DeliverAll(p, before.ended, decode).(message := before.pending), line, decode)
        == DeliverAll(p, all.ended, decode).(message := all.pending)
  {
    if line == "" && before.pending.data != "" {
      var ended := before.ended + [before.pending];
      assert ended[..|ended| - 1] == before.ended;
    } else {
      assert before.ended + [] == before.ended;
    }
  }

  // The one-pass reader does what parsing first and delivering after would do.
  lemma {:induction false} FeedIsParseThenDeliver(after: int, lines: seq<string>, decode: Decoder)
    ensures FeedAll(Parser(EMPTY, after, []), lines, decode)
         == DeliverAll(Parser(EMPTY, after, []), Messages(lines).ended, decode).(message := Messages(lines).pending)
    decreases |lines|
  {
    if lines != [] {
      var first := lines[..|lines| - 1];
      FeedIsParseThenDeliver(after, first, decode);
      LineDelivered(Parser(EMPTY, after, []), Messages(first), lines[|lines| - 1], decode);
    }
  }

  // ---------------------------------------------------------------- what a message says

  predicate IsData(line: string) { HasPrefix(line, "data:") }

  // The text of a data line, less one space.
  function DataOf(line: string): string {
    if !IsData(line) then "" else if |line| > 5 && line[5] == ' ' then line[6..] else line[5..]
  }

  function IdOf(line: string): Option<int> {
    if HasPrefix(line, "id:") then ParseInt64(TrimSpace(line[3..])) else None
  }

  function DataIn(lines: seq<string>): seq<string>
    decreases |lines|
  {
    if lines == [] then []
    else DataIn(lines[..|lines| - 1]) + if IsData(lines[|lines| - 1]) then [DataOf(lines[|lines| - 1])] else []
  }

  function IdsIn(lines: seq<string>): seq<int>
    decreases |lines|
  {
    if lines == [] then []
    else
      var before := IdsIn(lines[..|lines| - 1]);
      match IdOf(lines[|lines| - 1])
      case Some(n) => before + [n]
      case None => before
  }

  // From the first text that is not blank on.
  function Started(texts: seq<string>): seq<string> {
    if texts != [] && texts[0] == "" then Started(texts[1..]) else texts
  }

  lemma {:induction false} StartedNext(texts: seq<string>, x: string)
    ensures Started(texts + [x]) == if Started(texts) == [] && x == "" then [] else Started(texts) + [x]
  {
    if texts == [] {
      assert [] + [x] == [x] && [x][1..] == [];
    } else if texts[0] == "" {
      assert (texts + [x])[1..] == texts[1..] + [x];
      StartedNext(texts[1..], x);
    }
  }

  lemma {:induction false} StartedFirst(texts: seq<string>)
    ensures Started(texts) != [] ==> Started(texts)[0] != ""
  {
    if texts != [] && texts[0] == "" { StartedFirst(texts[1..]); }
  }

  lemma {:induction false} JoinNext(texts: seq<string>, x: string)
    requires texts != []
    ensures Join(texts + [x], '\n') == Join(texts, '\n') + "\n" + x
  {
    assert (texts + [x])[1..] == texts[1..] + [x];
    if |texts| > 1 { JoinNext(texts[1..], x); }
  }

  lemma JoinedNext(texts: seq<string>, x: string)
    requires texts != [] ==> texts[0] != ""
    ensures Joined(Join(texts, '\n'), x) == if texts == [] && x == "" then "" else Join(texts + [x], '\n')
  {
    if texts == [] {
      assert [] + [x] == [x];
    } else {
      JoinNext(texts, x);
      assert Join(texts, '\n') != "";
    }
  }

  lemma Starts(line: string)
    ensures HasPrefix(line, ":") ==> line[0] == ':'
    ensures HasPrefix(line, "data:") ==> line[0] == 'd'
    ensures HasPrefix(line, "id:") ==> line[0] == 'i'
  {
    if HasPrefix(line, "data:") { assert line[..5][0] == 'd'; }
    if HasPrefix(line, "id:") { assert line[..3][0] == 'i'; }
    if HasPrefix(line, ":") { assert line[..1][0] == ':'; }
  }

  lemma DataAdds(m: Message, line: string)
    requires IsData(line)
    ensures Accumulate(m, line) == m.(data := Joined(m.data, DataOf(line))) && IdOf(line) == None
  {
    Starts(line);
    var rest := line[5..];
    if |line| > 5 && line[5] == ' ' {
      assert rest[..1] == " ";
    } else {
      assert !HasPrefix(rest, " ") by { if |rest| > 0 { assert rest[..1][0] == line[5]; } }
    }
  }

  lemma OtherAdds(m: Message, line: string)
    requires !IsData(line)
    ensures Accumulate(m, line) == match IdOf(line) case Some(n) => m.(id := n, haveId := true) case None => m
  {
    Starts(line);
  }

  // What a line adds to a message: a data line its text, an id line its number,
  // any other line nothing.
  lemma LineAdds(m: Message, line: string)
    ensures Accumulate(m, line).data == if IsData(line) then Joined(m.data, DataOf(line)) else m.data
    ensures Accumulate(m, line).id == if IdOf(line).Some? then IdOf(line).value else m.id
    ensures Accumulate(m, line).haveId == (m.haveId || IdOf(line).Some?)
  {
    if IsData(line) { DataAdds(m, line); } else { OtherAdds(m, line); }
  }

  ghost predicate SaysAll(m: Message, texts: seq<string>, ids: seq<int>) {
    m.data == Join(Started(texts), '\n') && SaysId(m, ids)
  }

  predicate SaysId(m: Message, ids: seq<int>) {
    (m.haveId <==> ids != []) && m.id == if ids == [] then 0 else ids[|ids| - 1]
  }

  lemma MoreData(texts: seq<string>, x: string)
    ensures Joined(Join(Started(texts), '\n'), x) == Join(Started(texts + [x]), '\n')
  {
    StartedNext(texts, x);
    StartedFirst(texts);
    JoinedNext(Started(texts), x);
  }

  lemma MoreIds(m: Message, n: Message, ids: seq<int>, id: Option<int>)
    requires SaysId(m, ids)
    requires n.id == (if id.Some? then id.value else m.id) && n.haveId == (m.haveId || id.Some?)
    ensures SaysId(n, if id.Some? then ids + [id.value] else ids)
  {
  }

  lemma SaysMore(m: Message, texts: seq<string>, ids: seq<int>, line: string)
    requires SaysAll(m, texts, ids)
    ensures SaysAll(Accumulate(m, line), if IsData(line) then texts + [DataOf(line)] else texts,
                    if IdOf(line).Some? then ids + [IdOf(line).value] else ids)
  {
    LineAdds(m, line);
    MoreIds(m, Accumulate(m, line), ids, IdOf(line));
    MoreData(texts, DataOf(line));
  }

  // The lines up to a blank one make a message of their data lines, a line each
  // from the first that is not blank, and of the last number among the ids.
  lemma {:induction false} MessageMeans(lines: seq<string>)
    requires forall l :: l in lines ==> l != ""
    ensures Messages(lines).ended == [] && SaysAll(Messages(lines).pending, DataIn(lines), IdsIn(lines))
    decreases |lines|
  {
    if lines != [] {
      var before, line := lines[..|lines| - 1], lines[|lines| - 1];
      assert line in lines && forall l :: l in before ==> l in lines;
      MessageMeans(before);
      SaysMore(Messages(before).pending, DataIn(before), IdsIn(before), line);
      assert DataIn(before) + [] == DataIn(before);
    }
  }

  // A message without data is dropped. A body that will not parse is passed over
  // by its id. One that does is sent on if its number, its own or else the id,
  // is above the cursor, which it then moves to.
  lemma MessageEnds(p: Parser, decode: Decoder)
    ensures Flush(p, decode).message == EMPTY && Ends(p, p.message, decode(p.message.data), Flush(p, decode))
  {
  }

  ghost predicate Ends(p: Parser, m: Message, body: Option<Event>, q: Parser) {
    if m.data == "" then q.cursor == p.cursor && q.out == p.out
    else
      match body
      case None => q.out == p.out && q.cursor == if m.haveId && p.cursor < m.id then m.id else p.cursor
      case Some(e) =>
        var n := if e.sequence != 0 || !m.haveId then e.sequence else m.id;
        if n > p.cursor then q.cursor == n && q.out == p.out + [e.(sequence := n)]
        else q.cursor == p.cursor && q.out == p.out
  }

  // Messages of lines after a message boundary follow on.
  lemma {:induction false} MessagesConcat(a: seq<string>, b: seq<string>)
    requires Messages(a).pending == EMPTY
    ensures Messages(a + b) == Parsed(Messages(a).ended + Messages(b).ended, Messages(b).pending)
    decreases |b|
  {
    if b == [] {
      assert a + b == a;
    } else {
      var b' := b[..|b| - 1];
      assert (a + b)[..|a + b| - 1] == a + b';
      MessagesConcat(a, b');
    }
  }

  // A frame as the backend writes it (app/stream/frame.go), then the blank line.
  function FrameLines(e: Event, kind: string, encode: Event -> string): seq<string>
    requires e.sequence >= 0
  {
    ["id: " + Decimal(e.sequence), "event: " + kind, "data: " + encode(e), ""]
  }

  const KEEPALIVE := [": keepalive", ""]

  lemma DecimalParses(n: nat)
    requires n <= MAX_INT64
    ensures ParseInt64(Decimal(n)) == Some(n)
  {
    SignsParse(n);
  }

  lemma PrintedIdParses(n: nat)
    requires n <= MAX_INT64
    ensures ParseInt64(TrimSpace(" " + Decimal(n))) == Some(n)
  {
    var s := Decimal(n);
    assert NoOuterSpace(s) by { assert IsDigit(s[0]) && IsDigit(s[|s| - 1]); }
    TrimSpacePadded(" ", s, "");
    assert " " + s + "" == " " + s;
    DecimalParses(n);
  }

  lemma IdLine(m: Message, n: nat)
    requires n <= MAX_INT64
    ensures Accumulate(m, "id: " + Decimal(n)) == m.(id := n, haveId := true)
  {
    var value := " " + Decimal(n);
    assert "id: " + Decimal(n) == "id:" + value;
    IdField(m, value, n) by { PrintedIdParses(n); }
  }

  lemma IdField(m: Message, value: string, n: int)
    requires ParseInt64(TrimSpace(value)) == Some(n)
    ensures Accumulate(m, "id:" + value) == m.(id := n, haveId := true)
  {
    var line := "id:" + value;
    NotPrefixOf(line, ":");
    NotPrefixOf(line, "data:");
    PrefixOf("id:", value);
  }

  lemma EventLine(m: Message, kind: string)
    ensures Accumulate(m, "event: " + kind) == m
  {
    var line := "event: " + kind;
    NotPrefixOf(line, ":");
    NotPrefixOf(line, "data:");
    NotPrefixOf(line, "id:");
  }

  lemma DataLine(m: Message, body: string)
    requires m.data == ""
    ensures Accumulate(m, "data: " + body) == m.(data := body)
  {
    assert "data: " + body == "data:" + (" " + body);
    NotPrefixOf("data: " + body, ":");
    PrefixOf("data:", " " + body);
    PrefixOf(" ", body);
  }

  // A frame as written is one message that carries its event; a keepalive is none.
  lemma WrittenFrameCarries(e: Event, kind: string, encode: Event -> string, decode: Decoder)
    requires 0 < e.sequence <= MAX_INT64 && encode(e) != "" && decode(encode(e)) == Some(e)
    ensures Messages(FrameLines(e, kind, encode)) == Parsed([Message(encode(e), e.sequence, true)], EMPTY)
    ensures Carried(Message(encode(e), e.sequence, true), decode) == Some(e)
  {
    var body := encode(e);
    var m1 := Message("", e.sequence, true);
    IdLine(EMPTY, e.sequence);
    EventLine(m1, kind);
    DataLine(m1, body);
    MessagesOfFour("id: " + Decimal(e.sequence), "event: " + kind, "data: " + body, m1, Message(body, e.sequence, true));
  }

  lemma KeepaliveIsNoMessage()
    ensures Messages(KEEPALIVE) == Parsed([], EMPTY)
  {
    assert KEEPALIVE[..1][..0] == [];
    assert Messages(KEEPALIVE[..1]) == Parsed([], EMPTY);
  }

  lemma MessagesOfFour(l0: string, l1: string, l2: string, m1: Message, m2: Message)
    requires l0 != "" && l1 != "" && l2 != "" && m2.data != ""
    requires Accumulate(EMPTY, l0) == m1 && Accumulate(m1, l1) == m1 && Accumulate(m1, l2) == m2
    ensures Messages([l0, l1, l2, ""]) == Parsed([m2], EMPTY)
  {
    var lines := [l0, l1, l2, ""];
    assert lines[..1] == [l0] && [l0][..0] == [];
    assert Messages([l0]) == Parsed([], m1);
    assert lines[..2] == [l0, l1] && [l0, l1][..1] == [l0];
    assert Messages([l0, l1]) == Parsed([], m1);
    assert lines[..3] == [l0, l1, l2] && [l0, l1, l2][..2] == [l0, l1];
    assert Messages([l0, l1, l2]) == Parsed([], m2);
  }

  // ---------------------------------------------------------------- exactly once

  // The ended messages of a body carry these events, one each, in order.
  ghost predicate Carry(ms: seq<Message>, es: seq<Event>, decode: Decoder) {
    |ms| == |es| && forall i :: 0 <= i < |ms| ==> Carried(ms[i], decode) == Some(es[i])
  }

  // New events in order are all sent on, and the cursor ends at the last.
  lemma {:induction false} DeliverNew(after: int, ms: seq<Message>, es: seq<Event>, decode: Decoder)
    requires Carry(ms, es, decode) && Increasing(es) && AllAbove(es, after)
    ensures DeliverAll(Parser(EMPTY, after, []), ms, decode) == Parser(EMPTY, LastSequence(es, after), es)
    decreases |ms|
  {
    if ms != [] {
      var n := |ms| - 1;
      IncreasingTake(es, n);
      DeliverNew(after, ms[..n], es[..n], decode);
      assert es == es[..n] + [es[n]];
      assert es[n] in es;
      if n > 0 { IncreasingAt(es, n - 1, n); }
    }
  }

  // What a body promises: its ended messages carry the next n events of the
  // log above the cursor the connection was opened with.
  ghost predicate SendsNext(c: Connection, log: seq<Event>, after: int, n: nat, decode: Decoder) {
    && c.Body?
    && n <= |Above(log, after)|
    && Carry(Messages(c.lines).ended, Above(log, after)[..n], decode)
  }

  // What is pending when the body ends does no harm: the body ended with an
  // error, or there is no data, or the data is a repeat or the very next event,
  // or it will not parse and names no sequence above the cursor.
  predicate PendingHarmless(c: Connection, cursor: int, next: Option<Event>, decode: Decoder)
    requires c.Body?
  {
    var m := Messages(c.lines).pending;
    || !c.clean
    || m.data == ""
    || match Carried(m, decode) {
         case None => !m.haveId || m.id <= cursor
         case Some(e) => e.sequence <= cursor || next == Some(e)
       }
  }

  lemma BodyIsFed(log: seq<Event>, after: int, c: Connection, n: nat, decode: Decoder)
    requires Increasing(log) && SendsNext(c, log, after, n, decode)
    ensures var es := Above(log, after)[..n];
      FeedAll(Parser(EMPTY, after, []), c.lines, decode) == Parser(Messages(c.lines).pending, LastSequence(es, after), es)
  {
    var a := Above(log, after);
    var es := a[..n];
    AboveIncreasing(log, after);
    IncreasingTake(a, n);
    assert AllAbove(es, after) by {
      AboveMembers(log, after);
      assert forall e :: e in es ==> e in a;
    }
    FeedIsParseThenDeliver(after, c.lines, decode);
    DeliverNew(after, Messages(c.lines).ended, es, decode);
  }

  // One connection skips nothing exactly when its pending message is harmless.
  lemma ConnectionExact(log: seq<Event>, after: int, c: Connection, n: nat, decode: Decoder)
    requires Increasing(log) && SendsNext(c, log, after, n, decode)
    ensures NothingSkipped(log, after, Read(after, c, decode).cursor, Read(after, c, decode).out)
       <==> PendingHarmless(c, LastSequence(Above(log, after)[..n], after), At(Above(log, after), n), decode)
  {
    var a := Above(log, after);
    var q := Parser(Messages(c.lines).pending, LastSequence(a[..n], after), a[..n]);
    BodyIsFed(log, after, c, n, decode);
    PendingExact(a, after, n, q, decode);
  }

  function At<T>(s: seq<T>, n: nat): Option<T> {
    if n < |s| then Some(s[n]) else None
  }

  // Flushing what is pending after the first n of a keeps to a exactly when
  // it adds nothing, or the very next one.
  lemma PendingExact(a: seq<Event>, after: int, n: nat, q: Parser, decode: Decoder)
    requires n <= |a| && q.out == a[..n] && q.cursor == LastSequence(a[..n], after)
    ensures q.out <= a
    ensures var p := Flush(q, decode);
      (p.out <= a && p.cursor == LastSequence(p.out, after))
      <==>
      (q.message.data == "" || match Carried(q.message, decode) {
        case None => !q.message.haveId || q.message.id <= q.cursor
        case Some(e) => e.sequence <= q.cursor || At(a, n) == Some(e)
      })
  {
    var m := q.message;
    if m.data != "" {
      match Carried(m, decode)
      case None =>
      case Some(e) =>
        if e.sequence > q.cursor {
          var out := q.out + [e];
          assert out[n] == e;
          if n < |a| && a[n] == e {
            assert out == a[..n + 1];
          }
        }
    }
  }

  // The body of a well-behaved server: next events of the log, harmless end.
  ghost predicate Honest(c: Connection, log: seq<Event>, after: int, n: nat, decode: Decoder) {
    && SendsNext(c, log, after, n, decode)
    && PendingHarmless(c, LastSequence(Above(log, after)[..n], after), At(Above(log, after), n), decode)
  }

  ghost predicate HonestConnection(c: Connection, log: seq<Event>, after: int, decode: Decoder) {
    c.Body? ==> exists n: nat :: Honest(c, log, after, n, decode)
  }

  ghost predicate HonestRun(conns: seq<Connection>, log: seq<Event>, s: Streamed, decode: Decoder)
    decreases |conns|
  {
    conns != [] && !conns[0].Gone? ==>
      HonestConnection(conns[0], log, s.cursor, decode) && HonestRun(conns[1..], log, Next(s, conns[0], decode), decode)
  }

  // Over any number of drops, what comes out is a prefix of the log above the
  // cursor asked for, and what is left above the new cursor is the rest: no
  // gap, no repeat.
  lemma {:induction false} ExactlyOnce(log: seq<Event>, after: int, s: Streamed, conns: seq<Connection>, decode: Decoder)
    requires Increasing(log) && HonestRun(conns, log, s, decode)
    requires NothingSkipped(log, after, s.cursor, s.out)
    ensures var r := StreamFrom(s, conns, decode);
      && NothingSkipped(log, after, r.cursor, r.out)
      && Above(log, after) == r.out + Above(log, r.cursor)
    decreases |conns|
  {
    if conns == [] || conns[0].Gone? {
      SkippedNone(log, after, s.cursor, s.out);
    } else {
      NextSkipsNothing(log, after, s, conns[0], decode);
      ExactlyOnce(log, after, Next(s, conns[0], decode), conns[1..], decode);
    }
  }

  lemma NextSkipsNothing(log: seq<Event>, after: int, s: Streamed, c: Connection, decode: Decoder)
    requires Increasing(log) && NothingSkipped(log, after, s.cursor, s.out)
    requires !c.Gone? && HonestConnection(c, log, s.cursor, decode)
    ensures NothingSkipped(log, after, Next(s, c, decode).cursor, Next(s, c, decode).out)
  {
    if c.Body? {
      var n: nat :| Honest(c, log, s.cursor, n, decode);
      var p := Read(s.cursor, c, decode);
      assert NothingSkipped(log, s.cursor, p.cursor, p.out) by { ConnectionExact(log, s.cursor, c, n, decode); }
      assert p.cursor >= s.cursor by { ReadInOrder(s.cursor, c, decode); }
      SkippedNoneOnwards(log, after, s.cursor, s.out, p.cursor, p.out);
    }
  }

  // ---------------------------------------------------------------- how far it gets

  // The loop over some connections, none of which ends it, and then over others.
  lemma {:induction false} StreamOnwards(s: Streamed, a: seq<Connection>, b: seq<Connection>, decode: Decoder)
    requires Gone !in a
    ensures StreamFrom(s, a + b, decode) == StreamFrom(StreamFrom(s, a, decode), b, decode)
    decreases |a|
  {
    if a == [] {
      assert a + b == b;
    } else {
      assert a[0] in a && forall c :: c in a[1..] ==> c in a;
      assert (a + b)[1..] == a[1..] + b;
      StreamOnwards(Next(s, a[0], decode), a[1..], b, decode);
    }
  }

  // An attempt that is refused changes nothing: the loop tries again.
  lemma RefusedChangesNothing(s: Streamed, a: seq<Connection>, b: seq<Connection>, decode: Decoder)
    ensures StreamFrom(s, a + [Refused] + b, decode) == StreamFrom(s, a + b, decode)
  {
    if Gone in a {
      GoneEnds(s, a, [Refused] + b, decode);
      GoneEnds(s, a, b, decode);
      assert a + [Refused] + b == a + ([Refused] + b);
    } else {
      StreamOnwards(s, a, [Refused] + b, decode);
      StreamOnwards(s, a, b, decode);
      assert a + [Refused] + b == a + ([Refused] + b) && ([Refused] + b)[1..] == b;
    }
  }

  // Being told that there is no such team ends it for good.
  lemma {:induction false} GoneEnds(s: Streamed, a: seq<Connection>, b: seq<Connection>, decode: Decoder)
    requires Gone in a
    ensures StreamFrom(s, a + b, decode) == StreamFrom(s, a, decode)
    decreases |a|
  {
    if !a[0].Gone? {
      assert (a + b)[1..] == a[1..] + b && a == [a[0]] + a[1..];
      GoneEnds(Next(s, a[0], decode), a[1..], b, decode);
    }
  }

  // A body that sends these next events has them all sent on.
  lemma BodyIsDelivered(log: seq<Event>, after: int, c: Connection, n: nat, decode: Decoder)
    requires Increasing(log) && Honest(c, log, after, n, decode)
    ensures Above(log, after)[..n] <= Read(after, c, decode).out <= Above(log, after)
    ensures Read(after, c, decode).cursor == LastSequence(Read(after, c, decode).out, after)
  {
    BodyIsFed(log, after, c, n, decode);
    ConnectionExact(log, after, c, n, decode);
  }

  lemma {:induction false} HonestParts(a: seq<Connection>, b: seq<Connection>, log: seq<Event>, s: Streamed, decode: Decoder)
    requires HonestRun(a + b, log, s, decode) && Gone !in a
    ensures HonestRun(a, log, s, decode)
    ensures HonestRun(b, log, StreamFrom(s, a, decode), decode)
    decreases |a|
  {
    if a == [] {
      assert a + b == b;
    } else {
      assert a[0] in a && (a + b)[0] == a[0];
      assert (a + b)[1..] == a[1..] + b;
      assert a == [a[0]] + a[1..];
      HonestParts(a[1..], b, log, Next(s, a[0], decode), decode);
    }
  }

  // Over a run of honest connections before any that says the team is gone: as
  // soon as one sends all that those before it left of the log, everything above
  // the cursor asked for has come out, whatever was refused or cut before or after.
  lemma EverythingComesOut(log: seq<Event>, after: int, conns: seq<Connection>, i: nat, decode: Decoder)
    requires Increasing(log) && HonestRun(conns, log, Streamed(after, []), decode)
    requires i < |conns| && Gone !in conns[..i] && conns[i].Body?
    requires var left := Above(log, StreamFrom(Streamed(after, []), conns[..i], decode).cursor);
      SendsNext(conns[i], log, StreamFrom(Streamed(after, []), conns[..i], decode).cursor, |left|, decode)
    ensures StreamFrom(Streamed(after, []), conns, decode).out == Above(log, after)
  {
    var s := Streamed(after, []);
    var t := StreamFrom(s, conns[..i], decode);
    assert conns == conns[..i] + conns[i..];
    HonestParts(conns[..i], conns[i..], log, s, decode);
    ExactlyOnce(log, after, s, conns[..i], decode);
    StreamOnwards(s, conns[..i], conns[i..], decode);
    assert conns[..i] + conns[i..] == conns;
    LastOfIt(log, after, t, conns[i..], decode);
  }

  lemma LastOfIt(log: seq<Event>, after: int, t: Streamed, conns: seq<Connection>, decode: Decoder)
    requires Increasing(log) && NothingSkipped(log, after, t.cursor, t.out) && Above(log, after) == t.out + Above(log, t.cursor)
    requires conns != [] && conns[0].Body? && HonestRun(conns, log, t, decode)
    requires SendsNext(conns[0], log, t.cursor, |Above(log, t.cursor)|, decode)
    ensures StreamFrom(t, conns, decode).out == Above(log, after)
  {
    var c, left := conns[0], Above(log, t.cursor);
    var n: nat :| Honest(c, log, t.cursor, n, decode);
    assert n == |Messages(c.lines).ended| == |left|;
    BodyIsDelivered(log, t.cursor, c, n, decode);
    assert left[..n] == left;
    var u := Next(t, c, decode);
    assert u.out == t.out + left;
    NextSkipsNothing(log, after, t, c, decode);
    ExactlyOnce(log, after, u, conns[1..], decode);
    AboveIncreasing(log, after);
    OutGrows(u, conns[1..], decode);
  }

  lemma {:induction false} OutGrows(s: Streamed, conns: seq<Connection>, decode: Decoder)
    ensures s.out <= StreamFrom(s, conns, decode).out
    decreases |conns|
  {
    if conns != [] && !conns[0].Gone? {
      OutGrows(Next(s, conns[0], decode), conns[1..], decode);
    }
  }

  // A clean end inside a frame whose id was read skips every event up to that
  // id, on this connection and on every later one.
  lemma TruncatedFrameIsLost(after: int, c: Connection, rest: seq<Connection>, decode: Decoder, lost: Event)
    requires c.Body? && c.clean
    requires var p := FeedAll(Parser(EMPTY, after, []), c.lines, decode);
      && p.message.data != "" && decode(p.message.data) == None && p.message.haveId
      && p.cursor < lost.sequence <= p.message.id
    ensures lost !in StreamFrom(Streamed(after, []), [c] + rest, decode).out
  {
    var p := Read(after, c, decode);
    assert InOrder(p.out, after, p.cursor) by { ReadInOrder(after, c, decode); }
    var q := FeedAll(Parser(EMPTY, after, []), c.lines, decode);
    assert p.out == q.out && p.cursor == q.message.id;
    assert lost !in p.out by {
      FeedInOrder(Parser(EMPTY, after, []), c.lines, decode, after);
    }
    var t := Streamed(p.cursor, p.out);
    assert StreamFrom(Streamed(after, []), [c] + rest, decode) == StreamFrom(t, rest, decode) by {
      assert ([c] + rest)[1..] == rest;
      assert [] + p.out == p.out;
    }
    AnyServerInOrder(after, t, rest, decode);
    var r := StreamFrom(t, rest, decode);
    assert r.out == p.out + r.out[|p.out|..];
  }

  lemma FeedOfTwo(p: Parser, l0: string, l1: string, m0: Message, m1: Message, decode: Decoder)
    requires l0 != "" && l1 != "" && Accumulate(p.message, l0) == m0 && Accumulate(m0, l1) == m1
    ensures FeedAll(p, [l0, l1], decode) == p.(message := m1)
  {
    assert [l0, l1][..1] == [l0] && [l0][..0] == [];
    assert FeedAll(p, [l0], decode) == p.(message := m0);
  }

  // Such a body: the id of an event, and a part of its data that does not decode.
  lemma CutFrameIsLost(after: int, n: nat, part: string, rest: seq<Connection>, decode: Decoder, lost: Event)
    requires n <= MAX_INT64 && part != "" && decode(part) == None && after < lost.sequence <= n
    ensures lost !in StreamFrom(Streamed(after, []), [Body(["id: " + Decimal(n), "data: " + part], true)] + rest, decode).out
  {
    var l0, l1 := "id: " + Decimal(n), "data: " + part;
    IdLine(EMPTY, n);
    DataLine(Message("", n, true), part);
    FeedOfTwo(Parser(EMPTY, after, []), l0, l1, Message("", n, true), Message(part, n, true), decode);
    TruncatedFrameIsLost(after, Body([l0, l1], true), rest, decode, lost);
  }
}
