/** Server-sent event frames (src/webhook_receiver/app.py, `_sse_frame`) against the event stream
    interpretation of the WHATWG HTML Living Standard, section 9.2.6.

    The data of an item is its JSON text, a single line; ids and types are whatever the store was given. */
module SseFrames {
  import opened Sequences

  datatype Item = Item(id: string, kind: string, json: string)

  predicate HasBreak(s: string) { '\n' in s || '\r' in s }

  /** `_sse_frame`: an item, or the keepalive comment for `None`. */
  function Frame(item: Option<Item>): string {
    match item
    case None => ": keepalive\n\n"
    case Some(i) => "id: " + i.id + "\nevent: " + i.kind + "\ndata: " + i.json + "\n\n"
  }

  function Frames(items: seq<Option<Item>>): string {
    if items == [] then "" else Frames(items[..|items| - 1]) + Frame(items[|items| - 1])
  }

  // ---------------------------------------------------------------- the standard's interpretation

  /** The three buffers; `skipLf` says that a carriage return was the last character read, and `line` holds
      the characters of the unfinished line. */
  datatype Parser = Parser(line: string, skipLf: bool, data: string, kind: string, lastId: string, events: seq<Item>)

  const START := Parser("", false, "", "", "", [])

  /** The index of the first colon, or the length. */
  function Colon(s: string): (i: nat)
    ensures i <= |s| && (i < |s| ==> s[i] == ':') && forall j :: 0 <= j < i ==> s[j] != ':'
  {
    if s == "" || s[0] == ':' then 0 else 1 + Colon(s[1..])
  }

  function FieldName(line: string): string { line[..Colon(line)] }

  /** The value after the colon, less one leading space. */
  function FieldValue(line: string): string {
    var rest := if Colon(line) < |line| then line[Colon(line) + 1..] else "";
    if rest != "" && rest[0] == ' ' then rest[1..] else rest
  }

  function Dispatch(p: Parser): Parser {
    if p.data == "" then p.(kind := "")
    else
      p.(events := p.events + [Item(p.lastId, if p.kind == "" then "message" else p.kind, p.data[..|p.data| - 1])],
         data := "", kind := "")
  }

  function Field(p: Parser, name: string, value: string): Parser {
    if name == "event" then p.(kind := value)
    else if name == "data" then p.(data := p.data + value + "\n")
    else if name == "id" && '\0' !in value then p.(lastId := value)
    else p
  }

  function EndLine(p: Parser): Parser {
    var q := p.(line := "");
    if p.line == "" then Dispatch(q)
    else if p.line[0] == ':' then q
    else Field(q, FieldName(p.line), FieldValue(p.line))
  }

  /** One character: lines end at LF, CR or CRLF. */
  function Feed(p: Parser, c: char): Parser {
    if c == '\n' then (if p.skipLf then p.(skipLf := false) else EndLine(p))
    else if c == '\r' then EndLine(p).(skipLf := true)
    else p.(line := p.line + [c], skipLf := false)
  }

  function Parse(p: Parser, s: string): Parser {
    if s == "" then p else Feed(Parse(p, s[..|s| - 1]), s[|s| - 1])
  }

  // ---------------------------------------------------------------- the round trip

  /** What an item must be for the stream to carry it: no line break, no NUL in the id, a type. */
  predicate Clean(i: Item) {
    !HasBreak(i.id) && '\0' !in i.id && !HasBreak(i.kind) && i.kind != ""
  }

  function Items(items: seq<Option<Item>>): seq<Item> {
    if items == [] then []
    else Items(items[..|items| - 1]) + (if items[|items| - 1].Some? then [items[|items| - 1].value] else [])
  }

  lemma {:induction false} ParseConcat(p: Parser, s: string, t: string)
    ensures Parse(p, s + t) == Parse(Parse(p, s), t)
  {
    if t == "" {
      assert s + t == s;
    } else {
      ParseConcat(p, s, t[..|t| - 1]);
      assert (s + t)[..|s + t| - 1] == s + t[..|t| - 1];
    }
  }

  /** Text without a line break only extends the current line. */
  lemma {:induction false} ParseText(p: Parser, s: string)
    requires !HasBreak(s) && !p.skipLf
    ensures Parse(p, s) == p.(line := p.line + s)
  {
    if s == "" {
      assert p.line + s == p.line;
    } else {
      ParseText(p, s[..|s| - 1]);
      assert p.line + s == p.line + s[..|s| - 1] + [s[|s| - 1]];
    }
  }

  /** A whole line between line starts. */
  lemma ParseLine(p: Parser, s: string)
    requires !HasBreak(s) && !p.skipLf && p.line == ""
    ensures Parse(p, s + "\n") == EndLine(p.(line := s))
  {
    ParseText(p, s);
    assert p.line + s == s;
    assert (s + "\n")[..|s + "\n"| - 1] == s;
  }

  /** `name: value` is read back as that field. */
  lemma FieldLine(p: Parser, name: string, value: string)
    requires p.line == name + ": " + value && name != "" && ':' !in name
    ensures EndLine(p) == Field(p.(line := ""), name, value)
  {
    assert p.line[|name|] == ':' && p.line[|name| + 1] == ' ';
    assert Colon(p.line) == |name|;
    assert FieldName(p.line) == name;
    assert p.line[|name| + 1..] == " " + value;
  }

  predicate AtRest(p: Parser) { p.line == "" && !p.skipLf && p.data == "" && p.kind == "" }

  lemma ParseFieldLine(p: Parser, name: string, value: string)
    requires !HasBreak(name) && !HasBreak(value) && name != "" && ':' !in name
    requires p.line == "" && !p.skipLf
    ensures Parse(p, name + ": " + value + "\n") == Field(p, name, value)
  {
    var line := name + ": " + value;
    ParseLine(p, line);
    FieldLine(p.(line := line), name, value);
  }

  lemma ParseBlankLine(p: Parser)
    requires p.line == "" && !p.skipLf
    ensures Parse(p, "\n") == Dispatch(p)
  {
    assert "\n"[..0] == "";
  }

  lemma ParseFour(p: Parser, a: string, b: string, c: string, d: string)
    ensures Parse(p, a + b + c + d) == Parse(Parse(Parse(Parse(p, a), b), c), d)
  {
    ParseConcat(p, a, b);
    ParseConcat(p, a + b, c);
    ParseConcat(p, a + b + c, d);
  }

  lemma FrameInFour(i: Item)
    ensures Frame(Some(i)) ==
            ("id" + ": " + i.id + "\n") + ("event" + ": " + i.kind + "\n") + ("data" + ": " + i.json + "\n") + "\n"
  {
    assert "id" + ": " == "id: " && "event" + ": " == "event: " && "data" + ": " == "data: ";
    assert "\nevent: " == "\n" + "event: " && "\ndata: " == "\n" + "data: " && "\n\n" == "\n" + "\n";
  }

  /** A clean item is dispatched as itself, and leaves the parser at rest. */
  lemma ParseFrame(p: Parser, i: Item)
    requires AtRest(p) && Clean(i) && !HasBreak(i.json)
    ensures Parse(p, Frame(Some(i))) == p.(lastId := i.id, events := p.events + [i])
  {
    hide Parse, Frame;
    FrameIsRead(p, i);
  }

  lemma ParseKeepalive(p: Parser)
    requires AtRest(p)
    ensures Parse(p, Frame(None)) == p
  {
    assert ": keepalive\n\n" == (": keepalive" + "\n") + "\n";
    assert !HasBreak(": keepalive");
    hide Parse;
    ParseConcat(p, ": keepalive" + "\n", "\n");
    ParseLine(p, ": keepalive");
    ParseBlankLine(p);
  }

  lemma {:induction false} ParseFrames(items: seq<Option<Item>>)
    requires forall k :: 0 <= k < |items| && items[k].Some? ==> Clean(items[k].value) && !HasBreak(items[k].value.json)
    ensures AtRest(Parse(START, Frames(items))) && Parse(START, Frames(items)).events == Items(items)
  {
    if items != [] {
      var init, last := items[..|items| - 1], items[|items| - 1];
      ParseFrames(init);
      ParseConcat(START, Frames(init), Frame(last));
      var p := Parse(START, Frames(init));
      if last.Some? {
        ParseFrame(p, last.value);
      } else {
        ParseKeepalive(p);
      }
    }
  }

  /** Whatever is fed to it, the interpretation only ever dispatches clean items. */
  ghost predicate OnlyClean(p: Parser) {
    && !HasBreak(p.line) && !HasBreak(p.kind) && !HasBreak(p.lastId) && '\0' !in p.lastId
    && forall k :: 0 <= k < |p.events| ==> Clean(p.events[k])
  }

  lemma FieldValueHasNoBreak(line: string)
    requires !HasBreak(line)
    ensures !HasBreak(FieldValue(line))
  {
    assert forall c :: c in FieldValue(line) ==> c in line;
  }

  lemma DispatchStaysClean(p: Parser)
    requires OnlyClean(p)
    ensures OnlyClean(Dispatch(p))
  {
    assert !HasBreak("message");
  }

  lemma FieldStaysClean(p: Parser, name: string, value: string)
    requires OnlyClean(p) && !HasBreak(value)
    ensures OnlyClean(Field(p, name, value))
  {
    hide HasBreak, Clean;
  }

  lemma EndLineStaysClean(p: Parser)
    requires OnlyClean(p)
    ensures OnlyClean(EndLine(p))
  {
    var q := p.(line := "");
    assert OnlyClean(q);
    FieldValueHasNoBreak(p.line);
    DispatchStaysClean(q);
    FieldStaysClean(q, FieldName(p.line), FieldValue(p.line));
    hide FieldValue, FieldName, Field, Dispatch, OnlyClean;
  }

  lemma {:induction false} ParserStaysClean(p: Parser, s: string)
    requires OnlyClean(p)
    ensures OnlyClean(Parse(p, s))
  {
    if s != "" {
      ParserStaysClean(p, s[..|s| - 1]);
      EndLineStaysClean(Parse(p, s[..|s| - 1]));
      hide EndLine;
    }
  }

  lemma {:induction false} ItemsContain(items: seq<Option<Item>>, k: nat)
    requires k < |items| && items[k].Some?
    ensures items[k].value in Items(items)
  {
    if k < |items| - 1 {
      ItemsContain(items[..|items| - 1], k);
    }
  }

  /** How any frame without line breaks is read: an id with a NUL leaves the last id, an empty type is `message`. */
  lemma FrameIsRead(p: Parser, i: Item)
    requires AtRest(p) && !HasBreak(i.id) && !HasBreak(i.kind) && !HasBreak(i.json)
    ensures var id := if '\0' in i.id then p.lastId else i.id;
            Parse(p, Frame(Some(i))) ==
            p.(lastId := id, events := p.events + [Item(id, if i.kind == "" then "message" else i.kind, i.json)])
  {
    FrameInFour(i);
    ParseFour(p, "id" + ": " + i.id + "\n", "event" + ": " + i.kind + "\n", "data" + ": " + i.json + "\n", "\n");
    hide Frame, Parse;
    var p1 := p.(lastId := if '\0' in i.id then p.lastId else i.id);
    var p2 := p1.(kind := i.kind);
    var p3 := p2.(data := i.json + "\n");
    ParseFieldLine(p, "id", i.id);
    ParseFieldLine(p1, "event", i.kind);
    ParseFieldLine(p2, "data", i.json);
    assert p2.data + i.json + "\n" == i.json + "\n";
    ParseBlankLine(p3);
    assert (i.json + "\n")[..|i.json + "\n"| - 1] == i.json;
  }

  /** A line may end in LF, CR or CRLF. */
  lemma LineEnds(p: Parser, s: string)
    requires !HasBreak(s) && !p.skipLf && p.line == "" && !EndLine(p.(line := s)).skipLf
    ensures Parse(p, s + "\n") == EndLine(p.(line := s))
    ensures Parse(p, s + "\r") == EndLine(p.(line := s)).(skipLf := true)
    ensures Parse(p, (s + "\r") + "\n") == EndLine(p.(line := s))
  {
    ParseLine(p, s);
    ParseText(p, s);
    assert p.line + s == s;
    assert (s + "\r")[..|s + "\r"| - 1] == s;
    assert ((s + "\r") + "\n")[..|(s + "\r") + "\n"| - 1] == s + "\r";
    hide EndLine, HasBreak;
  }

  lemma DataLine(p: Parser, value: string)
    requires !HasBreak(value) && p.line == "" && !p.skipLf
    ensures Parse(p, "data: " + value + "\n") == p.(data := p.data + value + "\n")
  {
    assert "data" + ": " == "data: ";
    hide Parse, HasBreak;
    assert !HasBreak("data") by {
      PlainName();
    }
    ParseFieldLine(p, "data", value);
  }

  lemma PlainName()
    ensures !HasBreak("data")
  {
  }

  /** As in the first example of the standard: data lines make one event, joined by line feeds. */
  lemma ThreeDataLines(a: string, b: string, c: string)
    requires !HasBreak(a) && !HasBreak(b) && !HasBreak(c)
    ensures Parse(START, ("data: " + a + "\n") + ("data: " + b + "\n") + ("data: " + c + "\n") + "\n").events ==
            [Item("", "message", a + "\n" + b + "\n" + c)]
  {
    hide Parse, HasBreak;
    ParseFour(START, "data: " + a + "\n", "data: " + b + "\n", "data: " + c + "\n", "\n");
    DataLine(START, a);
    var p1 := START.(data := START.data + a + "\n");
    DataLine(p1, b);
    var p2 := p1.(data := p1.data + b + "\n");
    DataLine(p2, c);
    var p3 := p2.(data := p2.data + c + "\n");
    ParseBlankLine(p3);
    assert START.data + a == a;
    assert p3.data[..|p3.data| - 1] == a + "\n" + b + "\n" + c;
  }

  /** One frame as it goes over the wire. */
  lemma FrameText()
    ensures Frame(Some(Item("7", "agent_finished", "{}"))) == "id: 7\nevent: agent_finished\ndata: {}\n\n"
    ensures Frame(None) == ": keepalive\n\n"
  {
  }

  /** The round trip: the stream is read back as exactly the items in order, keepalives vanishing, if and only
      if every item is clean. */
  lemma RoundTripIff(items: seq<Option<Item>>)
    requires forall k :: 0 <= k < |items| && items[k].Some? ==> !HasBreak(items[k].value.json)
    ensures Parse(START, Frames(items)).events == Items(items) <==>
            forall k :: 0 <= k < |items| && items[k].Some? ==> Clean(items[k].value)
  {
    var parsed := Parse(START, Frames(items));
    ParserStaysClean(START, Frames(items));
    if parsed.events == Items(items) {
      forall k | 0 <= k < |items| && items[k].Some?
        ensures Clean(items[k].value)
      {
        ItemsContain(items, k);
      }
    }
    if forall k :: 0 <= k < |items| && items[k].Some? ==> Clean(items[k].value) {
      ParseFrames(items);
    }
  }

  /** An empty type comes back as "message", although it contains no line break. The program itself names
      every type it emits, so this shows why the condition is there, not a run of the program. */
  lemma EmptyTypeWitness(json: string)
    requires !HasBreak(json)
    ensures Parse(START, Frames([Some(Item("1", "", json))])).events != Items([Some(Item("1", "", json))])
  {
    RoundTripIff([Some(Item("1", "", json))]);
    assert [Some(Item("1", "", json))][0].Some?;
  }
}
