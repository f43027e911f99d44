/** What the lexer and the line tests of the strip pass mean (scripts/strip-model-settings.ps1), said of the text
    and not of the scan: braces count outside literals and comments, an entry line is a quoted key and a colon. */
module BraceLexer {
  import opened Sequences
  import opened Texts
  import opened StripModel

  // ---------------------------------------------------------------- the balance of a line

  /** One character of a string literal, or a backslash and what it escapes. */
  datatype Unit = Plain(c: char) | Escaped(c: char)

  /** A line is text and string literals. */
  datatype Piece = Text(text: string) | Literal(body: seq<Unit>)

  function Body(units: seq<Unit>): string {
    if units == [] then "" else (if units[0].Plain? then [units[0].c] else ['\\', units[0].c]) + Body(units[1..])
  }

  function Show(p: Piece): string {
    match p
    case Text(text) => text
    case Literal(body) => "\"" + (Body(body) + "\"")
  }

  function Render(pieces: seq<Piece>): string {
    if pieces == [] then "" else Show(pieces[0]) + Render(pieces[1..])
  }

  predicate ProperUnits(units: seq<Unit>) {
    forall k :: 0 <= k < |units| && units[k].Plain? ==> units[k].c != '"' && units[k].c != '\\'
  }

  /** Text has no quote and no two slashes, nor a slash at its end that what follows would join. */
  predicate ProperText(t: string, rest: string) {
    '"' !in t && forall k :: 0 <= k < |t| ==> LoneSlash(t, rest, k)
  }

  predicate LoneSlash(t: string, rest: string, k: nat)
    requires k < |t|
  {
    t[k] == '/' ==> if k + 1 < |t| then t[k + 1] != '/' else rest == "" || rest[0] != '/'
  }

  predicate ProperLine(pieces: seq<Piece>, tail: string) {
    pieces == [] ||
    (ProperLine(pieces[1..], tail)
     && if pieces[0].Text? then ProperText(pieces[0].text, Render(pieces[1..]) + tail) else ProperUnits(pieces[0].body))
  }

  function Braces(s: string): int { (multiset(s)['{'] as int) - (multiset(s)['}'] as int) }

  function Balance(pieces: seq<Piece>): int {
    if pieces == [] then 0 else (if pieces[0].Text? then Braces(pieces[0].text) else 0) + Balance(pieces[1..])
  }

  /** A literal that is not closed, a backslash at its very end included. */
  ghost predicate OpenLiteral(tail: string, units: seq<Unit>) {
    ProperUnits(units) && (tail == "\"" + Body(units) || tail == "\"" + (Body(units) + "\\"))
  }

  /** The end of a line: nothing, a comment, or an open literal. */
  ghost predicate IsTail(tail: string) {
    || tail == ""
    || (|tail| >= 2 && tail[0] == '/' && tail[1] == '/')
    || exists units :: OpenLiteral(tail, units)
  }

  /** The scan of a suffix is the scan of the suffix as a line of its own. */
  lemma {:induction false} ScanShift(u: string, k: nat, i: nat, inString: bool)
    requires k <= i && k <= |u|
    ensures Scan(u, i, inString) == Scan(u[k..], i - k, inString)
    decreases |u| - i
  {
    if i < |u| {
      assert u[k..][i - k] == u[i];
      assert i + 1 < |u| ==> u[k..][i + 1 - k] == u[i + 1];
      if inString {
        ScanShift(u, k, if u[i] == '\\' then i + 2 else i + 1, u[i] == '\\' || u[i] != '"');
      } else {
        ScanShift(u, k, i + 1, u[i] == '"');
      }
    }
  }

  lemma ScanRest(a: string, b: string, inString: bool)
    ensures Scan(a + b, |a|, inString) == Scan(b, 0, inString)
  {
    hide Scan;
    ScanShift(a + b, |a|, |a|, inString);
    assert (a + b)[|a|..] == b;
  }

  lemma ProperRest(t: string, rest: string)
    requires t != "" && ProperText(t, rest)
    ensures ProperText(t[1..], rest) && t[0] != '"'
    ensures t[0] == '/' && |t + rest| > 1 ==> (t + rest)[1] != '/'
  {
    var u := t[1..];
    assert t[0] in t;
    forall k | 0 <= k < |u|
      ensures LoneSlash(u, rest, k)
    {
      assert LoneSlash(t, rest, k + 1);
    }
    assert LoneSlash(t, rest, 0);
    if t[0] == '/' {
      assert |t| > 1 ==> (t + rest)[1] == t[1];
      assert |t| == 1 && |rest| > 0 ==> (t + rest)[1] == rest[0];
    }
  }

  lemma FirstCharacter(u: string)
    requires u != "" && u[0] != '"' && (u[0] == '/' && |u| > 1 ==> u[1] != '/')
    ensures Scan(u, 0, false) == Braces([u[0]]) + Scan(u[1..], 0, false)
  {
    ScanShift(u, 1, 1, false);
  }

  /** Text counts its braces. */
  lemma {:induction false} TextCounts(t: string, rest: string)
    requires ProperText(t, rest)
    ensures Scan(t + rest, 0, false) == Braces(t) + Scan(rest, 0, false)
  {
    hide Scan, ProperText;
    if t == "" {
      assert t + rest == rest;
    } else {
      var u := t + rest;
      ProperRest(t, rest);
      FirstCharacter(u);
      assert u[1..] == t[1..] + rest && [u[0]] == [t[0]];
      TextCounts(t[1..], rest);
      assert t == [t[0]] + t[1..];
      assert multiset(t) == multiset([t[0]]) + multiset(t[1..]);
    }
  }

  /** A literal counts nothing, escaped quotes and backslashes included. */
  lemma {:induction false} BodyCountsNothing(units: seq<Unit>, rest: string)
    requires ProperUnits(units)
    ensures Scan(Body(units) + ("\"" + rest), 0, true) == Scan(rest, 0, false)
  {
    var tail := "\"" + rest;
    if units == [] {
      assert Body(units) + tail == tail;
      ScanRest("\"", rest, false);
    } else {
      var first := if units[0].Plain? then [units[0].c] else ['\\', units[0].c];
      var u := Body(units) + tail;
      assert u == first + (Body(units[1..]) + tail);
      ScanRest(first, Body(units[1..]) + tail, true);
      BodyCountsNothing(units[1..], rest);
    }
  }

  lemma {:induction false} OpenBodyCountsNothing(units: seq<Unit>)
    requires ProperUnits(units)
    ensures Scan(Body(units), 0, true) == 0 && Scan(Body(units) + "\\", 0, true) == 0
  {
    if units == [] {
      assert Body(units) + "\\" == "\\";
    } else {
      var first := if units[0].Plain? then [units[0].c] else ['\\', units[0].c];
      assert Body(units) == first + Body(units[1..]);
      assert Body(units) + "\\" == first + (Body(units[1..]) + "\\");
      ScanRest(first, Body(units[1..]), true);
      ScanRest(first, Body(units[1..]) + "\\", true);
      OpenBodyCountsNothing(units[1..]);
    }
  }

  lemma TailCountsNothing(tail: string)
    requires IsTail(tail)
    ensures Scan(tail, 0, false) == 0
  {
    if tail != "" && tail[0] != '/' {
      var units :| OpenLiteral(tail, units);
      ScanRest("\"", Body(units), true);
      ScanRest("\"", Body(units) + "\\", true);
      OpenBodyCountsNothing(units);
    }
  }

  /** The balance of a line is the opening less the closing braces of its text: its literals, its comment and
      an open literal at its end count nothing. */
  lemma {:induction false} BalanceOfLine(pieces: seq<Piece>, tail: string)
    requires ProperLine(pieces, tail) && IsTail(tail)
    ensures Delta(Render(pieces) + tail) == Balance(pieces)
  {
    hide IsTail;
    if pieces == [] {
      assert Render(pieces) + tail == tail;
      TailCountsNothing(tail);
    } else {
      var rest := Render(pieces[1..]) + tail;
      assert Render(pieces) + tail == Show(pieces[0]) + rest;
      BalanceOfLine(pieces[1..], tail);
      PieceCounts(pieces[0], rest);
    }
  }

  lemma PieceCounts(p: Piece, rest: string)
    requires if p.Text? then ProperText(p.text, rest) else ProperUnits(p.body)
    ensures Scan(Show(p) + rest, 0, false) == (if p.Text? then Braces(p.text) else 0) + Scan(rest, 0, false)
  {
    if p.Text? {
      TextCounts(p.text, rest);
    } else {
      assert Show(p) + rest == "\"" + (Body(p.body) + ("\"" + rest));
      ScanRest("\"", Body(p.body) + ("\"" + rest), true);
      BodyCountsNothing(p.body, rest);
    }
  }

  /** What a literal holds, from behind its quote. */
  lemma {:induction false} ReadLiteral(s: string) returns (units: seq<Unit>, rest: string, closed: bool)
    ensures ProperUnits(units)
    ensures if closed then s == Body(units) + ("\"" + rest) && |rest| < |s|
            else s == Body(units) || s == Body(units) + "\\"
  {
    if s == "" {
      units, rest, closed := [], "", false;
    } else if s[0] == '"' {
      units, rest, closed := [], s[1..], true;
    } else if s == "\\" {
      units, rest, closed := [], "", false;
    } else {
      var width := if s[0] == '\\' then 2 else 1;
      var others;
      others, rest, closed := ReadLiteral(s[width..]);
      var first := if s[0] == '\\' then Escaped(s[1]) else Plain(s[0]);
      units := [first] + others;
      assert units[1..] == others;
      assert s == s[..width] + s[width..];
      assert Body(units) == s[..width] + Body(others);
    }
  }

  lemma PushPiece(p: Piece, pieces: seq<Piece>, tail: string, line: string)
    requires ProperLine(pieces, tail) && line == Render(pieces) + tail
    requires if p.Text? then ProperText(p.text, line) else ProperUnits(p.body)
    ensures ProperLine([p] + pieces, tail) && Show(p) + line == Render([p] + pieces) + tail
  {
    hide ProperText, ProperUnits, Show;
    assert ([p] + pieces)[1..] == pieces;
    assert Show(p) + line == Show(p) + Render(pieces) + tail;
  }

  /** Every line is text, literals and an end, so the law above is about every line. */
  lemma {:induction false} EveryLineDivides(line: string) returns (pieces: seq<Piece>, tail: string)
    ensures line == Render(pieces) + tail && ProperLine(pieces, tail) && IsTail(tail)
    decreases |line|
  {
    hide ProperLine, Render, Body, ProperUnits, IsTail;
    if line == "" || (|line| >= 2 && line[0] == '/' && line[1] == '/') {
      pieces, tail := [], line;
      WholeTail(line, []);
    } else if line[0] == '"' {
      var units, rest, closed := ReadLiteral(line[1..]);
      assert line == "\"" + line[1..];
      if closed {
        var others;
        others, tail := EveryLineDivides(rest);
        pieces := [Literal(units)] + others;
        PushPiece(Literal(units), others, tail, rest);
        assert line == Show(Literal(units)) + rest;
      } else {
        pieces, tail := [], line;
        WholeTail(line, units);
      }
    } else {
      var others;
      others, tail := EveryLineDivides(line[1..]);
      pieces := [Text(line[..1])] + others;
      PushPiece(Text(line[..1]), others, tail, line[1..]);
      assert line == line[..1] + line[1..];
    }
  }

  lemma WholeTail(line: string, units: seq<Unit>)
    requires line == "" || (|line| >= 2 && line[0] == '/' && line[1] == '/') || OpenLiteral(line, units)
    ensures line == Render([]) + line && ProperLine([], line) && IsTail(line)
  {
  }

  /** The balance of any line, by its own division. */
  lemma DeltaOfEveryLine(line: string) returns (pieces: seq<Piece>, tail: string)
    ensures line == Render(pieces) + tail && ProperLine(pieces, tail) && IsTail(tail) && Delta(line) == Balance(pieces)
  {
    pieces, tail := EveryLineDivides(line);
    BalanceOfLine(pieces, tail);
  }

  /** The depth at a line is the sum of the balances of the lines before it. */
  lemma DepthIsTheSum(lines: seq<string>, line: string)
    ensures Depth([]) == 0 && Depth(lines + [line]) == Depth(lines) + Delta(line)
  {
    DepthPush(lines, line);
  }

  // ---------------------------------------------------------------- the line tests

  function Fold(s: string): string { seq(|s|, i requires 0 <= i < |s| => LowerChar(s[i])) }

  /** White space, the quoted key in any case, white space, a colon. */
  predicate EntryShape(line: string, key: string, w: string, q: string, v: string, rest: string) {
    Spaces(w) && Spaces(v) && Fold(q) == "\"" + key + "\"" && line == w + (q + (v + (":" + rest)))
  }

  lemma EntryLineIff(line: string)
    ensures IsKeyText(line) <==>
            exists w, q, v, rest :: EntryShape(line, "model", w, q, v, rest) || EntryShape(line, "small_model", w, q, v, rest)
  {
    KeyLineIff(line, "model");
    KeyLineIff(line, "small_model");
    hide HasKey, EntryShape;
  }

  lemma KeyLineIff(line: string, key: string)
    ensures HasKey(line, key) <==> exists w, q, v, rest :: EntryShape(line, key, w, q, v, rest)
  {
    if HasKey(line, key) {
      var w, q, v, rest := HasKeyShape(line, key);
      assert Fold(q) == Quoted(key);
      assert EntryShape(line, key, w, q, v, rest);
    }
    if w, q, v, rest :| EntryShape(line, key, w, q, v, rest) {
      assert forall i :: 0 <= i < |q| ==> Fold(q)[i] == LowerChar(q[i]);
      HasKeyFrom(w, q, v, rest, key);
    }
  }

  lemma CloserLineIff(line: string)
    ensures IsCloser(line) <==>
            exists k :: 0 <= k < |line| && line[k] in "}]" && Spaces(line[..k])
  {
    var w := TrimStartSplits(line);
    if IsCloser(line) {
      assert line[|w|] in "}]" && line[..|w|] == w;
    }
    if k :| 0 <= k < |line| && line[k] in "}]" && Spaces(line[..k]) {
      TrimStartOf(line[..k], line[k..]);
      assert line == line[..k] + line[k..];
    }
  }

  lemma BlankLineIff(line: string)
    ensures Blank(line) <==> Spaces(line)
  {
    var w := TrimStartSplits(line);
    if Spaces(line) {
      TrimStartOf(line, "");
      assert line + "" == line;
    } else {
      assert TrimStart(line) == "" ==> w == line;
    }
  }

  // ---------------------------------------------------------------- which lines are repaired

  /** Between `i` and the closer `j` there is at least one entry, and otherwise only blank lines. */
  ghost predicate ClosesAfterEntries(lines: seq<string>, i: nat, j: nat) {
    && i < j < |lines| && !IsKeyAt(lines, i) && !IsKeyAt(lines, j) && IsCloser(lines[j]) && !Spaces(lines[i])
    && (forall k :: i < k < j ==> IsKeyAt(lines, k) || Spaces(lines[k]))
    && exists k :: i < k < j && IsKeyAt(lines, k)
  }

  lemma ClosesIff(lines: seq<string>, i: nat, j: nat)
    ensures Closes(lines, i, j) <==> ClosesAfterEntries(lines, i, j)
  {
    hide IsKeyAt, IsCloser, Spaces, Blank;
    forall k | 0 <= k < |lines|
      ensures Blank(lines[k]) <==> Spaces(lines[k])
    {
      BlankLineIff(lines[k]);
    }
    assert forall k :: 0 <= k < |lines| ==> (Solid(lines, k) <==> !IsKeyAt(lines, k) && !Spaces(lines[k]));
    assert Closes(lines, i, j) ==> j < |lines|;
    if j < |lines| {
      BlankIsNoCloser(lines[j]);
      assert IsCloser(lines[j]) ==> !Spaces(lines[j]);
    }
    hide Solid;
  }

  /** A kept line is written as it is, or repaired: exactly when a closer follows it after at least one entry
      and nothing else but blank lines. */
  lemma RepairedIff(lines: seq<string>, i: nat)
    requires i < |lines|
    ensures Final(lines, i, |lines|) ==
            if exists j: nat :: ClosesAfterEntries(lines, i, j) then DropComma(lines[i]) else lines[i]
  {
    forall j: nat
      ensures Closes(lines, i, j) <==> ClosesAfterEntries(lines, i, j)
    {
      ClosesIff(lines, i, j);
    }
    assert forall j: nat :: ClosesAfterEntries(lines, i, j) ==> i < j < |lines|;
    hide Closes, ClosesAfterEntries, DropComma;
  }

  // ---------------------------------------------------------------- one file

  /** An entry behind a nested object is removed, and the comma before it with it. */
  lemma NestedObject() returns (lines: seq<string>)
    ensures lines == ["{", "\"a\": {", "},", "\"model\": \"x\"", "}"]
    ensures Stripped(lines) == ["{", "\"a\": {", "}", "}"]
  {
    lines := ["{", "\"a\": {", "},", "\"model\": \"x\"", "}"];
    NestedKeys(lines);
    NestedFinal(lines);
    hide IsKeyAt, Final, Output;
    assert IsKeyAt(lines, 3);
    assert Output(lines, 0, 5) == [] by {
      NothingOut(lines);
    }
    OutputPush(lines, 0, 5);
    OutputPush(lines, 1, 5);
    OutputPush(lines, 2, 5);
    OutputPush(lines, 3, 5);
    OutputPush(lines, 4, 5);
  }

  lemma NothingOut(lines: seq<string>)
    ensures Output(lines, 0, 5) == []
  {
  }

  lemma NestedTexts()
    ensures Delta("{") == 1 && Delta("\"a\": {") == 1 && Delta("},") == -1
    ensures IsKeyText("\"model\": \"x\"") && !IsKeyText("}") && !IsKeyText("},")
    ensures !Blank("},") && !Blank("}") && IsCloser("}") && DropComma("},") == "}"
  {
    OneText("{", 1);
    OneText("},", -1);
    LiteralThenText();
    var entry := "\"model\": \"x\"";
    assert TrimStart(entry) == entry && entry[7..] == ": \"x\"" && TrimStart(": \"x\"") == ": \"x\"";
    assert TrimStart("}") == "}" && TrimStart("},") == "},";
    assert TrimEnd("},") == "},";
    assert "},"[..1] == "}";
  }

  lemma OneText(t: string, n: int)
    requires ProperText(t, "") && Braces(t) == n
    ensures Delta(t) == n
  {
    TextCounts(t, "");
    assert t + "" == t;
  }

  lemma LiteralThenText()
    ensures Delta("\"a\": {") == 1
  {
    var body := [Plain('a')];
    assert body[1..] == [];
    assert Body(body) == "a";
    PieceCounts(Literal(body), ": {");
    assert Show(Literal(body)) + ": {" == "\"a\": {";
    OneText(": {", 1);
  }

  lemma NestedKeys(lines: seq<string>)
    requires lines == ["{", "\"a\": {", "},", "\"model\": \"x\"", "}"]
    ensures forall i :: 0 <= i < 5 ==> (IsKeyAt(lines, i) <==> i == 3)
  {
    NestedTexts();
    hide IsKeyText, Delta, Blank, IsCloser, DropComma;
    NothingYet(lines, 5);
    PrefixDepth(lines, 0);
    PrefixDepth(lines, 1);
    PrefixDepth(lines, 2);
    assert lines[0] == "{" && lines[1] == "\"a\": {" && lines[2] == "}," && lines[3] == "\"model\": \"x\"" && lines[4] == "}";
    hide Depth;
    assert Depth(lines[..1]) == 1 && Depth(lines[..2]) == 2 && Depth(lines[..3]) == 1;
    FirstLines();
  }

  lemma FirstLines()
    ensures !IsKeyText("{") && !IsKeyText("\"a\": {")
  {
    assert TrimStart("{") == "{" && TrimStart("\"a\": {") == "\"a\": {";
  }

  lemma NestedFinal(lines: seq<string>)
    requires lines == ["{", "\"a\": {", "},", "\"model\": \"x\"", "}"]
    ensures Final(lines, 0, 5) == lines[0] && Final(lines, 1, 5) == lines[1]
    ensures Final(lines, 2, 5) == "}" && Final(lines, 4, 5) == lines[4]
  {
    NestedKeys(lines);
    NestedTexts();
    hide IsKeyText, Delta, Blank, IsCloser, DropComma, IsKeyAt;
    assert lines[2] == "}," && lines[4] == "}" && |lines| == 5;
    assert Solid(lines, 2) && Solid(lines, 4) && !Solid(lines, 3);
    assert Closes(lines, 2, 4) by {
      assert IsKeyAt(lines, 3);
    }
    assert forall i, j :: Closes(lines, i, j) ==> i == 2 && j == 4;
  }
}
