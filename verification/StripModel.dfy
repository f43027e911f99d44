/** The project-config half of scripts/strip-model-settings.ps1: a brace-depth lexer over JSONC lines, and the
    two passes that remove top-level `model` / `small_model` lines and the commas left dangling.

    The file is its lines; white space and case folding are modelled on ASCII. */
module StripModel {
  import opened Sequences
  import opened Texts

  // ---------------------------------------------------------------- Get-BraceDelta

  /** The brace balance of `s` from position `i` on, inside a string literal or not. A backslash in a literal
      skips the next character, `//` outside one ends the line. */
  function Scan(s: string, i: nat, inString: bool): int
    decreases |s| - i
  {
    if i >= |s| then 0
    else if inString then
      if s[i] == '\\' then Scan(s, i + 2, true) else Scan(s, i + 1, s[i] != '"')
    else if s[i] == '"' then Scan(s, i + 1, true)
    else if s[i] == '/' && i + 1 < |s| && s[i + 1] == '/' then 0
    else (if s[i] == '{' then 1 else if s[i] == '}' then -1 else 0) + Scan(s, i + 1, false)
  }

  function Delta(line: string): int { Scan(line, 0, false) }

  method GetBraceDelta(line: string) returns (delta: int)
    ensures delta == Delta(line)
  {
    delta := 0;
    var inString := false;
    var i := 0;
    while i < |line|
      invariant 0 <= i
      invariant delta + Scan(line, i, inString) == Delta(line)
    {
      var ch := line[i];
      if inString {
        if ch == '\\' {
          i := i + 1;
        } else if ch == '"' {
          inString := false;
        }
        i := i + 1;
        continue;
      }
      if ch == '"' {
        inString := true;
        i := i + 1;
        continue;
      }
      if ch == '/' && i + 1 < |line| && line[i + 1] == '/' {
        break;
      }
      if ch == '{' {
        delta := delta + 1;
      } else if ch == '}' {
        delta := delta - 1;
      }
      i := i + 1;
    }
  }

  // ---------------------------------------------------------------- line tests

  predicate Blank(s: string) { TrimStart(s) == "" }

  /** `-match` folds case. */
  predicate StartsWith(s: string, prefix: string) {
    |prefix| <= |s| && forall i :: 0 <= i < |prefix| ==> LowerChar(s[i]) == prefix[i]
  }

  // A line whose first token is the quoted key, followed by a colon.
  predicate HasKey(line: string, key: string) {
    var s := TrimStart(line);
    StartsWith(s, Quoted(key)) && StartsWith(TrimStart(s[|Quoted(key)|..]), ":")
  }

  function Quoted(key: string): string { "\"" + key + "\"" }

  predicate IsKeyText(line: string) { HasKey(line, "model") || HasKey(line, "small_model") }

  // A line whose first character after white space closes an object or an array.
  predicate IsCloser(line: string) {
    var s := TrimStart(line);
    s != "" && (s[0] == '}' || s[0] == ']')
  }

  // White space, two slashes, then no double quote: the whole string.
  predicate IsCommentTail(s: string) {
    var t := TrimStart(s);
    |t| >= 2 && t[0] == '/' && t[1] == '/' && '"' !in s
  }

  /** The last comma of `s` before position `n` that is followed by nothing but a quote-free comment. */
  function CommaBeforeComment(s: string, n: nat): (r: Option<nat>)
    requires n <= |s|
    ensures r.Some? ==> r.value < n && s[r.value] == ',' && IsCommentTail(s[r.value + 1..])
    ensures forall j :: (if r.Some? then r.value else -1) < j < n && s[j] == ',' ==> !IsCommentTail(s[j + 1..])
  {
    if n == 0 then None
    else if s[n - 1] == ',' && IsCommentTail(s[n..]) then Some(n - 1)
    else CommaBeforeComment(s, n - 1)
  }

  /** The repair of the line before a closer: its trailing comma goes, or the one before a trailing comment. */
  function DropComma(line: string): string {
    var t := TrimEnd(line);
    if t != "" && t[|t| - 1] == ',' then t[..|t| - 1]
    else
      var j := CommaBeforeComment(t, |t|);
      if j.Some? then t[..j.value] + t[j.value + 1..] else line
  }

  // ---------------------------------------------------------------- the repair never changes the depth

  predicate Neutral(c: char) { c != '"' && c != '\\' && c != '/' && c != '{' && c != '}' }

  lemma {:induction false} NeutralTail(s: string, t: string, i: nat, inString: bool)
    requires forall k :: 0 <= k < |t| ==> Neutral(t[k])
    ensures Scan(s + t, i, inString) == Scan(s, i, inString)
    decreases |s| + |t| - i
  {
    var u := s + t;
    if i < |u| {
      if i < |s| {
        assert u[i] == s[i];
        assert i + 1 < |s| ==> u[i + 1] == s[i + 1];
        assert |s| <= i + 1 < |u| ==> Neutral(u[i + 1]);
      } else {
        assert Neutral(u[i]);
      }
      if inString {
        if u[i] == '\\' {
          NeutralTail(s, t, i + 2, true);
        } else {
          NeutralTail(s, t, i + 1, u[i] != '"');
        }
      } else {
        NeutralTail(s, t, i + 1, u[i] == '"');
      }
    }
  }

  /** Inside a literal with no quote ahead nothing counts any more. */
  lemma {:induction false} NoQuoteAhead(s: string, i: nat)
    requires forall k :: i <= k < |s| ==> s[k] != '"'
    ensures Scan(s, i, true) == 0
    decreases |s| - i
  {
    if i < |s| {
      NoQuoteAhead(s, if s[i] == '\\' then i + 2 else i + 1);
    }
  }

  /** Outside a literal, white space and then a comment count nothing. */
  lemma {:induction false} CommentAhead(s: string, i: nat)
    requires i <= |s|
    requires var t := TrimStart(s[i..]); |t| >= 2 && t[0] == '/' && t[1] == '/'
    ensures Scan(s, i, false) == 0
    decreases |s| - i
  {
    if IsSpace(s[i]) {
      assert s[i..][1..] == s[i + 1..];
      CommentAhead(s, i + 1);
    }
  }

  lemma CommentTailHasNoQuote(t: string)
    requires IsCommentTail(t)
    ensures forall k :: 0 <= k < |t| ==> t[k] != '"'
    ensures |t| >= 2
  {
    TrimStartShortens(t);
  }

  lemma {:induction false} TrimStartShortens(t: string)
    ensures |TrimStart(t)| <= |t|
  {
    if t != "" {
      TrimStartShortens(t[1..]);
    }
  }

  /** Removing the comma in front of a quote-free comment never changes the balance. */
  lemma {:induction false} CommaBeforeCommentIsNeutral(a: string, b: string, i: nat, inString: bool)
    requires IsCommentTail(b) && i <= |a| + 1 && (i == |a| + 1 ==> inString)
    ensures Scan(a + "," + b, i, inString) == Scan(a + b, i, inString)
    decreases |a| + 1 - i
  {
    var u, v := a + "," + b, a + b;
    CommentTailHasNoQuote(b);
    if i >= |a| {
      if inString {
        NoQuoteAhead(u, i);
        NoQuoteAhead(v, i);
      } else {
        assert u[i + 1..] == b && v[i..] == b;
        CommentAhead(u, i + 1);
        CommentAhead(v, i);
      }
    } else {
      assert u[i] == v[i] == a[i];
      if inString {
        CommaBeforeCommentIsNeutral(a, b, if a[i] == '\\' then i + 2 else i + 1, a[i] == '\\' || a[i] != '"');
      } else if a[i] == '/' && i + 1 == |a| && b[0] == '/' {
        assert v[i + 1] == '/' && u[i + 1] == ',';
        assert u[i + 2..] == b;
        CommentAhead(u, i + 2);
      } else {
        assert i + 1 < |a| ==> u[i + 1] == v[i + 1];
        CommaBeforeCommentIsNeutral(a, b, i + 1, a[i] == '"');
      }
    }
  }

  lemma {:induction false} TrimEndSplits(s: string) returns (w: string)
    ensures s == TrimEnd(s) + w && forall k :: 0 <= k < |w| ==> IsSpace(w[k])
  {
    if s != "" && IsSpace(s[|s| - 1]) {
      var v := TrimEndSplits(s[..|s| - 1]);
      w := v + [s[|s| - 1]];
      assert s == s[..|s| - 1] + [s[|s| - 1]];
    } else {
      w := "";
    }
  }

  /** The repair removes nothing, or one comma (at `|a|`) and trailing white space. */
  lemma DropCommaShape(line: string) returns (a: string, b: string, w: string)
    ensures DropComma(line) == line ||
            (line == a + "," + b + w && DropComma(line) == a + b && (b == "" || IsCommentTail(b)))
    ensures forall k :: 0 <= k < |w| ==> IsSpace(w[k])
  {
    var t := TrimEnd(line);
    w := TrimEndSplits(line);
    a, b := "", "";
    if t != "" && t[|t| - 1] == ',' {
      a := t[..|t| - 1];
      assert t == a + ",";
      assert DropComma(line) == a + b;
    } else {
      var j := CommaBeforeComment(t, |t|);
      if j.Some? {
        a, b := t[..j.value], t[j.value + 1..];
        assert t == a + "," + b;
      }
    }
  }

  /** The repair never changes the balance of its line. */
  lemma DropCommaIsNeutral(line: string)
    ensures Delta(DropComma(line)) == Delta(line)
  {
    var a, b, w := DropCommaShape(line);
    hide DropComma, Scan, IsCommentTail;
    if DropComma(line) != line {
      NeutralTail(a + "," + b, w, 0, false);
      if b == "" {
        assert a + "," + b == a + "," && a + b == a;
        NeutralTail(a, ",", 0, false);
      } else {
        CommaBeforeCommentIsNeutral(a, b, 0, false);
      }
    }
  }

  lemma {:induction false} TrimStartSplits(s: string) returns (w: string)
    ensures s == w + TrimStart(s) && forall k :: 0 <= k < |w| ==> IsSpace(w[k])
    ensures TrimStart(s) != "" ==> !IsSpace(TrimStart(s)[0])
  {
    if s != "" && IsSpace(s[0]) {
      var v := TrimStartSplits(s[1..]);
      w := [s[0]] + v;
      assert s == [s[0]] + s[1..];
    } else {
      w := "";
    }
  }

  lemma {:induction false} TrimStartOf(w: string, s: string)
    requires forall k :: 0 <= k < |w| ==> IsSpace(w[k])
    requires s != "" ==> !IsSpace(s[0])
    ensures TrimStart(w + s) == s
  {
    if w == "" {
      assert w + s == s;
    } else {
      assert (w + s)[1..] == w[1..] + s;
      TrimStartOf(w[1..], s);
    }
  }

  predicate Spaces(w: string) { forall k :: 0 <= k < |w| ==> IsSpace(w[k]) }

  lemma HasKeyShape(s: string, key: string) returns (w: string, q: string, v: string, rest: string)
    requires HasKey(s, key)
    ensures s == w + (q + (v + (":" + rest)))
    ensures Spaces(w) && Spaces(v) && |q| == |Quoted(key)| && StartsWith(q, Quoted(key))
  {
    w := TrimStartSplits(s);
    var r := TrimStart(s);
    q := r[..|Quoted(key)|];
    v := TrimStartSplits(r[|Quoted(key)|..]);
    var c := TrimStart(r[|Quoted(key)|..]);
    rest := c[1..];
    assert c == ":" + rest;
    assert r == q + r[|Quoted(key)|..];
  }

  lemma HasKeyFrom(w: string, q: string, v: string, rest: string, key: string)
    requires Spaces(w) && Spaces(v) && |q| == |Quoted(key)| && StartsWith(q, Quoted(key))
    ensures HasKey(w + (q + (v + (":" + rest))), key)
  {
    var c := ":" + rest;
    assert LowerChar(q[0]) == '"';
    TrimStartOf(w, q + (v + c));
    assert (q + (v + c))[|Quoted(key)|..] == v + c;
    TrimStartOf(v, c);
  }

  /** What follows the colon does not matter. */
  lemma HasKeyPrefix(s: string, t: string, key: string)
    requires HasKey(s, key)
    ensures HasKey(s + t, key)
  {
    var w, q, v, rest := HasKeyShape(s, key);
    HasKeyFrom(w, q, v, rest + t, key);
    hide HasKey;
    assert s + t == w + (q + (v + (":" + (rest + t))));
  }

  /** The colon that makes a line a key line, with no slash and no comma before it. */
  lemma HasKeyEnds(s: string, key: string) returns (p: nat)
    requires HasKey(s, key) && '/' !in key && ',' !in key
    ensures p < |s| && s[p] == ':' && HasKey(s[..p + 1], key)
    ensures forall k :: 0 <= k < p ==> s[k] != '/' && s[k] != ','
  {
    var w, q, v, rest := HasKeyShape(s, key);
    HasKeyFrom(w, q, v, "", key);
    hide HasKey;
    p := |w| + |q| + |v|;
    assert s == (w + q + v) + (":" + rest);
    assert s[..p + 1] == w + (q + (v + (":" + "")));
    Plain(w, q, v, key);
    assert forall k :: 0 <= k < p ==> s[k] == (w + q + v)[k];
  }

  lemma Plain(w: string, q: string, v: string, key: string)
    requires Spaces(w) && Spaces(v) && |q| == |Quoted(key)| && StartsWith(q, Quoted(key))
    requires '/' !in key && ',' !in key
    ensures forall k :: 0 <= k < |w + q + v| ==> (w + q + v)[k] != '/' && (w + q + v)[k] != ','
  {
    assert '/' !in Quoted(key) && ',' !in Quoted(key);
    assert forall k :: 0 <= k < |q| ==> LowerChar(q[k]) == Quoted(key)[k] && Quoted(key)[k] in Quoted(key);
  }

  lemma CommentTailStart(b: string) returns (k: nat)
    requires IsCommentTail(b)
    ensures k < |b| && b[k] == '/' && forall j :: 0 <= j < k ==> IsSpace(b[j])
  {
    var w := TrimStartSplits(b);
    k := |w|;
  }

  lemma HasKeyBeforeComment(a: string, b: string, c: string, key: string)
    requires HasKey(a + b, key) && IsCommentTail(b) && '/' !in key && ',' !in key
    ensures HasKey(a + c, key)
  {
    var p := HasKeyEnds(a + b, key);
    var k := CommentTailStart(b);
    assert (a + b)[|a| + k] == '/';
    assert forall i :: |a| <= i < |a| + |b| ==> (a + b)[i] == b[i - |a|];
    assert p < |a|;
    assert (a + b)[..p + 1] == a[..p + 1];
    assert a + c == a[..p + 1] + (a[p + 1..] + c);
    HasKeyPrefix(a[..p + 1], a[p + 1..] + c, key);
  }

  /** The repair never turns a line into a key line, ... */
  lemma DropCommaMakesNoKey(line: string)
    ensures IsKeyText(DropComma(line)) ==> IsKeyText(line)
  {
    var a, b, w := DropCommaShape(line);
    hide DropComma, HasKey, IsCommentTail;
    if DropComma(line) != line {
      assert line == a + ("," + b + w);
      if b == "" {
        assert a + b == a;
        if HasKey(a, "model") { HasKeyPrefix(a, "," + b + w, "model"); }
        if HasKey(a, "small_model") { HasKeyPrefix(a, "," + b + w, "small_model"); }
      } else {
        if HasKey(a + b, "model") { HasKeyBeforeComment(a, b, "," + b + w, "model"); }
        if HasKey(a + b, "small_model") { HasKeyBeforeComment(a, b, "," + b + w, "small_model"); }
      }
    }
  }

  /** What follows the comma that goes does not matter to a key before it. */
  lemma HasKeyBeforeComma(a: string, b: string, c: string, key: string)
    requires HasKey(a + "," + b, key) && '/' !in key && ',' !in key
    ensures HasKey(a + c, key)
  {
    var s := a + "," + b;
    var p := HasKeyEnds(s, key);
    assert s[|a|] == ',';
    assert p < |a|;
    assert s[..p + 1] == a[..p + 1];
    assert a + c == a[..p + 1] + (a[p + 1..] + c);
    HasKeyPrefix(a[..p + 1], a[p + 1..] + c, key);
  }

  /** ... and never stops one from being one. */
  lemma DropCommaKeepsKey(line: string)
    ensures IsKeyText(DropComma(line)) <==> IsKeyText(line)
  {
    DropCommaMakesNoKey(line);
    var a, b, w := DropCommaShape(line);
    hide DropComma, HasKey, IsCommentTail;
    if DropComma(line) != line {
      assert line == a + "," + (b + w);
      if HasKey(line, "model") { HasKeyBeforeComma(a, b + w, b, "model"); }
      if HasKey(line, "small_model") { HasKeyBeforeComma(a, b + w, b, "small_model"); }
    }
  }

  // ---------------------------------------------------------------- the two passes

  /** The depth after `lines`. */
  function Depth(lines: seq<string>): int {
    if lines == [] then 0 else Depth(lines[..|lines| - 1]) + Delta(lines[|lines| - 1])
  }

  /** Line `i` is a top-level `model` or `small_model` entry. */
  predicate IsKeyAt(lines: seq<string>, i: nat) {
    i < |lines| && Depth(lines[..i]) == 1 && IsKeyText(lines[i])
  }

  predicate Solid(lines: seq<string>, i: nat) {
    i < |lines| && !IsKeyAt(lines, i) && !Blank(lines[i])
  }

  /** `j` closes an object or array right after `i`, but for blank lines and at least one removed entry. */
  predicate Closes(lines: seq<string>, i: nat, j: nat) {
    && i < j && Solid(lines, i) && Solid(lines, j) && IsCloser(lines[j])
    && (forall k :: i < k < j ==> !Solid(lines, k))
    && (exists k :: i < k < j && IsKeyAt(lines, k))
  }

  /** What the first `n` lines make of line `i`: it loses its dangling comma if one of them closes after it. */
  function Final(lines: seq<string>, i: nat, n: nat): string
    requires i < |lines|
  {
    if exists j :: i < j < n && Closes(lines, i, j) then DropComma(lines[i]) else lines[i]
  }

  /** The output for lines before `i` when `n` lines have been seen. */
  function Output(lines: seq<string>, i: nat, n: nat): seq<string>
    requires i <= |lines|
  {
    if i == 0 then []
    else Output(lines, i - 1, n) + (if IsKeyAt(lines, i - 1) then [] else [Final(lines, i - 1, n)])
  }

  method Classify(lines: seq<string>) returns (isKeyLine: seq<bool>)
    ensures |isKeyLine| == |lines|
    ensures forall i :: 0 <= i < |lines| ==> (isKeyLine[i] <==> IsKeyAt(lines, i))
  {
    hide IsKeyText;
    var depth := 0;
    isKeyLine := [];
    for i := 0 to |lines|
      invariant depth == Depth(lines[..i]) && |isKeyLine| == i
      invariant forall k :: 0 <= k < i ==> (isKeyLine[k] <==> IsKeyAt(lines, k))
    {
      assert lines[..i + 1][..i] == lines[..i];
      isKeyLine := isKeyLine + [depth == 1 && IsKeyText(lines[i])];
      var delta := GetBraceDelta(lines[i]);
      depth := depth + delta;
    }
  }

  lemma {:induction false} OutputSame(lines: seq<string>, m: nat, n: nat, n': nat)
    requires m <= |lines|
    requires forall l :: 0 <= l < m ==> Final(lines, l, n) == Final(lines, l, n')
    ensures Output(lines, m, n) == Output(lines, m, n')
  {
    if m > 0 {
      OutputSame(lines, m - 1, n, n');
    }
  }

  lemma {:induction false} OutputSize(lines: seq<string>, m: nat, n: nat, n': nat)
    requires m <= |lines|
    ensures |Output(lines, m, n)| == |Output(lines, m, n')|
  {
    if m > 0 {
      OutputSize(lines, m - 1, n, n');
    }
  }

  /** Seeing line `n` as well changes the fate of no line but the last solid one before it. */
  lemma FinalStep(lines: seq<string>, l: nat, last: int, n: nat)
    requires l < n < |lines| && -1 <= last < n && (last >= 0 ==> Solid(lines, last))
    requires forall k :: last < k < n ==> !Solid(lines, k)
    ensures l != last ==> Final(lines, l, n + 1) == Final(lines, l, n)
    ensures l == last ==> Final(lines, l, n) == lines[l]
    ensures l == last ==> Final(lines, l, n + 1) == if Closes(lines, l, n) then DropComma(lines[l]) else lines[l]
  {
    hide DropComma, IsKeyAt, IsCloser, Solid;
  }

  lemma {:induction false} OutputStep(lines: seq<string>, m: nat, last: nat, n: nat)
    requires last < m <= n < |lines| && Solid(lines, last)
    requires forall k :: last < k < n ==> !Solid(lines, k)
    ensures var pos := |Output(lines, last, n)|;
            && pos < |Output(lines, m, n)| && Output(lines, m, n)[pos] == lines[last]
            && Output(lines, m, n + 1) ==
               Output(lines, m, n)[pos := if Closes(lines, last, n) then DropComma(lines[last]) else lines[last]]
  {
    hide DropComma, IsKeyAt, Closes, Final;
    if m == last + 1 {
      forall l | 0 <= l < last
        ensures Final(lines, l, n + 1) == Final(lines, l, n)
      {
        FinalStep(lines, l, last, n);
      }
      OutputSame(lines, last, n + 1, n);
    } else {
      OutputStep(lines, m - 1, last, n);
      FinalStep(lines, m - 1, last, n);
    }
    FinalStep(lines, last, last, n);
    assert !IsKeyAt(lines, last);
  }

  /** No solid line yet: nothing to repair. */
  lemma OutputStepNoSolid(lines: seq<string>, m: nat, n: nat)
    requires m <= n < |lines| && forall k :: 0 <= k < n ==> !Solid(lines, k)
    ensures Output(lines, m, n + 1) == Output(lines, m, n)
  {
    forall l | 0 <= l < m
      ensures Final(lines, l, n + 1) == Final(lines, l, n)
    {
      FinalStep(lines, l, -1, n);
    }
    OutputSame(lines, m, n + 1, n);
  }

  /** What the second pass remembers between lines: where the last solid line went, and whether an entry was
      removed since. */
  ghost predicate Remembers(lines: seq<string>, i: nat, out: seq<string>, lastKeptIdx: int, afterRemovedRun: bool, last: int) {
    && i <= |lines| && out == Output(lines, i, i)
    && -1 <= last < i && (forall k :: last < k < i ==> !Solid(lines, k))
    && (if last < 0 then lastKeptIdx == -1
        else Solid(lines, last) && lastKeptIdx == |Output(lines, last, i)| && lastKeptIdx < |out| && out[lastKeptIdx] == lines[last])
    && (afterRemovedRun <==> exists k :: last < k < i && IsKeyAt(lines, k))
  }

  /** A removed line changes the fate of none before it. */
  lemma KeyChangesNothing(lines: seq<string>, i: nat, last: int)
    requires i < |lines| && !Solid(lines, i) && -1 <= last < i && (last >= 0 ==> Solid(lines, last))
    requires forall k :: last < k < i ==> !Solid(lines, k)
    ensures Output(lines, i, i + 1) == Output(lines, i, i)
  {
    assert last >= 0 ==> !Closes(lines, last, i);
    hide Solid, Closes, IsKeyAt, Output, Final;
    if last >= 0 {
      OutputStep(lines, i, last, i);
      var was := Output(lines, i, i);
      assert was[|Output(lines, last, i)| := lines[last]] == was;
    } else {
      OutputStepNoSolid(lines, i, i);
    }
  }

  lemma KeyIsNotSolid(lines: seq<string>, i: nat)
    requires IsKeyAt(lines, i)
    ensures !Solid(lines, i)
  {
  }

  lemma OutputPush(lines: seq<string>, i: nat, n: nat)
    requires i < |lines|
    ensures IsKeyAt(lines, i) ==> Output(lines, i + 1, n) == Output(lines, i, n)
    ensures !IsKeyAt(lines, i) ==> Output(lines, i + 1, n) == Output(lines, i, n) + [Final(lines, i, n)]
  {
    hide IsKeyAt, Final;
  }

  lemma KeyKeepsOutput(lines: seq<string>, i: nat, last: int)
    requires i < |lines| && IsKeyAt(lines, i) && -1 <= last < i && (last >= 0 ==> Solid(lines, last))
    requires forall k :: last < k < i ==> !Solid(lines, k)
    ensures Output(lines, i + 1, i + 1) == Output(lines, i, i)
    ensures last >= 0 ==> |Output(lines, last, i + 1)| == |Output(lines, last, i)|
    ensures !Solid(lines, i)
  {
    hide Solid, IsKeyAt, Final, Output;
    KeyIsNotSolid(lines, i);
    OutputPush(lines, i, i + 1);
    KeyChangesNothing(lines, i, last);
    if last >= 0 {
      OutputSize(lines, last, i, i + 1);
    }
  }

  lemma KeyStep(lines: seq<string>, i: nat, out: seq<string>, lastKeptIdx: int, after: bool, last: int)
    requires Remembers(lines, i, out, lastKeptIdx, after, last) && i < |lines| && IsKeyAt(lines, i)
    ensures Remembers(lines, i + 1, out, lastKeptIdx, true, last)
  {
    hide Solid, IsKeyAt, Output;
    KeyKeepsOutput(lines, i, last);
  }

  /** The line kept: the comma repaired where the code repairs it, then the line itself. */
  function Repaired(out: seq<string>, line: string, lastKeptIdx: int, after: bool): seq<string>
    requires -1 <= lastKeptIdx < |out|
  {
    if IsCloser(line) && after && lastKeptIdx >= 0 then out[lastKeptIdx := DropComma(out[lastKeptIdx])] else out
  }

  /** A kept line takes effect on the output as the code's repair does. */
  lemma KeptOutput(lines: seq<string>, i: nat, last: int, after: bool)
    requires i < |lines| && !IsKeyAt(lines, i) && -1 <= last < i && (last >= 0 ==> Solid(lines, last))
    requires forall k :: last < k < i ==> !Solid(lines, k)
    requires after <==> exists k :: last < k < i && IsKeyAt(lines, k)
    ensures Solid(lines, i) <==> !Blank(lines[i])
    ensures var at := if last < 0 then -1 else |Output(lines, last, i)|;
            && (last >= 0 ==> at < |Output(lines, i, i)| && |Output(lines, last, i + 1)| == at)
            && Output(lines, i, i + 1) == Repaired(Output(lines, i, i), lines[i], at, after)
            && Output(lines, i + 1, i + 1) == Output(lines, i, i + 1) + [lines[i]]
  {
    BlankIsNoCloser(lines[i]);
    hide Blank, IsCloser, DropComma;
    assert Solid(lines, i) <==> !Blank(lines[i]);
    assert last >= 0 ==> (Closes(lines, last, i) <==> IsCloser(lines[i]) && after);
    assert Final(lines, i, i + 1) == lines[i];
    hide Solid, IsKeyAt, Final, Output, Closes;
    OutputPush(lines, i, i + 1);
    if last >= 0 {
      OutputStep(lines, i, last, i);
      OutputSize(lines, last, i, i + 1);
      var was := Output(lines, i, i);
      assert was[|Output(lines, last, i)| := lines[last]] == was;
    } else {
      OutputStepNoSolid(lines, i, i);
    }
  }

  lemma KeptStep(lines: seq<string>, i: nat, out: seq<string>, lastKeptIdx: int, after: bool, last: int)
    requires Remembers(lines, i, out, lastKeptIdx, after, last) && i < |lines| && !IsKeyAt(lines, i)
    ensures -1 <= lastKeptIdx < |out|
    ensures var n := Repaired(out, lines[i], lastKeptIdx, after) + [lines[i]];
            if Blank(lines[i]) then Remembers(lines, i + 1, n, lastKeptIdx, after, last)
            else Remembers(lines, i + 1, n, |n| - 1, false, i)
  {
    hide Solid, IsKeyAt, Output, DropComma, Blank, IsCloser;
    BlankIsNoCloser(lines[i]);
    KeptOutput(lines, i, last, after);
  }

  lemma BlankIsNoCloser(line: string)
    ensures Blank(line) ==> !IsCloser(line)
  {
  }

  /** Pass 2. */
  method RemoveKeyLines(lines: seq<string>, isKeyLine: seq<bool>) returns (out: seq<string>)
    requires |isKeyLine| == |lines|
    requires forall i :: 0 <= i < |lines| ==> (isKeyLine[i] <==> IsKeyAt(lines, i))
    ensures out == Output(lines, |lines|, |lines|)
  {
    hide Remembers, DropComma, IsCloser, Output, Final;
    out := [];
    var lastKeptIdx: int := -1;
    var afterRemovedRun := false;
    ghost var last: int := -1;
    StartRemembers(lines);
    for i := 0 to |lines|
      invariant Remembers(lines, i, out, lastKeptIdx, afterRemovedRun, last)
    {
      var line := lines[i];
      if isKeyLine[i] {
        KeyStep(lines, i, out, lastKeptIdx, afterRemovedRun, last);
        afterRemovedRun := true;
        continue;
      }
      KeptStep(lines, i, out, lastKeptIdx, afterRemovedRun, last);
      if IsCloser(line) && afterRemovedRun && lastKeptIdx >= 0 {
        out := out[lastKeptIdx := DropComma(out[lastKeptIdx])];
      }
      out := out + [line];
      if !Blank(line) {
        lastKeptIdx := |out| - 1;
        afterRemovedRun := false;
        last := i;
      }
    }
    RemembersOutput(lines, out, lastKeptIdx, afterRemovedRun, last);
  }

  lemma StartRemembers(lines: seq<string>)
    ensures Remembers(lines, 0, [], -1, false, -1)
  {
  }

  lemma RemembersOutput(lines: seq<string>, out: seq<string>, lastKeptIdx: int, after: bool, last: int)
    requires Remembers(lines, |lines|, out, lastKeptIdx, after, last)
    ensures out == Output(lines, |lines|, |lines|)
  {
  }

  predicate HasKeyLine(lines: seq<string>) { exists i :: 0 <= i < |lines| && IsKeyAt(lines, i) }

  /** The lines written back: a file without top-level entries is left alone. */
  function Stripped(lines: seq<string>): seq<string> {
    if HasKeyLine(lines) then Output(lines, |lines|, |lines|) else lines
  }

  method StripConfig(lines: seq<string>) returns (out: seq<string>, touched: bool)
    ensures out == Stripped(lines)
    ensures touched <==> HasKeyLine(lines)
  {
    hide Output, IsKeyAt;
    var isKeyLine := Classify(lines);
    if true !in isKeyLine {
      assert forall i :: 0 <= i < |lines| ==> isKeyLine[i] in isKeyLine;
      return lines, false;
    }
    var k :| 0 <= k < |isKeyLine| && isKeyLine[k];
    out := RemoveKeyLines(lines, isKeyLine);
    return out, true;
  }

  /** The lexer works on whole lines: an entry on the line that opens the object is not seen. */
  lemma OneLineFileIsLeftAlone(line: string)
    ensures Stripped([line]) == [line]
  {
    hide IsKeyText;
    assert [line][..0] == [];
  }

  // ---------------------------------------------------------------- what stripping guarantees

  /** The balance of the entries removed before line `i`. */
  function RemovedDepth(lines: seq<string>, i: nat): int
    requires i <= |lines|
  {
    if i == 0 then 0
    else RemovedDepth(lines, i - 1) + (if IsKeyAt(lines, i - 1) then Delta(lines[i - 1]) else 0)
  }

  lemma FinalIsNeutral(lines: seq<string>, i: nat, n: nat)
    requires i < |lines|
    ensures Delta(Final(lines, i, n)) == Delta(lines[i])
    ensures IsKeyText(Final(lines, i, n)) <==> IsKeyText(lines[i])
  {
    DropCommaIsNeutral(lines[i]);
    DropCommaKeepsKey(lines[i]);
  }

  lemma DepthPush(s: seq<string>, x: string)
    ensures Depth(s + [x]) == Depth(s) + Delta(x)
  {
    assert (s + [x])[..|s|] == s;
  }

  lemma PrefixDepth(lines: seq<string>, i: nat)
    requires i < |lines|
    ensures Depth(lines[..i + 1]) == Depth(lines[..i]) + Delta(lines[i])
  {
    assert lines[..i + 1] == lines[..i] + [lines[i]];
    DepthPush(lines[..i], lines[i]);
  }

  lemma OutputDepthStep(lines: seq<string>, i: nat, n: nat)
    requires i < |lines|
    ensures Depth(Output(lines, i + 1, n)) ==
            Depth(Output(lines, i, n)) + (if IsKeyAt(lines, i) then 0 else Delta(lines[i]))
  {
    hide Depth, Delta, IsKeyAt, Final;
    FinalIsNeutral(lines, i, n);
    if IsKeyAt(lines, i) {
      assert Output(lines, i + 1, n) == Output(lines, i, n);
    } else {
      DepthPush(Output(lines, i, n), Final(lines, i, n));
    }
  }

  lemma RemovedDepthPush(lines: seq<string>, i: nat)
    requires i < |lines|
    ensures RemovedDepth(lines, i + 1) == RemovedDepth(lines, i) + (if IsKeyAt(lines, i) then Delta(lines[i]) else 0)
  {
    hide IsKeyAt, Delta;
  }

  lemma NothingYet(lines: seq<string>, n: nat)
    ensures Depth(Output(lines, 0, n)) == 0 && Depth(lines[..0]) == 0 && RemovedDepth(lines, 0) == 0
  {
    hide Delta, IsKeyAt, Final;
  }

  /** Every surviving line stands at its old depth less the balance of what was removed before it. */
  lemma {:induction false} OutputDepth(lines: seq<string>, i: nat, n: nat)
    requires i <= |lines|
    ensures Depth(Output(lines, i, n)) == Depth(lines[..i]) - RemovedDepth(lines, i)
  {
    hide Depth, Delta, IsKeyAt, Output, RemovedDepth;
    if i == 0 {
      NothingYet(lines, n);
    } else {
      OutputDepth(lines, i - 1, n);
      OutputDepthStep(lines, i - 1, n);
      PrefixDepth(lines, i - 1);
      RemovedDepthPush(lines, i - 1);
    }
  }

  lemma {:induction false} OutputPrefix(lines: seq<string>, i: nat, m: nat, n: nat)
    requires i <= m <= |lines|
    ensures Output(lines, i, n) <= Output(lines, m, n)
  {
    if i < m {
      OutputPrefix(lines, i, m - 1, n);
    }
  }

  /** The line that output position `p` came from. */
  lemma {:induction false} Origin(lines: seq<string>, m: nat, n: nat, p: nat) returns (i: nat)
    requires m <= |lines| && p < |Output(lines, m, n)|
    ensures i < m && !IsKeyAt(lines, i) && |Output(lines, i, n)| == p && Output(lines, m, n)[p] == Final(lines, i, n)
  {
    if p < |Output(lines, m - 1, n)| {
      i := Origin(lines, m - 1, n, p);
    } else {
      i := m - 1;
    }
  }

  /** Where a surviving line ends up, and at what depth. */
  lemma OutputAt(lines: seq<string>, i: nat, n: nat)
    requires i < |lines| && !IsKeyAt(lines, i)
    ensures var p, out := |Output(lines, i, n)|, Output(lines, |lines|, n);
            && p < |out| && out[p] == Final(lines, i, n)
            && Depth(out[..p]) == Depth(lines[..i]) - RemovedDepth(lines, i)
  {
    OutputDepth(lines, i, n);
    OutputPrefix(lines, i, |lines|, n);
    OutputPrefix(lines, i + 1, |lines|, n);
    assert Output(lines, i + 1, n) == Output(lines, i, n) + [Final(lines, i, n)];
    hide Output, Depth, RemovedDepth, Final, IsKeyAt;
    var out := Output(lines, |lines|, n);
    assert out[..|Output(lines, i, n)|] == Output(lines, i, n);
  }

  /** Survivors are the original lines in order, each at most repaired, at the depth that remains once the
      balance of the removed entries is taken off. */
  lemma SurvivorsInOrder(lines: seq<string>, p: nat, q: nat) returns (i: nat, j: nat)
    requires p < q < |Output(lines, |lines|, |lines|)|
    ensures i < j < |lines| && !IsKeyAt(lines, i) && !IsKeyAt(lines, j)
    ensures var out := Output(lines, |lines|, |lines|);
            && out[p] == Final(lines, i, |lines|) && out[q] == Final(lines, j, |lines|)
            && Depth(out[..p]) == Depth(lines[..i]) - RemovedDepth(lines, i)
  {
    var n := |lines|;
    i := Origin(lines, n, n, p);
    j := Origin(lines, n, n, q);
    OutputAt(lines, i, n);
    hide Output, Depth, RemovedDepth, Final, IsKeyAt;
    if j <= i {
      OutputPrefix(lines, j, i, n);
    }
  }

  /** A second pass has nothing to remove exactly when no other line of the file with the text of an entry
      comes to stand at depth 1 once the balance of the removed entries before it is taken off. */
  lemma StrippingIsCompleteIff(lines: seq<string>)
    requires HasKeyLine(lines)
    ensures !HasKeyLine(Stripped(lines)) <==>
            forall i :: 0 <= i < |lines| && !IsKeyAt(lines, i) && IsKeyText(lines[i]) ==>
              Depth(lines[..i]) - RemovedDepth(lines, i) != 1
  {
    var n := |lines|;
    var out := Output(lines, n, n);
    hide Output, Depth, RemovedDepth, Final, IsKeyText;
    forall p | 0 <= p < |out| && IsKeyAt(out, p)
      ensures exists i :: 0 <= i < n && !IsKeyAt(lines, i) && IsKeyText(lines[i]) &&
                          Depth(lines[..i]) - RemovedDepth(lines, i) == 1
    {
      var i := Origin(lines, n, n, p);
      OutputAt(lines, i, n);
      FinalIsNeutral(lines, i, n);
    }
    forall i | 0 <= i < n && !IsKeyAt(lines, i)
      ensures var p := |Output(lines, i, n)|;
              p < |out| && (IsKeyAt(out, p) <==>
                IsKeyText(lines[i]) && Depth(lines[..i]) - RemovedDepth(lines, i) == 1)
    {
      OutputAt(lines, i, n);
      FinalIsNeutral(lines, i, n);
    }
  }

  lemma WitnessLines(open: string, entry: string, inner: string)
    requires open == "{" && entry == "\"model\":{" && inner == "\"model\":1"
    ensures IsKeyText(entry) && IsKeyText(inner) && !IsKeyText(open) && !IsKeyText("}")
    ensures Delta(open) == Delta(entry) == 1
  {
    assert TrimStart(entry) == entry && entry[7..] == ":{" && TrimStart(":{") == ":{";
    assert TrimStart(inner) == inner && inner[7..] == ":1" && TrimStart(":1") == ":1";
    assert TrimStart(open) == open && TrimStart("}") == "}";
    assert Scan(open, 1, false) == 0;
    assert |entry| == 9 && entry[7] == ':' && entry[8] == '{';
    assert Scan(entry, 9, false) == 0 && Scan(entry, 8, false) == 1 && Scan(entry, 7, false) == 1;
    assert Scan(entry, 6, true) == 1 && Scan(entry, 5, true) == 1 && Scan(entry, 4, true) == 1;
    assert Scan(entry, 3, true) == 1 && Scan(entry, 2, true) == 1 && Scan(entry, 1, true) == 1;
  }

  /** An entry whose value opens an object is not balanced: its inner key moves up to the top level. */
  lemma UnbalancedEntryWitness() returns (lines: seq<string>)
    ensures HasKeyLine(lines) && HasKeyLine(Stripped(lines))
  {
    var open, entry, inner := "{", "\"model\":{", "\"model\":1";
    WitnessLines(open, entry, inner);
    hide IsKeyText, Delta, Scan, Blank, IsCloser, DropComma;
    lines := [open, entry, inner, "}", "}"];
    PrefixDepth(lines, 0);
    PrefixDepth(lines, 1);
    assert Depth(lines[..0]) == 0 && Depth(lines[..1]) == 1 && Depth(lines[..2]) == 2;
    hide Depth;
    assert !IsKeyAt(lines, 0) && IsKeyAt(lines, 1) && !IsKeyAt(lines, 2) && !IsKeyAt(lines, 3);
    hide IsKeyAt, Solid;
    assert forall j :: !Closes(lines, 2, j);
    assert Final(lines, 2, 5) == inner;
    NothingYet(lines, 5);
    hide RemovedDepth;
    RemovedDepthPush(lines, 0);
    RemovedDepthPush(lines, 1);
    assert RemovedDepth(lines, 1) == 0 && RemovedDepth(lines, 2) == 1;
    hide Final, Closes, Stripped;
    StrippingIsCompleteIff(lines);
  }

  /** When every removed entry is balanced, survivors keep their depth, none is an entry any more, and
      stripping again changes nothing. */
  lemma BalancedStripIsIdempotent(lines: seq<string>)
    requires forall i :: 0 <= i < |lines| && IsKeyAt(lines, i) ==> Delta(lines[i]) == 0
    ensures forall i :: 0 <= i <= |lines| ==> Depth(Output(lines, i, |lines|)) == Depth(lines[..i])
    ensures !HasKeyLine(Stripped(lines))
    ensures Stripped(Stripped(lines)) == Stripped(lines)
  {
    forall i | 0 <= i <= |lines|
      ensures RemovedDepth(lines, i) == 0 && Depth(Output(lines, i, |lines|)) == Depth(lines[..i])
    {
      NothingRemoved(lines, i);
      OutputDepth(lines, i, |lines|);
    }
    if HasKeyLine(lines) {
      StrippingIsCompleteIff(lines);
    }
  }

  lemma {:induction false} NothingRemoved(lines: seq<string>, i: nat)
    requires i <= |lines|
    requires forall i :: 0 <= i < |lines| && IsKeyAt(lines, i) ==> Delta(lines[i]) == 0
    ensures RemovedDepth(lines, i) == 0
  {
    if i > 0 {
      NothingRemoved(lines, i - 1);
    }
  }
}
