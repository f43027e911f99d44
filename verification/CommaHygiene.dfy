/** Which dangling commas the strip pass repairs (scripts/strip-model-settings.ps1): the comma that the code of a
    line ends in, its comment left aside, judged by the brace lexer's own notion of a comment. */
module CommaHygiene {
  import opened Sequences
  import opened Texts
  import opened StripModel

  // ---------------------------------------------------------------- code and comment

  /** Where the comment starts that the lexer of `Scan` finds from `i` on; the length when there is none. */
  function CodeEnd(s: string, i: nat, inString: bool): (r: nat)
    ensures r <= |s|
    ensures r < |s| ==> i <= r && r + 1 < |s| && s[r] == '/' && s[r + 1] == '/'
    decreases |s| - i
  {
    if i >= |s| then |s|
    else if inString then
      if s[i] == '\\' then CodeEnd(s, i + 2, true) else CodeEnd(s, i + 1, s[i] != '"')
    else if s[i] == '"' then CodeEnd(s, i + 1, true)
    else if s[i] == '/' && i + 1 < |s| && s[i + 1] == '/' then i
    else CodeEnd(s, i + 1, false)
  }

  /** The text before the comment, trimmed. */
  function Code(line: string): string { TrimEnd(line[..CodeEnd(line, 0, false)]) }

  predicate EndsIn(s: string, c: char) { s != "" && s[|s| - 1] == c }

  /** The last thing the code of the line says is a comma. */
  predicate Dangles(line: string) { EndsIn(Code(line), ',') }

  predicate StartsComment(s: string) {
    var t := TrimStart(s);
    |t| >= 2 && t[0] == '/' && t[1] == '/'
  }

  /** The comment of the line, trimmed; empty when there is none. */
  function Comment(line: string): string
  {
    var t := TrimEnd(line);
    t[CodeEnd(t, 0, false)..]
  }

  /** Nothing in the comment keeps the repair from the comma before it: no quote, no comma at its end, and no
      comma that another comment start follows. */
  predicate Harmless(comment: string) {
    && '"' !in comment && !EndsIn(comment, ',')
    && forall k :: 0 <= k < |comment| && comment[k] == ',' ==> !StartsComment(comment[k + 1..])
  }

  /** The repair takes the comma that the code ends in. */
  predicate Taken(line: string) { Dangles(line) && Harmless(Comment(line)) }

  /** The code once its last comma is gone. A slash before the comma joins a comment right behind it. */
  function Left(line: string): string
    requires Dangles(line)
  {
    var code := Code(line);
    var rest := code[..|code| - 1];
    if Comment(line) != "" && CodeEnd(line, 0, false) == |code| && EndsIn(rest, '/') then TrimEnd(rest[..|rest| - 1])
    else TrimEnd(rest)
  }

  /** What the code says after the repair. */
  predicate StillDangles(line: string) {
    Dangles(line) && !(Taken(line) && !EndsIn(Left(line), ','))
  }

  /** No code is left on the line. */
  predicate Emptied(line: string) { Code(line) == "" || (Taken(line) && Left(line) == "") }

  // ---------------------------------------------------------------- the lexer

  predicate CommentAt(s: string, i: nat) {
    i + 1 < |s| && s[i] == '/' && s[i + 1] == '/'
  }

  function NextIndex(c: char, i: nat, inString: bool): nat { if inString && c == '\\' then i + 2 else i + 1 }

  predicate NextInString(c: char, inString: bool) { if inString then c == '\\' || c != '"' else c == '"' }

  lemma LexStep(s: string, i: nat, inString: bool)
    requires i < |s|
    ensures CodeEnd(s, i, inString) ==
            if !inString && CommentAt(s, i) then i
            else CodeEnd(s, NextIndex(s[i], i, inString), NextInString(s[i], inString))
  {
  }

  lemma {:induction false} CodeEndOfPrefix(s: string, n: nat, i: nat, inString: bool)
    requires n <= |s|
    ensures CodeEnd(s[..n], i, inString) == if CodeEnd(s, i, inString) + 2 <= n then CodeEnd(s, i, inString) else n
    decreases |s| - i
  {
    if i < n {
      hide CodeEnd;
      assert s[..n][i] == s[i];
      assert CommentAt(s[..n], i) <==> CommentAt(s, i) && i + 1 < n;
      LexStep(s, i, inString);
      LexStep(s[..n], i, inString);
      if i + 1 == n {
        PastTheEnd(s, n, NextIndex(s[i], i, inString), NextInString(s[i], inString));
      } else if inString || !CommentAt(s, i) {
        CodeEndOfPrefix(s, n, NextIndex(s[i], i, inString), NextInString(s[i], inString));
      }
    } else {
      PastTheEnd(s, n, i, inString);
    }
  }

  lemma PastTheEnd(s: string, n: nat, i: nat, inString: bool)
    requires n <= |s| && n <= i
    ensures CodeEnd(s[..n], i, inString) == n
    ensures CodeEnd(s, i, inString) + 2 <= n ==> false
  {
  }

  /** A comment stays where it starts when nothing changes before its second slash. */
  lemma CommentStays(s: string, d: string, n: nat)
    requires n <= |s| && n <= |d| && s[..n] == d[..n] && CodeEnd(s, 0, false) + 2 <= n
    ensures CodeEnd(d, 0, false) == CodeEnd(s, 0, false)
  {
    CodeEndOfPrefix(s, n, 0, false);
    CodeEndOfPrefix(d, n, 0, false);
  }

  lemma {:induction false} NoCommentInString(s: string, i: nat)
    requires forall k :: i <= k < |s| ==> s[k] != '"'
    ensures CodeEnd(s, i, true) == |s|
    decreases |s| - i
  {
    if i < |s| {
      NoCommentInString(s, if s[i] == '\\' then i + 2 else i + 1);
    }
  }

  lemma {:induction false} CommentAfterSpaces(s: string, i: nat, n: nat)
    requires i <= n && n + 1 < |s| && s[n] == '/' && s[n + 1] == '/'
    requires forall k :: i <= k < n ==> IsSpace(s[k])
    ensures CodeEnd(s, i, false) == n
    decreases n - i
  {
    if i < n {
      CommentAfterSpaces(s, i + 1, n);
    }
  }

  /** `d` is `s` without the comma at `n`, behind which come `m` blanks and a quote-free comment. */
  ghost predicate CutsComma(s: string, d: string, n: nat, m: nat) {
    && |s| == |d| + 1 && n + m + 2 <= |d| && s[n] == ','
    && (forall k :: 0 <= k < n ==> s[k] == d[k])
    && (forall k :: n <= k < |d| ==> s[k + 1] == d[k] && d[k] != '"')
    && (forall k :: n <= k < n + m ==> IsSpace(d[k]))
    && d[n + m] == '/' && d[n + m + 1] == '/'
  }

  lemma AtTheComma(s: string, d: string, n: nat, m: nat)
    requires CutsComma(s, d, n, m)
    ensures CodeEnd(s, n, false) == n + 1 + m && CodeEnd(d, n, false) == n + m
  {
    hide IsSpace;
    assert forall k :: n + 1 <= k < n + 1 + m ==> s[k] == d[k - 1];
    assert s[n + m + 1] == d[n + m] && s[n + m + 2] == d[n + m + 1];
    CommentAfterSpaces(s, n + 1, n + 1 + m);
    CommentAfterSpaces(d, n, n + m);
  }

  lemma InLiteral(s: string, d: string, n: nat, m: nat, i: nat)
    requires CutsComma(s, d, n, m) && i >= n
    ensures CodeEnd(s, i, true) == |s| && CodeEnd(d, i, true) == |d|
  {
    hide CodeEnd, IsSpace;
    assert forall k :: n < k < |s| ==> s[k] == d[k - 1];
    NoCommentInString(s, i);
    NoCommentInString(d, i);
  }

  lemma CutFacts(s: string, d: string, n: nat, m: nat, i: nat)
    requires CutsComma(s, d, n, m)
    ensures |s| == |d| + 1 && n + m + 2 <= |d| && s[n] == ',' && (d[n] == '/' <==> m == 0)
    ensures i < n ==> s[i] == d[i]
    ensures i + 1 < n ==> s[i + 1] == d[i + 1]
  {
  }

  /** Cutting a comma before a quote-free comment: either an open literal hides that comment, or an earlier one
      does, or it is the comment of the line before and after, but for a slash before the comma that joins it. */
  lemma {:induction false} CommaBeforeTheComment(s: string, d: string, n: nat, m: nat, i: nat, inString: bool)
    requires CutsComma(s, d, n, m)
    requires i <= n + 1 && (i == n + 1 ==> inString)
    ensures || (CodeEnd(s, i, inString) == |s| && CodeEnd(d, i, inString) == |d|)
            || CodeEnd(s, i, inString) + 1 < n
            || (CodeEnd(s, i, inString) == n + 1 + m
                && CodeEnd(d, i, inString) == if m == 0 && i < n && d[n - 1] == '/' then n - 1 else n + m)
    decreases n + 1 - i
  {
    hide CutsComma, CodeEnd;
    CutFacts(s, d, n, m, i);
    if i >= n {
      if inString {
        InLiteral(s, d, n, m, i);
      } else {
        AtTheComma(s, d, n, m);
      }
    } else {
      LexStep(s, i, inString);
      LexStep(d, i, inString);
      var next := NextIndex(s[i], i, inString);
      if next < n {
        if inString || !CommentAt(s, i) {
          CommaBeforeTheComment(s, d, n, m, next, NextInString(s[i], inString));
        }
      } else if NextInString(s[i], inString) {
        InLiteral(s, d, n, m, next);
      } else {
        AtTheComma(s, d, n, m);
      }
    }
  }

  // ---------------------------------------------------------------- trimming

  predicate Trimmed(t: string) { t != "" ==> !IsSpace(t[|t| - 1]) }

  lemma {:induction false} TrimEndOf(s: string, w: string)
    requires Spaces(w) && (s != "" ==> !IsSpace(s[|s| - 1]))
    ensures TrimEnd(s + w) == s
  {
    if w == "" {
      assert s + w == s;
    } else {
      assert (s + w)[..|s + w| - 1] == s + w[..|w| - 1];
      TrimEndOf(s, w[..|w| - 1]);
    }
  }

  lemma {:induction false} TrimEndIsTight(s: string)
    ensures TrimEnd(s) != "" ==> !IsSpace(TrimEnd(s)[|TrimEnd(s)| - 1])
  {
    if s != "" && IsSpace(s[|s| - 1]) {
      TrimEndIsTight(s[..|s| - 1]);
    }
  }

  /** Trailing white space is neither code nor comment. */
  lemma CodeEndOfPadded(t: string, w: string)
    requires Trimmed(t) && Spaces(w)
    ensures CodeEnd(t + w, 0, false) < |t + w| ==>
              CodeEnd(t + w, 0, false) < |t| && CodeEnd(t, 0, false) == CodeEnd(t + w, 0, false)
    ensures CodeEnd(t + w, 0, false) == |t + w| ==> CodeEnd(t, 0, false) == |t|
  {
    var line := t + w;
    var e := CodeEnd(line, 0, false);
    assert line[..|t|] == t;
    CodeEndOfPrefix(line, |t|, 0, false);
    assert e < |line| ==> line[e + 1] == '/';
    hide CodeEnd;
    assert forall k :: |t| <= k < |line| ==> line[k] == w[k - |t|];
  }

  lemma CodeOfPadded(t: string, w: string)
    requires Trimmed(t) && Spaces(w)
    ensures CodeEnd(t + w, 0, false) < |t + w| ==>
              CodeEnd(t + w, 0, false) < |t| && CodeEnd(t, 0, false) == CodeEnd(t + w, 0, false)
    ensures CodeEnd(t + w, 0, false) == |t + w| ==> CodeEnd(t, 0, false) == |t|
    ensures Code(t) == Code(t + w)
  {
    hide TrimEnd, CodeEnd, IsSpace;
    CodeEndOfPadded(t, w);
    var line := t + w;
    var e := CodeEnd(line, 0, false);
    if e < |line| {
      assert t[..e] == line[..e];
    } else {
      WholeIsCode(t);
      TrimEndOf(t, w);
      assert line[..|line|] == line;
    }
  }

  lemma CodeOfTrimmed(line: string)
    ensures Code(TrimEnd(line)) == Code(line)
    ensures CodeEnd(line, 0, false) < |line| <==> Comment(line) != ""
    ensures Comment(line) != "" ==> CodeEnd(TrimEnd(line), 0, false) == CodeEnd(line, 0, false)
  {
    TrimEndIsTight(line);
    var w := TrimEndSplits(line);
    hide TrimEnd, CodeEnd, Code;
    CodeOfPadded(TrimEnd(line), w);
  }

  lemma {:induction false} TrimEndIgnores(s: string, w: string)
    requires Spaces(w)
    ensures TrimEnd(s + w) == TrimEnd(s)
  {
    if w == "" {
      assert s + w == s;
    } else {
      assert (s + w)[..|s + w| - 1] == s + w[..|w| - 1];
      TrimEndIgnores(s, w[..|w| - 1]);
    }
  }

  // ---------------------------------------------------------------- one line

  lemma WholeIsCode(t: string)
    requires Trimmed(t) && CodeEnd(t, 0, false) == |t|
    ensures Code(t) == t
  {
    TrimEndOf(t, "");
    assert t + "" == t && t[..|t|] == t;
  }

  lemma SameCode(t: string, d: string, n: nat)
    requires n <= |t| && n <= |d| && t[..n] == d[..n] && CodeEnd(t, 0, false) + 2 <= n
    ensures Code(d) == Code(t)
  {
    CommentStays(t, d, n);
    var e := CodeEnd(t, 0, false);
    hide CodeEnd;
    assert t[..e] == t[..n][..e] && d[..e] == d[..n][..e];
  }

  /** Behind the comma that the code ends in come blanks and the comment. */
  lemma TailAfterCode(t: string)
    requires Dangles(t) && CodeEnd(t, 0, false) < |t| && '"' !in t[CodeEnd(t, 0, false)..]
    ensures |Code(t)| <= |t| && t[|Code(t)| - 1] == ',' && IsCommentTail(t[|Code(t)|..])
  {
    var e, code := CodeEnd(t, 0, false), Code(t);
    var w := TrimEndSplits(t[..e]);
    assert t == code + w + t[e..];
    assert t[|code|..] == w + t[e..];
    TrimStartOf(w, t[e..]);
    assert forall k :: 0 <= k < |w| ==> w[k] != '"';
  }

  lemma TailShape(b: string) returns (m: nat)
    requires IsCommentTail(b)
    ensures m + 2 <= |b| && b[m] == '/' && b[m + 1] == '/'
    ensures forall k :: 0 <= k < m ==> IsSpace(b[k])
    ensures forall k :: 0 <= k < |b| ==> b[k] != '"'
  {
    var w := TrimStartSplits(b);
    m := |w|;
  }

  lemma CutShape(t: string, j: nat, d: string) returns (m: nat)
    requires j < |t| && t[j] == ',' && IsCommentTail(t[j + 1..]) && d == t[..j] + t[j + 1..]
    ensures CutsComma(t, d, j, m) && d[..j] == t[..j] && d[|d| - 1] == t[|t| - 1]
  {
    var b := t[j + 1..];
    m := TailShape(b);
    hide IsCommentTail, IsSpace;
    assert forall k :: j <= k < |d| ==> d[k] == b[k - j] && t[k + 1] == b[k - j];
  }

  lemma BlanksAreSpaces(s: string, i: nat, n: nat)
    requires i <= n <= |s| && forall k :: i <= k < n ==> IsSpace(s[k])
    ensures Spaces(s[i..n]) && s[..i] + s[i..n] == s[..n]
  {
  }

  /** The comma before the comment is the one the code ends in. */
  lemma CutAtCode(t: string, d: string, j: nat, m: nat)
    requires CutsComma(t, d, j, m) && d[..j] == t[..j]
    requires CodeEnd(t, 0, false) == j + 1 + m
    requires CodeEnd(d, 0, false) == if m == 0 && j > 0 && d[j - 1] == '/' then j - 1 else j + m
    ensures Code(t) == t[..j + 1]
    ensures Code(d) == TrimEnd(if m == 0 && EndsIn(t[..j], '/') then t[..j - 1] else t[..j])
  {
    hide CodeEnd, TrimEnd, IsSpace;
    assert forall k :: j + 1 <= k < j + 1 + m ==> t[k] == d[k - 1];
    BlanksAreSpaces(t, j + 1, j + 1 + m);
    CommaIsNoSpace();
    TrimEndOf(t[..j + 1], t[j + 1..j + 1 + m]);
    if m == 0 && EndsIn(t[..j], '/') {
      assert d[..j - 1] == d[..j][..j - 1] == t[..j - 1];
    } else {
      BlanksAreSpaces(d, j, j + m);
      TrimEndIgnores(d[..j], d[j..j + m]);
    }
  }

  lemma CommaIsNoSpace()
    ensures !IsSpace(',')
  {
  }

  /** What removing a comma before a quote-free comment tail does to the code. */
  lemma CutBeforeTail(t: string, j: nat, d: string)
    requires Trimmed(t) && j < |t| && t[j] == ',' && IsCommentTail(t[j + 1..]) && d == t[..j] + t[j + 1..]
    ensures var e := CodeEnd(t, 0, false);
            || (e == |t| && Code(d) == d && |d| >= 2 && d[|d| - 1] == t[|t| - 1])
            || (e + 1 < j && Code(d) == Code(t))
            || (j < e < |t| && Code(t) == t[..j + 1]
                && Code(d) == TrimEnd(if e == j + 1 && EndsIn(t[..j], '/') then t[..j - 1] else t[..j]))
  {
    hide IsCommentTail, TrimEnd, CodeEnd, Code, IsSpace;
    var m := CutShape(t, j, d);
    CommaBeforeTheComment(t, d, j, m, 0, false);
    CutSize(t, d, j, m);
    hide CutsComma;
    var e := CodeEnd(t, 0, false);
    if e == |t| && CodeEnd(d, 0, false) == |d| {
      TrimmedByLast(t, d);
      WholeIsCode(d);
    } else if e + 1 < j {
      SameCode(t, d, j);
    } else {
      CutAtCode(t, d, j, m);
    }
  }

  lemma CutSize(t: string, d: string, j: nat, m: nat)
    requires CutsComma(t, d, j, m)
    ensures j + m + 2 <= |d| == |t| - 1
  {
  }

  lemma TrimmedByLast(t: string, d: string)
    requires Trimmed(t) && t != "" && d != "" && d[|d| - 1] == t[|t| - 1]
    ensures Trimmed(d)
  {
  }

  /** The code of a line after the repair: its last comma gone when that is the one taken, else unchanged as far
      as what it ends in goes. */
  lemma CodeAfterDrop(line: string)
    ensures Taken(line) ==> Code(DropComma(line)) == Left(line)
    ensures !Taken(line) ==>
              (Dangles(DropComma(line)) <==> Dangles(line)) && (Code(DropComma(line)) == "" <==> Code(line) == "")
  {
    var t := TrimEnd(line);
    TrimEndIsTight(line);
    CodeOfTrimmed(line);
    var e := CodeEnd(t, 0, false);
    if EndsIn(t, ',') {
      TrailingCommaDrops(line);
    } else {
      var j := CommaBeforeComment(t, |t|);
      if j.None? {
        NoTakerIsUntaken(line);
      } else {
        TailCommaDrops(line, j.value);
      }
    }
  }

  lemma DropIs(line: string)
    ensures var t := TrimEnd(line);
            && Comment(line) == t[CodeEnd(t, 0, false)..]
            && DropComma(line) ==
               if EndsIn(t, ',') then t[..|t| - 1]
               else
                 var j := CommaBeforeComment(t, |t|);
                 if j.Some? then t[..j.value] + t[j.value + 1..] else line
  {
    hide CommaBeforeComment, CodeEnd, TrimEnd, IsCommentTail;
  }

  lemma TrailingCommaDrops(line: string)
    requires EndsIn(TrimEnd(line), ',')
    ensures Taken(line) ==> Code(DropComma(line)) == Left(line)
    ensures !Taken(line) ==> Code(DropComma(line)) == Code(line)
  {
    hide DropComma, TrimEnd, CodeEnd, Code, IsSpace, Comment, Harmless, Dangles, Taken, Left;
    var t := TrimEnd(line);
    var e, d := CodeEnd(t, 0, false), t[..|t| - 1];
    DropIs(line);
    TrimEndIsTight(line);
    CodeOfTrimmed(line);
    if e == |t| {
      WholeIsCode(t);
      CodeOfCut(t);
      TakenWithoutComment(line);
    } else {
      CommentEnds(t, e);
      SameCode(t, d, |t| - 1);
      UntakenBeforeComma(line);
    }
  }

  lemma TakenWithoutComment(line: string)
    requires Comment(line) == "" && EndsIn(Code(line), ',')
    ensures Taken(line) && Left(line) == TrimEnd(Code(line)[..|Code(line)| - 1])
  {
    hide Code, Comment, TrimEnd;
  }

  lemma UntakenBeforeComma(line: string)
    requires EndsIn(Comment(line), ',')
    ensures !Taken(line)
  {
    hide Code, Comment, StartsComment;
  }

  lemma CommentEnds(t: string, e: nat)
    requires e == CodeEnd(t, 0, false) < |t| && EndsIn(t, ',')
    ensures e + 2 <= |t| - 1 && EndsIn(t[e..], ',') && t[..|t| - 1] == t[..|t| - 1][..|t| - 1]
  {
  }

  lemma CodeOfCut(t: string)
    requires t != "" && CodeEnd(t, 0, false) == |t|
    ensures Code(t[..|t| - 1]) == TrimEnd(t[..|t| - 1])
  {
    var d := t[..|t| - 1];
    CodeEndOfPrefix(t, |t| - 1, 0, false);
    hide CodeEnd, TrimEnd;
    assert d[..|d|] == d;
  }

  lemma NoTakerIsUntaken(line: string)
    requires var t := TrimEnd(line); !EndsIn(t, ',') && CommaBeforeComment(t, |t|).None?
    ensures !Taken(line) && DropComma(line) == line
  {
    var t := TrimEnd(line);
    TrimEndIsTight(line);
    CodeOfTrimmed(line);
    if Taken(line) {
      if CodeEnd(t, 0, false) == |t| {
        WholeIsCode(t);
      } else {
        TailAfterCode(t);
      }
    }
  }

  lemma LeftIs(line: string, t: string, j: nat)
    requires j < |t| && t[j] == ',' && Code(line) == t[..j + 1] && Comment(line) != ""
    ensures Dangles(line)
    ensures Left(line) ==
            TrimEnd(if CodeEnd(line, 0, false) == j + 1 && EndsIn(t[..j], '/') then t[..j - 1] else t[..j])
  {
    hide Code, Comment, CodeEnd, TrimEnd;
    var code := Code(line);
    assert code[..|code| - 1] == t[..j];
    assert j > 0 ==> t[..j][..j - 1] == t[..j - 1];
  }

  lemma TailCommaDrops(line: string, j: nat)
    requires var t := TrimEnd(line); !EndsIn(t, ',') && CommaBeforeComment(t, |t|) == Some(j)
    ensures Taken(line) ==> Code(DropComma(line)) == Left(line)
    ensures !Taken(line) ==>
              (Dangles(DropComma(line)) <==> Dangles(line)) && (Code(DropComma(line)) == "" <==> Code(line) == "")
  {
    hide DropComma, IsCommentTail, TrimEnd, CodeEnd, Code, Harmless, StartsComment, Left, Comment, IsSpace, CommaBeforeComment;
    var t := TrimEnd(line);
    var d, e := t[..j] + t[j + 1..], CodeEnd(t, 0, false);
    DropIs(line);
    TrimEndIsTight(line);
    CodeOfTrimmed(line);
    CutBeforeTail(t, j, d);
    if e == |t| {
      WholeIsCode(t);
      assert !Dangles(line) && !Dangles(d);
    } else if e + 1 < j {
      CommaInComment(t, j);
      assert Code(d) == Code(line) && !Harmless(Comment(line));
    } else {
      LastTailIsHarmless(t, j);
      LeftIs(line, t, j);
      assert Code(d) == Left(line);
    }
  }

  lemma SliceOfSlice(t: string, e: nat, k: nat)
    requires e + k <= |t|
    ensures t[e..][k..] == t[e + k..]
  {
  }

  lemma CommaInComment(t: string, j: nat)
    requires CodeEnd(t, 0, false) + 1 < j < |t| && t[j] == ',' && IsCommentTail(t[j + 1..])
    ensures !Harmless(t[CodeEnd(t, 0, false)..])
  {
    hide CodeEnd, IsCommentTail, StartsComment, Harmless;
    var e := CodeEnd(t, 0, false);
    TailIs(t[j + 1..]);
    SliceOfSlice(t, e, j - e + 1);
    NotHarmless(t[e..], j - e);
  }

  lemma NotHarmless(comment: string, k: nat)
    requires k < |comment| && comment[k] == ',' && StartsComment(comment[k + 1..])
    ensures !Harmless(comment)
  {
    hide StartsComment;
  }

  lemma NoQuoteIn(t: string, j: nat, e: nat)
    requires j < e <= |t| && IsCommentTail(t[j + 1..])
    ensures '"' !in t[e..]
  {
    hide IsCommentTail;
    TailIs(t[j + 1..]);
    SliceOfSlice(t, j + 1, e - j - 1);
    NotInSlice(t[j + 1..], e - j - 1);
  }

  lemma NotInSlice(b: string, k: nat)
    requires k <= |b| && '"' !in b
    ensures '"' !in b[k..]
  {
    assert forall i :: 0 <= i < |b[k..]| ==> b[k..][i] == b[k + i];
  }

  lemma NoTailIn(t: string, j: nat, e: nat, k: nat)
    requires CommaBeforeComment(t, |t|) == Some(j) && j < e && e + k < |t| && t[e..][k] == ',' && '"' !in t[e..]
    ensures !StartsComment(t[e..][k + 1..])
  {
    hide CommaBeforeComment, IsCommentTail, StartsComment;
    NoLaterTail(t, j, e + k);
    SliceOfSlice(t, e, k + 1);
    NotInSlice(t[e..], k + 1);
    TailIs(t[e + k + 1..]);
  }

  lemma NoLaterTail(t: string, j: nat, k: nat)
    requires CommaBeforeComment(t, |t|) == Some(j) && j < k < |t| && t[k] == ','
    ensures !IsCommentTail(t[k + 1..])
  {
    hide IsCommentTail;
  }

  lemma TailIs(b: string)
    ensures IsCommentTail(b) <==> StartsComment(b) && '"' !in b
  {
    hide TrimStart;
  }

  lemma LastTailIsHarmless(t: string, j: nat)
    requires Trimmed(t) && !EndsIn(t, ',') && CommaBeforeComment(t, |t|) == Some(j) && j < CodeEnd(t, 0, false) < |t|
    ensures Harmless(t[CodeEnd(t, 0, false)..])
  {
    var e := CodeEnd(t, 0, false);
    var comment := t[e..];
    NoQuoteIn(t, j, e);
    assert |comment| > 0 && comment[|comment| - 1] == t[|t| - 1];
    forall k: nat | k < |comment| && comment[k] == ','
      ensures !StartsComment(comment[k + 1..])
    {
      NoTailIn(t, j, e, k);
    }
  }

  /** Exactly when the repair leaves a dangling comma on its line: the line dangles, and either its comment keeps
      the repair away from that comma, or what is left ends in a comma again. */
  lemma DanglesAfterDropIff(line: string)
    ensures Dangles(DropComma(line)) <==> StillDangles(line)
    ensures Code(DropComma(line)) == "" <==> Emptied(line)
  {
    CodeAfterDrop(line);
    hide Code, Harmless, DropComma, Comment, Left;
  }

  // ---------------------------------------------------------------- the file

  /** The last code before line `p` ends in a comma. */
  ghost predicate CommaBefore(lines: seq<string>, p: nat) {
    p <= |lines| && exists q :: 0 <= q < p && Dangles(lines[q]) && forall r :: q < r < p ==> Code(lines[r]) == ""
  }

  /** The same, of the survivors among the lines before `j`, as they are written. */
  ghost predicate SurvivorComma(lines: seq<string>, j: nat, c: nat)
    requires j <= |lines|
  {
    && c < j && !IsKeyAt(lines, c) && Dangles(Final(lines, c, |lines|))
    && forall r :: c < r < j && !IsKeyAt(lines, r) ==> Code(Final(lines, r, |lines|)) == ""
  }

  /** Some closer of the file has the script repair line `c`. */
  ghost predicate Repair(lines: seq<string>, c: nat) {
    exists k :: c < k < |lines| && Closes(lines, c, k)
  }

  /** ... and as they are read. */
  ghost predicate CommaStays(lines: seq<string>, j: nat, c: nat)
    requires j <= |lines|
  {
    && c < j && !IsKeyAt(lines, c) && (if Repair(lines, c) then StillDangles(lines[c]) else Dangles(lines[c]))
    && forall r :: c < r < j && !IsKeyAt(lines, r) ==>
         if Repair(lines, r) then Emptied(lines[r]) else Code(lines[r]) == ""
  }

  /** The same when `i` is the line repaired for the closer `j`; a negative `i` is no line. */
  ghost predicate CommaRemains(lines: seq<string>, i: int, j: nat, c: nat)
    requires j <= |lines|
  {
    && c < j && !IsKeyAt(lines, c) && (if c == i then StillDangles(lines[c]) else Dangles(lines[c]))
    && forall r :: c < r < j && !IsKeyAt(lines, r) ==> if r == i then Emptied(lines[r]) else Code(lines[r]) == ""
  }

  lemma OutputOrder(lines: seq<string>, r: nat, j: nat, n: nat)
    requires r < j <= |lines| && !IsKeyAt(lines, r)
    ensures |Output(lines, r, n)| < |Output(lines, j, n)| <= |Output(lines, |lines|, n)|
  {
    hide IsKeyAt, Final, Output;
    OutputPush(lines, r, n);
    OutputPrefix(lines, r + 1, j, n);
    OutputPrefix(lines, j, |lines|, n);
  }

  /** Output positions and surviving lines correspond. */
  lemma CommaBeforeIsSurvivors(lines: seq<string>, j: nat)
    requires j < |lines|
    ensures |Output(lines, j, |lines|)| <= |Output(lines, |lines|, |lines|)|
    ensures CommaBefore(Output(lines, |lines|, |lines|), |Output(lines, j, |lines|)|) <==>
            exists c :: SurvivorComma(lines, j, c)
  {
    hide IsKeyAt, Final, Output, Dangles, Code, Depth, RemovedDepth;
    var n := |lines|;
    var out, p := Output(lines, n, n), |Output(lines, j, n)|;
    OutputPrefix(lines, j, n, n);
    if CommaBefore(out, p) {
      var q :| 0 <= q < p && Dangles(out[q]) && forall r :: q < r < p ==> Code(out[r]) == "";
      var c := Origin(lines, n, n, q);
      SourceIsBefore(lines, c, j);
      forall r | c < r < j && !IsKeyAt(lines, r)
        ensures Code(Final(lines, r, n)) == ""
      {
        OutputOrder(lines, c, r, n);
        OutputOrder(lines, r, j, n);
        OutputAt(lines, r, n);
      }
      assert SurvivorComma(lines, j, c);
    }
    if c :| SurvivorComma(lines, j, c) {
      var q := |Output(lines, c, n)|;
      OutputOrder(lines, c, j, n);
      OutputAt(lines, c, n);
      forall r | q < r < p
        ensures Code(out[r]) == ""
      {
        var k := Origin(lines, n, n, r);
        SourceIsBefore(lines, k, j);
        SourceIsBefore(lines, c, k);
      }
    }
  }

  lemma SourceIsBefore(lines: seq<string>, k: nat, j: nat)
    requires k <= |lines| && j <= |lines| && |Output(lines, k, |lines|)| < |Output(lines, j, |lines|)|
    ensures k < j
  {
    hide Output;
    if j <= k {
      OutputPrefix(lines, j, k, |lines|);
    }
  }

  lemma {:induction false} NotBlankAfterTrim(s: string, k: nat)
    requires k < |s| && !IsSpace(s[k])
    ensures |TrimEnd(s)| > k && TrimEnd(s)[k] == s[k]
  {
    if IsSpace(s[|s| - 1]) {
      NotBlankAfterTrim(s[..|s| - 1], k);
    }
  }

  lemma {:induction false} CodeReaches(s: string, i: nat, k: nat)
    requires i <= k < |s| && s[k] != '/' && forall l :: i <= l < k ==> IsSpace(s[l])
    ensures CodeEnd(s, i, false) > k
    decreases k - i
  {
    if i < k {
      CodeReaches(s, i + 1, k);
    }
  }

  lemma CloserAt(line: string) returns (k: nat)
    requires IsCloser(line)
    ensures k < |line| && (line[k] == '}' || line[k] == ']') && forall l :: 0 <= l < k ==> IsSpace(line[l])
  {
    var w := TrimStartSplits(line);
    k := |w|;
    hide TrimStart, IsSpace;
    assert line[k] == TrimStart(line)[0];
    assert forall l :: 0 <= l < k ==> line[l] == w[l];
  }

  lemma KeepsCharacter(s: string, n: nat, k: nat)
    requires k < n <= |s| && !IsSpace(s[k])
    ensures TrimEnd(s[..n]) != "" && |TrimEnd(s[..n])| > k && TrimEnd(s[..n])[k] == s[k]
  {
    hide TrimEnd, IsSpace;
    assert s[..n][k] == s[k];
    NotBlankAfterTrim(s[..n], k);
  }

  /** A closer has code, and keeps some. */
  lemma CloserHasCode(line: string)
    requires IsCloser(line)
    ensures Code(line) != "" && !Emptied(line)
  {
    hide TrimEnd, CodeEnd, IsCloser, Harmless, Comment;
    var k := CloserAt(line);
    assert !IsSpace(line[k]);
    hide IsSpace;
    CodeReaches(line, 0, k);
    KeepsCharacter(line, CodeEnd(line, 0, false), k);
    var code := Code(line);
    if Dangles(line) {
      KeepsCharacter(code, |code| - 1, k);
      var rest := code[..|code| - 1];
      if EndsIn(rest, '/') {
        KeepsCharacter(rest, |rest| - 1, k);
      }
    }
  }

  lemma StaysIff(lines: seq<string>, j: nat, c: nat)
    requires j <= |lines|
    ensures SurvivorComma(lines, j, c) <==> CommaStays(lines, j, c)
  {
    hide Closes, IsKeyAt, Code, Dangles, StillDangles, Emptied, DropComma;
    forall r | 0 <= r < |lines|
      ensures Final(lines, r, |lines|) == if Repair(lines, r) then DropComma(lines[r]) else lines[r]
      ensures Dangles(DropComma(lines[r])) <==> StillDangles(lines[r])
      ensures Code(DropComma(lines[r])) == "" <==> Emptied(lines[r])
    {
      DanglesAfterDropIff(lines[r]);
    }
    hide Final, Repair;
  }

  lemma {:induction false} NothingToRemove(lines: seq<string>, m: nat)
    requires m <= |lines| && !HasKeyLine(lines)
    ensures Output(lines, m, |lines|) == lines[..m]
  {
    if m > 0 {
      NothingToRemove(lines, m - 1);
      var k := m - 1;
      assert forall j :: !Closes(lines, k, j);
      assert lines[..m] == lines[..m - 1] + [lines[m - 1]];
    }
  }

  lemma StrippedIsOutput(lines: seq<string>)
    ensures Stripped(lines) == Output(lines, |lines|, |lines|)
  {
    hide Output;
    if !HasKeyLine(lines) {
      NothingToRemove(lines, |lines|);
      assert lines[..|lines|] == lines;
    }
  }

  /** Comma hygiene, for every file and every kept line of it: in the output a comma is the last code before the
      line exactly when the last kept line with code before it dangles and is not repaired, or is repaired and
      still dangles; a repaired line that the repair leaves without code does not count. */
  lemma CommaBeforeIff(lines: seq<string>, j: nat)
    requires j < |lines| && !IsKeyAt(lines, j)
    ensures var p := |Output(lines, j, |lines|)|;
            && p < |Stripped(lines)| && Stripped(lines)[p] == Final(lines, j, |lines|)
            && (CommaBefore(Stripped(lines), p) <==> exists c :: CommaStays(lines, j, c))
  {
    hide Closes, IsKeyAt, Output, Final, Stripped, CommaBefore, SurvivorComma, CommaStays, Depth, RemovedDepth;
    StrippedIsOutput(lines);
    OutputAt(lines, j, |lines|);
    CommaBeforeIsSurvivors(lines, j);
    forall c: nat
      ensures SurvivorComma(lines, j, c) <==> CommaStays(lines, j, c)
    {
      StaysIff(lines, j, c);
    }
  }

  // ---------------------------------------------------------------- closers

  /** `i` is the line repaired for the closer `j`, or negative when there is none. */
  ghost predicate RepairedFor(lines: seq<string>, i: int, j: nat) {
    && j < |lines| && Solid(lines, j) && IsCloser(lines[j])
    && forall k: nat :: Closes(lines, k, j) <==> k == i
  }

  /** With no other closer between, only line `i` is changed. */
  lemma OnlyOneRepaired(lines: seq<string>, i: int, j: nat, r: nat)
    requires RepairedFor(lines, i, j) && r < j
    requires forall k :: r < k < j && !IsKeyAt(lines, k) ==> !IsCloser(lines[k])
    ensures Repair(lines, r) <==> r == i
  {
    hide IsKeyText, Depth, Blank, IsCloser, IsKeyAt;
    assert Closes(lines, r, j) <==> r == i;
    if k :| r < k < |lines| && Closes(lines, r, k) {
      assert !IsKeyAt(lines, k);
      assert k == j;
    }
  }

  lemma RemainsIff(lines: seq<string>, i: int, j: nat, c: nat)
    requires RepairedFor(lines, i, j)
    ensures CommaStays(lines, j, c) <==> CommaRemains(lines, i, j, c)
  {
    hide Closes, IsCloser, IsKeyAt, Code, Dangles, StillDangles, Emptied, Solid, Repair;
    if CommaStays(lines, j, c) || CommaRemains(lines, i, j, c) {
      forall k | c < k < j && !IsKeyAt(lines, k)
        ensures !IsCloser(lines[k])
      {
        if IsCloser(lines[k]) {
          CloserHasCode(lines[k]);
        }
      }
      forall r | c <= r < j
        ensures Repair(lines, r) <==> r == i
      {
        OnlyOneRepaired(lines, i, j, r);
      }
    }
  }

  lemma CloserIff(lines: seq<string>, i: int, j: nat)
    requires RepairedFor(lines, i, j)
    ensures var p := |Output(lines, j, |lines|)|;
            && p < |Stripped(lines)| && Stripped(lines)[p] == Final(lines, j, |lines|)
            && (CommaBefore(Stripped(lines), p) <==> exists c :: CommaRemains(lines, i, j, c))
  {
    assert !IsKeyAt(lines, j);
    hide Closes, IsKeyAt, Output, Final, Stripped, CommaBefore, CommaStays, CommaRemains, RepairedFor;
    CommaBeforeIff(lines, j);
    forall c: nat
      ensures CommaStays(lines, j, c) <==> CommaRemains(lines, i, j, c)
    {
      RemainsIff(lines, i, j, c);
    }
  }

  lemma OneLineIsRepaired(lines: seq<string>, i: nat, j: nat)
    requires j < |lines| && Closes(lines, i, j)
    ensures RepairedFor(lines, i, j)
  {
    hide IsKeyText, Depth, Blank, IsCloser, IsKeyAt;
  }

  /** Before a closer right behind a removed run, blank lines aside: only the last solid line was repaired. */
  lemma CommaBeforeCloserIff(lines: seq<string>, i: nat, j: nat)
    requires j < |lines| && Closes(lines, i, j)
    ensures var p := |Output(lines, j, |lines|)|;
            && p < |Stripped(lines)| && Stripped(lines)[p] == Final(lines, j, |lines|)
            && (CommaBefore(Stripped(lines), p) <==> exists c :: CommaRemains(lines, i, j, c))
  {
    OneLineIsRepaired(lines, i, j);
    hide Closes, Stripped, Output, Final, CommaBefore, CommaRemains, RepairedFor;
    CloserIff(lines, i, j);
  }

  /** Before any other closer, one behind a comment line behind the removed run among them, nothing was repaired:
      a comma is there exactly when the last kept line with code dangled. */
  lemma CommaBeforeOtherCloserIff(lines: seq<string>, j: nat)
    requires j < |lines| && !IsKeyAt(lines, j) && IsCloser(lines[j]) && forall k: nat :: !Closes(lines, k, j)
    ensures var p := |Output(lines, j, |lines|)|;
            && p < |Stripped(lines)| && Stripped(lines)[p] == Final(lines, j, |lines|)
            && (CommaBefore(Stripped(lines), p) <==>
                exists c: nat :: c < j && !IsKeyAt(lines, c) && Dangles(lines[c])
                                 && forall r :: c < r < j && !IsKeyAt(lines, r) ==> Code(lines[r]) == "")
  {
    assert RepairedFor(lines, -1, j) by {
      BlankIsNoCloser(lines[j]);
    }
    hide Closes, Stripped, Output, Final, CommaBefore, RepairedFor, IsCloser, Code, Dangles, StillDangles, Emptied, IsKeyAt;
    CloserIff(lines, -1, j);
    forall c: nat
      ensures CommaRemains(lines, -1, j, c) <==>
              c < j && !IsKeyAt(lines, c) && Dangles(lines[c])
              && forall r :: c < r < j && !IsKeyAt(lines, r) ==> Code(lines[r]) == ""
    {
    }
    hide CommaRemains;
  }

  // ---------------------------------------------------------------- the families of files it fails on

  /** One line in front of the entry, and the closer behind it. */
  function Around(line: string): seq<string> { ["{", line, "\"model\":1", "}"] }

  lemma Entry()
    ensures IsKeyText("\"model\":1") && !IsKeyText("{") && !IsKeyText("}") && Delta("{") == 1
    ensures !Blank("}") && IsCloser("}")
  {
    var entry := "\"model\":1";
    assert TrimStart(entry) == entry && entry[7..] == ":1" && TrimStart(":1") == ":1";
    assert TrimStart("{") == "{" && TrimStart("}") == "}";
    assert Scan("{", 1, false) == 0;
  }

  lemma AroundKeys(line: string)
    requires Delta(line) == 0 && !IsKeyText(line) && !Blank(line)
    ensures forall i :: 0 <= i < 4 ==> (IsKeyAt(Around(line), i) <==> i == 2)
    ensures Solid(Around(line), 1) && Solid(Around(line), 3)
  {
    hide IsKeyText, Delta, Blank, IsCloser;
    Entry();
    var lines := Around(line);
    assert lines[0] == "{" && lines[1] == line && lines[2] == "\"model\":1" && lines[3] == "}";
    NothingYet(lines, 4);
    PrefixDepth(lines, 0);
    PrefixDepth(lines, 1);
    hide Depth, Around;
    assert Depth(lines[..2]) == 1;
  }

  lemma AroundFinal(line: string)
    requires Delta(line) == 0 && !IsKeyText(line) && !Blank(line)
    ensures var lines := Around(line);
            && Closes(lines, 1, 3)
            && Final(lines, 0, 4) == "{" && Final(lines, 1, 4) == DropComma(line) && Final(lines, 3, 4) == "}"
  {
    hide IsKeyText, Delta, Blank, IsCloser, DropComma;
    Entry();
    AroundKeys(line);
    var lines := Around(line);
    assert lines[0] == "{" && lines[1] == line && lines[3] == "}" && |lines| == 4;
    hide Around, IsKeyAt, Solid;
    assert IsKeyAt(lines, 2) && !Solid(lines, 2) by {
      KeyIsNotSolid(lines, 2);
    }
    assert Closes(lines, 1, 3);
    assert !Closes(lines, 0, 3);
  }

  lemma StrippedAround(line: string)
    requires Delta(line) == 0 && !IsKeyText(line) && !Blank(line)
    ensures HasKeyLine(Around(line)) && Stripped(Around(line)) == ["{", DropComma(line), "}"]
  {
    hide IsKeyText, Delta, Blank, DropComma;
    AroundKeys(line);
    AroundFinal(line);
    var lines := Around(line);
    assert |lines| == 4;
    hide Around, IsKeyAt, Solid, Final, Output, Closes;
    assert IsKeyAt(lines, 2);
    NoOutput(lines, 4);
    OutputPush(lines, 0, 4);
    OutputPush(lines, 1, 4);
    OutputPush(lines, 2, 4);
    OutputPush(lines, 3, 4);
  }

  lemma NoOutput(lines: seq<string>, n: nat)
    ensures Output(lines, 0, n) == []
  {
  }

  /** A line that dangles still leaves its comma before the closer. */
  lemma StillDangling(line: string)
    requires Delta(line) == 0 && !IsKeyText(line) && !Blank(line) && StillDangles(line)
    ensures CommaBefore(Stripped(Around(line)), 2)
  {
    hide IsKeyText, Delta, Blank, DropComma, StillDangles, Code, Around, Stripped;
    StrippedAround(line);
    DanglesAfterDropIff(line);
    assert Dangles(Stripped(Around(line))[1]);
  }

  lemma PlainStart(line: string)
    requires |line| >= 2 && line[0] == '1' && line[1] == ','
    requires |line| == 2 || (|line| >= 4 && line[2] == '/' && line[3] == '/')
    ensures CodeEnd(line, 0, false) == 2 && Code(line) == "1,"
    ensures Delta(line) == 0 && !IsKeyText(line) && !Blank(line)
  {
    assert CodeEnd(line, 2, false) == 2 && CodeEnd(line, 1, false) == 2;
    assert Scan(line, 2, false) == 0 && Scan(line, 1, false) == 0;
    assert line[..2] == "1,";
    assert TrimStart(line) == line;
  }

  /** A comment that keeps the repair away, whichever way it does, keeps the comma before it in the output. */
  lemma HarmfulCommentKeepsComma(comment: string)
    requires |comment| >= 2 && comment[0] == '/' && comment[1] == '/' && Trimmed(comment) && !Harmless(comment)
    ensures CommaBefore(Stripped(Around("1," + comment)), 2)
  {
    var line := "1," + comment;
    PlainStart(line);
    TrimEndOf(line, "");
    assert line + "" == line;
    assert Comment(line) == comment;
    hide Stripped, CommaBefore, Code, Delta, IsKeyText, Blank, Harmless, Comment;
    StillDangling(line);
  }

  /** It may end in a comma, hold a quote, or hold a comma before what looks like another comment. */
  lemma HarmfulComments()
    ensures CommaBefore(Stripped(Around("1,//,")), 2)
    ensures CommaBefore(Stripped(Around("1,//\"")), 2)
    ensures CommaBefore(Stripped(Around("1,//,//")), 2)
  {
    assert "1," + "//," == "1,//," && "1," + "//\"" == "1,//\"" && "1," + "//,//" == "1,//,//";
    assert !Harmless("//,");
    assert !Harmless("//\"") by {
      assert "//\""[2] == '"';
    }
    assert !Harmless("//,//") by {
      assert "//,//"[2] == ',' && "//,//"[2 + 1..] == "//" && TrimStart("//") == "//";
    }
    hide Stripped, CommaBefore, Harmless;
    HarmfulCommentKeepsComma("//,");
    HarmfulCommentKeepsComma("//\"");
    HarmfulCommentKeepsComma("//,//");
  }

  /** Two commas: the repair takes one. */
  lemma TwoCommasKeepOne()
    ensures CommaBefore(Stripped(Around("1,,")), 2)
  {
    var line := "1,,";
    assert CodeEnd(line, 3, false) == 3 && CodeEnd(line, 2, false) == 3 && CodeEnd(line, 1, false) == 3;
    assert Scan(line, 3, false) == 0 && Scan(line, 2, false) == 0 && Scan(line, 1, false) == 0;
    TrimEndOf(line, "");
    assert line + "" == line && line[..3] == line && TrimStart(line) == line;
    assert Code(line) == line && line[..2] == "1,";
    TrimEndOf("1,", "");
    assert "1," + "" == "1,";
    assert Left(line) == "1,";
    hide Stripped, CommaBefore, Code, Delta, IsKeyText, Blank, Left;
    StillDangling(line);
  }

  /** A whole-line comment before the entry takes the repair upon itself. */
  lemma CommentLineKeepsComma() returns (lines: seq<string>)
    ensures lines == ["{", "1,", "//", "\"model\":1", "}"]
    ensures CommaBefore(Stripped(lines), 3)
  {
    lines := ["{", "1,", "//", "\"model\":1", "}"];
    CommentLineCloses(lines);
    PlainStart("1,");
    assert CodeEnd("//", 0, false) == 0 && Code("//") == "";
    hide CodeEnd, Code, Stripped, CommaBefore, Emptied, StillDangles, Closes, Final, Output, IsKeyAt;
    CommaBeforeCloserIff(lines, 2, 4);
    assert Emptied("//") by {
      EmptyIsEmptied("//");
    }
    assert CommaRemains(lines, 2, 4, 1);
    ThreeBefore(lines);
  }

  /** A comment line behind the entry keeps the repair from the closer altogether. */
  lemma CommentBehindKeepsComma() returns (lines: seq<string>)
    ensures lines == ["{", "1,", "\"model\":1", "//", "}"]
    ensures CommaBefore(Stripped(lines), 3)
  {
    lines := ["{", "1,", "\"model\":1", "//", "}"];
    CommentBehindCloses(lines);
    PlainStart("1,");
    assert CodeEnd("//", 0, false) == 0 && Code("//") == "";
    assert IsCloser(lines[4]) by {
      Entry();
    }
    assert lines[1] == "1," && lines[3] == "//";
    assert Dangles("1,");
    ThreeBeforeToo(lines);
    hide CodeEnd, Code, Stripped, CommaBefore, Closes, Final, Output, IsKeyAt, IsCloser, Dangles;
    CommaBeforeOtherCloserIff(lines, 4);
    assert forall r :: 1 < r < 4 && !IsKeyAt(lines, r) ==> r == 3;
  }

  lemma CommentBehindCloses(lines: seq<string>)
    requires lines == ["{", "1,", "\"model\":1", "//", "}"]
    ensures forall i :: 0 <= i < 5 ==> (IsKeyAt(lines, i) <==> i == 2)
    ensures forall k: nat :: !Closes(lines, k, 4)
  {
    Entry();
    PlainStart("1,");
    assert TrimStart("//") == "//";
    assert !Blank("//") && !IsKeyText("//");
    hide IsKeyText, Delta, Scan, Blank, IsCloser, TrimStart;
    NothingYet(lines, 5);
    PrefixDepth(lines, 0);
    PrefixDepth(lines, 1);
    assert lines[0] == "{" && lines[1] == "1," && lines[2] == "\"model\":1" && lines[3] == "//" && lines[4] == "}";
    hide Depth;
    assert Depth(lines[..2]) == 1;
    assert IsKeyAt(lines, 2) && Solid(lines, 3);
  }

  lemma ThreeBeforeToo(lines: seq<string>)
    requires |lines| == 5 && forall i :: 0 <= i < 5 ==> (IsKeyAt(lines, i) <==> i == 2)
    ensures |Output(lines, 4, 5)| == 3
  {
    hide IsKeyAt, Final, Output;
    NoOutput(lines, 5);
    OutputPush(lines, 0, 5);
    OutputPush(lines, 1, 5);
    OutputPush(lines, 2, 5);
    OutputPush(lines, 3, 5);
  }

  lemma EmptyIsEmptied(line: string)
    requires Code(line) == ""
    ensures Emptied(line)
  {
  }

  lemma CommentLineCloses(lines: seq<string>)
    requires lines == ["{", "1,", "//", "\"model\":1", "}"]
    ensures forall i :: 0 <= i < 5 ==> (IsKeyAt(lines, i) <==> i == 3)
    ensures Closes(lines, 2, 4)
  {
    Entry();
    PlainStart("1,");
    assert Scan("//", 0, false) == 0;
    assert TrimStart("//") == "//";
    assert Delta("//") == 0 && !Blank("//") && !IsKeyText("//");
    hide IsKeyText, Delta, Scan, Blank, IsCloser, TrimStart;
    NothingYet(lines, 5);
    PrefixDepth(lines, 0);
    PrefixDepth(lines, 1);
    PrefixDepth(lines, 2);
    assert lines[0] == "{" && lines[1] == "1," && lines[2] == "//" && lines[3] == "\"model\":1" && lines[4] == "}";
    hide Depth;
    assert Depth(lines[..3]) == 1;
    assert IsKeyAt(lines, 3);
    assert !Solid(lines, 3);
  }

  lemma ThreeBefore(lines: seq<string>)
    requires |lines| == 5 && forall i :: 0 <= i < 5 ==> (IsKeyAt(lines, i) <==> i == 3)
    ensures |Output(lines, 4, 5)| == 3
  {
    hide IsKeyAt, Final, Output;
    NoOutput(lines, 5);
    OutputPush(lines, 0, 5);
    OutputPush(lines, 1, 5);
    OutputPush(lines, 2, 5);
    OutputPush(lines, 3, 5);
  }
}
