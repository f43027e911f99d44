/** Letter suffixes and repository names (scripts/repo-functions.ps1). */
module RepoNames {
  import opened Sequences

  /** `[int]`: a 32-bit signed integer; the loop only shrinks it, so it never overflows. */
  const MAX_INT := 0x7FFF_FFFF

  function Letter(d: nat): (c: char)
    requires d < 26
    ensures 'a' <= c <= 'z' && (c - 'a') as int == d
  {
    'a' + d as char
  }

  predicate Lowercase(s: string) { forall i :: 0 <= i < |s| ==> 'a' <= s[i] <= 'z' }

  /** The number a suffix stands for: base 26 with digits 1 to 26. */
  function Value(s: string): nat
    requires Lowercase(s)
  {
    if s == "" then 0 else 26 * Value(s[..|s| - 1]) + (s[|s| - 1] - 'a') as int + 1
  }

  /** The suffix of `n`; the empty string for 0. */
  function Suffix(n: nat): (s: string)
    ensures Lowercase(s)
    ensures s == "" <==> n == 0
  {
    if n == 0 then "" else Suffix((n - 1) / 26) + [Letter((n - 1) % 26)]
  }

  /** `Get-LetterSuffix`; `None` is the thrown argument error. */
  method GetLetterSuffix(index: int) returns (letters: Option<string>)
    requires -MAX_INT - 1 <= index <= MAX_INT
    ensures letters.None? <==> index < 1
    ensures letters.Some? ==> letters.value == Suffix(index)
  {
    if index < 1 {
      return None;
    }
    var s := "";
    var remaining := index;
    while remaining > 0
      invariant remaining >= 0
      invariant Suffix(index) == Suffix(remaining) + s
    {
      remaining := remaining - 1;
      s := [Letter(remaining % 26)] + s;
      remaining := remaining / 26;
    }
    return Some(s);
  }

  /** Decoding the suffix of `n` gives `n`. */
  lemma {:induction false} DecodeEncode(n: nat)
    ensures Value(Suffix(n)) == n
  {
    if n > 0 {
      DecodeEncode((n - 1) / 26);
      assert Suffix(n)[..|Suffix(n)| - 1] == Suffix((n - 1) / 26);
    }
  }

  /** Every non-empty lower-case string is the suffix of exactly the number it decodes to. */
  lemma {:induction false} EncodeDecode(s: string)
    requires Lowercase(s)
    ensures Suffix(Value(s)) == s
  {
    if s != "" {
      var init := s[..|s| - 1];
      EncodeDecode(init);
      var d := (s[|s| - 1] - 'a') as int;
      assert (Value(s) - 1) / 26 == Value(init) && (Value(s) - 1) % 26 == d;
      assert s == init + [Letter(d)];
    }
  }

  /** Shorter first, then alphabetical. */
  predicate Before(s: string, t: string) {
    |s| < |t| || (|s| == |t| && Alphabetical(s, t))
  }

  predicate Alphabetical(s: string, t: string)
    requires |s| == |t|
  {
    if s == "" then false
    else Alphabetical(s[..|s| - 1], t[..|t| - 1]) || (s[..|s| - 1] == t[..|t| - 1] && s[|s| - 1] < t[|t| - 1])
  }

  /** The value of an m-letter suffix lies strictly between those of shorter and of longer ones. */
  function Least(m: nat): nat { if m == 0 then 0 else 26 * Least(m - 1) + 1 }

  lemma {:induction false} ValueRange(s: string)
    requires Lowercase(s)
    ensures Least(|s|) <= Value(s) < Least(|s| + 1)
  {
    if s != "" {
      ValueRange(s[..|s| - 1]);
    }
  }

  lemma {:induction false} LeastMonotone(m: nat, n: nat)
    requires m <= n
    ensures Least(m) <= Least(n)
  {
    if m < n {
      LeastMonotone(m, n - 1);
    }
  }

  lemma {:induction false} ValueOrder(s: string, t: string)
    requires Lowercase(s) && Lowercase(t)
    ensures Before(s, t) <==> Value(s) < Value(t)
  {
    if |s| < |t| {
      ValueRange(s);
      ValueRange(t);
      LeastMonotone(|s| + 1, |t|);
    } else if |s| > |t| {
      ValueRange(s);
      ValueRange(t);
      LeastMonotone(|t| + 1, |s|);
    } else if s != "" {
      var si, ti := s[..|s| - 1], t[..|t| - 1];
      ValueOrder(si, ti);
      if Value(si) == Value(ti) {
        EncodeDecode(si);
        EncodeDecode(ti);
      }
    }
  }

  /** The encoding preserves order. */
  lemma {:induction false} SuffixesAscend(m: nat, n: nat)
    ensures m < n <==> Before(Suffix(m), Suffix(n))
  {
    DecodeEncode(m);
    DecodeEncode(n);
    ValueOrder(Suffix(m), Suffix(n));
  }

  lemma FirstSuffixes()
    ensures Suffix(1) == "a" && Suffix(26) == "z" && Suffix(27) == "aa" && Suffix(703) == "aaa"
  {
    assert Suffix(0) == "" && Letter(0) == 'a' && Letter(25) == 'z';
    assert Suffix(1) == Suffix(0) + ['a'] && Suffix(26) == Suffix(0) + ['z'];
    assert Suffix(27) == Suffix(1) + ['a'] && Suffix(703) == Suffix(27) + ['a'];
  }

  /** `Get-RepoNamesForSuffix`. */
  method GetRepoNames(repo: string, suffix: string, count: int) returns (names: seq<string>)
    requires -MAX_INT - 1 <= count <= MAX_INT
    ensures |names| == if count < 0 then 0 else count
    ensures count == 1 ==> names == [repo + "-" + suffix]
    ensures count > 1 ==> forall i :: 0 <= i < count ==> names[i] == repo + "-" + suffix + "-" + Suffix(i + 1)
    ensures NoDup(names)
  {
    if count == 1 {
      return [repo + "-" + suffix];
    }
    names := [];
    var i := 1;
    while i <= count
      invariant 1 <= i && (i <= count + 1 || names == [])
      invariant |names| == i - 1
      invariant forall k :: 0 <= k < i - 1 ==> names[k] == repo + "-" + suffix + "-" + Suffix(k + 1)
    {
      var letterSuffix := GetLetterSuffix(i);
      names := names + [repo + "-" + suffix + "-" + letterSuffix.value];
      i := i + 1;
    }
    NamesAreDistinct(repo + "-" + suffix + "-", names);
  }

  lemma NamesAreDistinct(prefix: string, names: seq<string>)
    requires forall i :: 0 <= i < |names| ==> names[i] == prefix + Suffix(i + 1)
    ensures NoDup(names)
  {
    hide Suffix;
    forall j, k | 0 <= j < k < |names|
      ensures names[j] != names[k]
    {
      assert names[j] == prefix + Suffix(j + 1) && names[k] == prefix + Suffix(k + 1);
      NamesDiffer(prefix, j + 1, k + 1);
    }
  }

  lemma NamesDiffer(prefix: string, m: nat, n: nat)
    requires m != n
    ensures prefix + Suffix(m) != prefix + Suffix(n)
  {
    DecodeEncode(m);
    DecodeEncode(n);
    assert (prefix + Suffix(m))[|prefix|..] == Suffix(m);
    assert (prefix + Suffix(n))[|prefix|..] == Suffix(n);
  }
}
