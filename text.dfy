/** The optional-value type used by the searches below. */
module Options {
  datatype Option<T> = None | Some(value: T)
}

/**
 * The parts of Python's `str` that the two maintenance scripts rely on:
 * `find`, `in`, `startswith`/`endswith`, `split('\n')`, `strip`, `lower`,
 * `replace`, and the ordering that `sorted` uses on strings.
 * Strings are sequences of Unicode code points, as in Python 3.
 */
module Text {

  /** `c.isspace()`, which is also the class `\s` of `re` on str patterns. */
  predicate IsSpace(c: char) {
    c == ' ' || ('\t' <= c <= '\r') || ('\U{1c}' <= c <= '\U{1f}') ||
    c == '\U{85}' || c == '\U{a0}' || c == '\U{1680}' || ('\U{2000}' <= c <= '\U{200a}') ||
    c == '\U{2028}' || c == '\U{2029}' || c == '\U{202f}' || c == '\U{205f}' || c == '\U{3000}'
  }

  /** `p` occurs in `t` at index `i`. */
  predicate HasPrefixAt(t: string, i: nat, p: string) {
    i + |p| <= |t| && t[i..i + |p|] == p
  }

  /** `t.startswith(p)` */
  predicate StartsWith(t: string, p: string) {
    HasPrefixAt(t, 0, p)
  }

  /** `t.endswith(p)` */
  predicate EndsWith(t: string, p: string) {
    |p| <= |t| && t[|t| - |p|..] == p
  }

  /** `t.find(p, from)`: the lowest index at or after `from` where `p` occurs, or -1. */
  function Find(t: string, p: string, from: nat): (r: int)
    ensures r == -1 || (from <= r && HasPrefixAt(t, r, p))
    decreases |t| - from
  {
    if from + |p| > |t| then -1
    else if HasPrefixAt(t, from, p) then from
    else Find(t, p, from + 1)
  }

  /** `find` returns the first occurrence, and -1 only when there is none. */
  lemma {:induction false} FindFirst(t: string, p: string, from: nat)
    ensures Find(t, p, from) == -1 ==> forall i :: from <= i ==> !HasPrefixAt(t, i, p)
    ensures Find(t, p, from) != -1 ==> forall i :: from <= i < Find(t, p, from) ==> !HasPrefixAt(t, i, p)
    decreases |t| - from
  {
    if from + |p| <= |t| && !HasPrefixAt(t, from, p) {
      FindFirst(t, p, from + 1);
    }
  }

  /** `p in t` */
  predicate Contains(t: string, p: string) {
    Find(t, p, 0) != -1
  }

  lemma ContainsIff(t: string, p: string)
    ensures Contains(t, p) <==> exists i :: 0 <= i <= |t| && HasPrefixAt(t, i, p)
  {
    FindFirst(t, p, 0);
    if Contains(t, p) {
      assert HasPrefixAt(t, Find(t, p, 0), p);
    }
  }

  /** If `q` occurs in `t`, so does every piece of `q`. */
  lemma {:induction false} ContainsInfix(t: string, q: string, k: nat, p: string)
    requires Contains(t, q) && HasPrefixAt(q, k, p)
    ensures Contains(t, p)
  {
    var i := Find(t, q, 0);
    assert HasPrefixAt(t, i, q);
    forall j | 0 <= j < |p| ensures t[i + k + j] == p[j] {
      assert p[j] == q[k..k + |p|][j] == q[k + j];
      assert t[i + k + j] == t[i..i + |q|][k + j];
    }
    assert t[i + k..i + k + |p|] == p;
    assert HasPrefixAt(t, i + k, p);
    ContainsIff(t, p);
  }

  /** The number of occurrences of `c` in `s`. */
  function CountChar(s: string, c: char): nat {
    if s == [] then 0 else (if s[0] == c then 1 else 0) + CountChar(s[1..], c)
  }

  /** `s.split(sep)` for a one-character separator: never empty. */
  function Split(s: string, sep: char): (pieces: seq<string>)
    ensures |pieces| > 0
  {
    if s == [] then [[]]
    else
      var rest := Split(s[1..], sep);
      if s[0] == sep then [[]] + rest else [[s[0]] + rest[0]] + rest[1..]
  }

  /** `sep.join(pieces)` */
  function JoinWith(pieces: seq<string>, sep: char): string
    requires |pieces| > 0
  {
    if |pieces| == 1 then pieces[0] else pieces[0] + [sep] + JoinWith(pieces[1..], sep)
  }

  /** Splitting yields one more piece than there are separators. */
  lemma {:induction false} SplitLength(s: string, sep: char)
    ensures |Split(s, sep)| == CountChar(s, sep) + 1
  {
    if s != [] {
      SplitLength(s[1..], sep);
    }
  }

  /** No piece holds the separator. */
  lemma {:induction false} SplitPieces(s: string, sep: char)
    ensures forall k :: 0 <= k < |Split(s, sep)| ==> sep !in Split(s, sep)[k]
  {
    if s != [] {
      SplitPieces(s[1..], sep);
    }
  }

  /** Joining the pieces back with the separator gives the original string. */
  lemma {:induction false} SplitJoin(s: string, sep: char)
    ensures JoinWith(Split(s, sep), sep) == s
  {
    if s != [] {
      SplitJoin(s[1..], sep);
      var rest := Split(s[1..], sep);
      if s[0] == sep {
        assert Split(s, sep)[1..] == rest;
      } else {
        var pieces := Split(s, sep);
        if |rest| > 1 {
          assert pieces[1..] == rest[1..];
        }
      }
    }
  }

  /** `s.lstrip()` */
  function TrimStart(s: string): (r: string)
    ensures |r| <= |s| && r == s[|s| - |r|..]
    ensures r == [] || !IsSpace(r[0])
  {
    if s != [] && IsSpace(s[0]) then TrimStart(s[1..]) else s
  }

  /** What `lstrip` removes is whitespace. */
  lemma {:induction false} TrimStartRemovesSpace(s: string)
    ensures forall k :: 0 <= k < |s| - |TrimStart(s)| ==> IsSpace(s[k])
  {
    if s != [] && IsSpace(s[0]) {
      TrimStartRemovesSpace(s[1..]);
    }
  }

  /** `s.rstrip()` */
  function TrimEnd(s: string): (r: string)
    ensures |r| <= |s| && r == s[..|r|]
    ensures r == [] || !IsSpace(r[|r| - 1])
  {
    if s != [] && IsSpace(s[|s| - 1]) then TrimEnd(s[..|s| - 1]) else s
  }

  /** What `rstrip` removes is whitespace. */
  lemma {:induction false} TrimEndRemovesSpace(s: string)
    ensures forall k :: |TrimEnd(s)| <= k < |s| ==> IsSpace(s[k])
  {
    if s != [] && IsSpace(s[|s| - 1]) {
      TrimEndRemovesSpace(s[..|s| - 1]);
    }
  }

  /** `s.strip()` */
  function Strip(s: string): string {
    TrimEnd(TrimStart(s))
  }

  /**
   * `s.lower()` on the letters A-Z. The one test the scripts run on a
   * lowered string looks for "debugging". A non-ASCII character lowers to
   * non-ASCII text, or to a letter followed by a combining mark (U+0130
   * gives "i" and U+0307), which cannot extend a match of that word, so the
   * ASCII mapping decides the test exactly.
   */
  function AsciiLower(s: string): string {
    if s == [] then []
    else [if 'A' <= s[0] <= 'Z' then (s[0] as int + 32) as char else s[0]] + AsciiLower(s[1..])
  }

  /** Lowering keeps the length, leaves no capital letter, and changes nothing else. */
  lemma {:induction false} AsciiLowerLowers(s: string)
    ensures |AsciiLower(s)| == |s|
    ensures forall k :: 0 <= k < |s| ==> !('A' <= AsciiLower(s)[k] <= 'Z')
    ensures forall k :: 0 <= k < |s| && !('A' <= s[k] <= 'Z') ==> AsciiLower(s)[k] == s[k]
    ensures forall k :: 0 <= k < |s| && 'A' <= s[k] <= 'Z' ==> AsciiLower(s)[k] as int == s[k] as int + 32
  {
    if s != [] {
      AsciiLowerLowers(s[1..]);
    }
  }

  /**
   * `s.replace(pat, rep)`: occurrences of a non-empty `pat` are replaced
   * left to right without overlapping; an empty `pat` puts `rep` before
   * every character and at the end.
   */
  function ReplaceAll(s: string, pat: string, rep: string): string
    decreases |s|
  {
    if pat == [] then Interleave(s, rep)
    else if s == [] then []
    else if HasPrefixAt(s, 0, pat) then rep + ReplaceAll(s[|pat|..], pat, rep)
    else [s[0]] + ReplaceAll(s[1..], pat, rep)
  }

  function Interleave(s: string, rep: string): string {
    if s == [] then rep else rep + [s[0]] + Interleave(s[1..], rep)
  }

  /** The number of occurrences `ReplaceAll` replaces: left to right, without overlapping. */
  function Occurrences(s: string, pat: string): nat
    requires pat != []
    decreases |s|
  {
    if s == [] then 0
    else if HasPrefixAt(s, 0, pat) then 1 + Occurrences(s[|pat|..], pat)
    else Occurrences(s[1..], pat)
  }

  /** Replacing a pattern that does not occur changes nothing. */
  lemma {:induction false} ReplaceAbsent(s: string, pat: string, rep: string)
    requires !Contains(s, pat)
    ensures ReplaceAll(s, pat, rep) == s
    decreases |s|
  {
    ContainsIff(s, pat);
    assert pat != [] by {
      assert HasPrefixAt(s, 0, []);
    }
    if s != [] {
      assert !HasPrefixAt(s, 0, pat);
      ContainsIff(s[1..], pat);
      forall i | 0 <= i <= |s[1..]| && HasPrefixAt(s[1..], i, pat)
        ensures false
      {
        assert s[1..][i..i + |pat|] == s[i + 1..i + 1 + |pat|];
        assert HasPrefixAt(s, i + 1, pat);
      }
      ReplaceAbsent(s[1..], pat, rep);
    }
  }

  /** Each replaced occurrence trades the length of the pattern for that of the replacement. */
  lemma {:induction false} ReplaceLength(s: string, pat: string, rep: string)
    requires pat != []
    ensures |ReplaceAll(s, pat, rep)| + Occurrences(s, pat) * |pat| == |s| + Occurrences(s, pat) * |rep|
    decreases |s|
  {
    if s != [] {
      if HasPrefixAt(s, 0, pat) {
        var tail := s[|pat|..];
        ReplaceLength(tail, pat, rep);
        var n := Occurrences(tail, pat);
        MulSucc(n, |pat|);
        MulSucc(n, |rep|);
      } else {
        ReplaceLength(s[1..], pat, rep);
        assert ReplaceAll(s, pat, rep) == [s[0]] + ReplaceAll(s[1..], pat, rep);
      }
    }
  }

  /**
   * The step of `ReplaceLength`'s count: one more occurrence adds one more
   * length. Kept apart so the solver meets the product in a small context.
   */
  lemma MulSucc(n: nat, k: nat)
    ensures (n + 1) * k == n * k + k
  {
  }

  /** Replacing a pattern by itself changes nothing. */
  lemma {:induction false} ReplaceBySelf(s: string, pat: string)
    requires pat != []
    ensures ReplaceAll(s, pat, pat) == s
    decreases |s|
  {
    if s != [] {
      if HasPrefixAt(s, 0, pat) {
        ReplaceBySelf(s[|pat|..], pat);
        assert s == pat + s[|pat|..];
      } else {
        ReplaceBySelf(s[1..], pat);
        assert s == [s[0]] + s[1..];
      }
    }
  }

  /** `a < b` on Python strings: code point by code point, a proper prefix first. */
  predicate LexLess(a: string, b: string) {
    if a == [] then b != []
    else b != [] && (a[0] < b[0] || (a[0] == b[0] && LexLess(a[1..], b[1..])))
  }

  lemma {:induction false} LexLessIrreflexive(a: string)
    ensures !LexLess(a, a)
  {
    if a != [] {
      LexLessIrreflexive(a[1..]);
    }
  }

  lemma {:induction false} LexLessTransitive(a: string, b: string, c: string)
    requires LexLess(a, b) && LexLess(b, c)
    ensures LexLess(a, c)
  {
    if a != [] && a[0] == b[0] && b[0] == c[0] {
      LexLessTransitive(a[1..], b[1..], c[1..]);
    }
  }

  lemma {:induction false} LexLessTotal(a: string, b: string)
    requires a != b
    ensures LexLess(a, b) || LexLess(b, a)
  {
    if a != [] && b != [] && a[0] == b[0] {
      assert a == [a[0]] + a[1..] && b == [b[0]] + b[1..];
      LexLessTotal(a[1..], b[1..]);
    }
  }

  /** Every element is at most every later one. */
  predicate Ascending(s: seq<string>) {
    forall i, j :: 0 <= i < j < |s| ==> !LexLess(s[j], s[i])
  }

  /** Inserts `x` into an ascending sequence. */
  function Insert(x: string, s: seq<string>): (r: seq<string>)
    requires Ascending(s)
    ensures Ascending(r)
    ensures multiset(r) == multiset(s) + multiset{x}
  {
    if s == [] then [x]
    else if !LexLess(s[0], x) then
      assert forall j :: 0 < j < |s| ==> !LexLess(s[j], x) by {
        forall j | 0 < j < |s| ensures !LexLess(s[j], x) {
          if LexLess(s[j], x) {
            if s[j] != s[0] {
              LexLessTotal(s[0], s[j]);
              LexLessTransitive(s[0], s[j], x);
            }
          }
        }
      }
      [x] + s
    else
      var r := [s[0]] + Insert(x, s[1..]);
      assert s == [s[0]] + s[1..];
      assert forall j :: 0 < j < |r| ==> !LexLess(r[j], s[0]) by {
        forall j | 0 < j < |r| ensures !LexLess(r[j], s[0]) {
          if LexLess(r[j], s[0]) {
            assert r[j] in multiset(s[1..]) + multiset{x};
            if r[j] == x {
              LexLessTransitive(s[0], x, s[0]);
              LexLessIrreflexive(s[0]);
            }
          }
        }
      }
      r
  }

  /** `sorted(s)` for a list of strings. */
  function Sort(s: seq<string>): (r: seq<string>)
    ensures Ascending(r)
    ensures multiset(r) == multiset(s)
  {
    if s == [] then []
    else
      assert s == [s[0]] + s[1..];
      Insert(s[0], Sort(s[1..]))
  }
}
