/**
 * The regular expressions the two scripts use, each worked out as the
 * leftmost match Python's `re` finds with re.MULTILINE: `^` holds at the
 * start of the text and just after every newline, `$` at the end of the
 * text and just before every newline, and `\s` (which also matches a
 * newline) is `IsSpace`. Greedy repetition tries the longest run first and
 * backs off one character at a time; the functions below pick the same
 * positions, and the lemmas below them say why these are the positions
 * `re` picks.
 */
module Patterns {
  import opened Options
  import opened Text

  /** Where `^` holds under re.MULTILINE. */
  predicate LineStart(t: string, i: nat) {
    i <= |t| && (i == 0 || t[i - 1] == '\n')
  }

  /** Where `$` holds under re.MULTILINE. */
  predicate LineEndAt(t: string, i: nat) {
    i == |t| || (i < |t| && t[i] == '\n')
  }

  /** The character classes repeated in the patterns: `\s`, `\S` and `.`. */
  datatype CharClass = Space | NonSpace | NonNewline

  predicate Accepts(cls: CharClass, c: char) {
    match cls
    case Space => IsSpace(c)
    case NonSpace => !IsSpace(c)
    case NonNewline => c != '\n'
  }

  /** Where a greedy repetition of `cls` starting at `i` stops. */
  function RunEnd(t: string, cls: CharClass, i: nat): (j: nat)
    requires i <= |t|
    ensures i <= j <= |t|
    ensures j == |t| || !Accepts(cls, t[j])
    decreases |t| - i
  {
    if i < |t| && Accepts(cls, t[i]) then RunEnd(t, cls, i + 1) else i
  }

  /** The run accepts every character it covers. */
  lemma {:induction false} RunEndAccepts(t: string, cls: CharClass, i: nat)
    requires i <= |t|
    ensures forall k :: i <= k < RunEnd(t, cls, i) ==> Accepts(cls, t[k])
    decreases |t| - i
  {
    if i < |t| && Accepts(cls, t[i]) {
      RunEndAccepts(t, cls, i + 1);
    }
  }

  /** Every character of `t[lo..hi]` is whitespace. */
  predicate AllSpace(t: string, lo: nat, hi: nat)
    requires lo <= hi <= |t|
  {
    forall k :: lo <= k < hi ==> IsSpace(t[k])
  }

  /** Whitespace runs from `lo` to `hi` exactly when `hi` is not past the end of the run. */
  lemma AllSpaceIff(t: string, lo: nat, hi: nat)
    requires lo <= hi <= |t|
    ensures AllSpace(t, lo, hi) <==> hi <= RunEnd(t, Space, lo)
  {
    RunEndAccepts(t, Space, lo);
  }

  // ---------------------------------------------------------------------
  // Searching: `re.search` tries the positions left to right, and a
  // greedy repetition backs off right to left.
  // ---------------------------------------------------------------------

  /** The least `i` in `from..hi` at which `P` holds. */
  function FirstFrom(P: nat -> bool, from: nat, hi: nat): (r: Option<nat>)
    ensures r.Some? ==> from <= r.value <= hi && P(r.value)
    decreases hi + 1 - from
  {
    if from > hi then None
    else if P(from) then Some(from)
    else FirstFrom(P, from + 1, hi)
  }

  /** The search finds the least such position, and gives up only when there is none. */
  lemma {:induction false} FirstFromIsFirst(P: nat -> bool, from: nat, hi: nat)
    ensures FirstFrom(P, from, hi).Some? ==> forall i :: from <= i < FirstFrom(P, from, hi).value ==> !P(i)
    ensures FirstFrom(P, from, hi).None? ==> forall i :: from <= i <= hi ==> !P(i)
    decreases hi + 1 - from
  {
    if from <= hi && !P(from) {
      FirstFromIsFirst(P, from + 1, hi);
    }
  }

  /** The greatest `i` in `lo..hi` at which `P` holds. */
  function LastIn(P: nat -> bool, lo: nat, hi: nat): (r: Option<nat>)
    ensures r.Some? ==> lo <= r.value <= hi && P(r.value)
    decreases hi
  {
    if hi < lo then None
    else if P(hi) then Some(hi)
    else if hi == 0 then None
    else LastIn(P, lo, hi - 1)
  }

  /** The backward search finds the greatest such position, and gives up only when there is none. */
  lemma {:induction false} LastInIsLast(P: nat -> bool, lo: nat, hi: nat)
    ensures LastIn(P, lo, hi).Some? ==> forall i :: LastIn(P, lo, hi).value < i <= hi ==> !P(i)
    ensures LastIn(P, lo, hi).None? ==> forall i :: lo <= i <= hi ==> !P(i)
    decreases hi
  {
    if lo <= hi && !P(hi) && hi > 0 {
      LastInIsLast(P, lo, hi - 1);
    }
  }

  // ---------------------------------------------------------------------
  // ^key  (a key without special characters)
  // ---------------------------------------------------------------------

  predicate KeyLineAt(t: string, key: string, i: nat) {
    LineStart(t, i) && HasPrefixAt(t, i, key)
  }

  function KeyLineWhere(t: string, key: string): nat -> bool {
    (i: nat) => KeyLineAt(t, key, i)
  }

  /** `re.search('^' + key, t, re.MULTILINE)` finds a match. */
  predicate HasKeyLine(t: string, key: string) {
    FirstFrom(KeyLineWhere(t, key), 0, |t|).Some?
  }

  /** The search matches exactly when some line of `t` begins with `key`. */
  lemma HasKeyLineIff(t: string, key: string)
    ensures HasKeyLine(t, key) <==> exists i :: 0 <= i <= |t| && KeyLineAt(t, key, i)
  {
    var P := KeyLineWhere(t, key);
    FirstFromIsFirst(P, 0, |t|);
    if HasKeyLine(t, key) {
      var i := FirstFrom(P, 0, |t|).value;
      assert P(i);
    }
    if exists i :: 0 <= i <= |t| && KeyLineAt(t, key, i) {
      var i :| 0 <= i <= |t| && KeyLineAt(t, key, i);
      assert P(i);
    }
  }

  // ---------------------------------------------------------------------
  // ^\s+key\s*value  (key and value begin with a non-space character,
  // or value is empty)
  // ---------------------------------------------------------------------

  /**
   * `^\s+` followed by `key`, then `\s*` and `value`, matches at `i`. As
   * `key` and `value` begin with a non-space character, each repetition
   * must take its whole run of whitespace.
   */
  predicate IndentedKeyAt(t: string, key: string, value: string, i: nat) {
    LineStart(t, i) &&
    var j := RunEnd(t, Space, i);
    i < j && HasPrefixAt(t, j, key) && HasPrefixAt(t, RunEnd(t, Space, j + |key|), value)
  }

  function IndentedKeyWhere(t: string, key: string, value: string): nat -> bool {
    (i: nat) => IndentedKeyAt(t, key, value, i)
  }

  /** `re.search(r'^\s+' + key + r'\s*' + value, t, re.MULTILINE)` finds a match. */
  predicate HasIndentedKey(t: string, key: string, value: string) {
    FirstFrom(IndentedKeyWhere(t, key, value), 0, |t|).Some?
  }

  /** The search matches exactly when the pattern matches at some line start. */
  lemma HasIndentedKeyIff(t: string, key: string, value: string)
    ensures HasIndentedKey(t, key, value) <==> exists i :: 0 <= i <= |t| && IndentedKeyAt(t, key, value, i)
  {
    var P := IndentedKeyWhere(t, key, value);
    FirstFromIsFirst(P, 0, |t|);
    if HasIndentedKey(t, key, value) {
      var i := FirstFrom(P, 0, |t|).value;
      assert P(i);
    }
    if exists i :: 0 <= i <= |t| && IndentedKeyAt(t, key, value, i) {
      var i :| 0 <= i <= |t| && IndentedKeyAt(t, key, value, i);
      assert P(i);
    }
  }

  /**
   * The plain reading of `^\s+key\s*value` at `i`: a line start, whitespace
   * from `i` to `j` (at least one character), `key` at `j`, whitespace up to
   * `k`, and `value` at `k`.
   */
  predicate IndentedKeyShape(t: string, key: string, value: string, i: nat, j: nat, k: nat) {
    LineStart(t, i) && i < j <= |t| && AllSpace(t, i, j) && HasPrefixAt(t, j, key) &&
    j + |key| <= k <= |t| && AllSpace(t, j + |key|, k) && HasPrefixAt(t, k, value)
  }

  /**
   * When `key` starts with a non-space character, and `value` does too or is
   * empty, taking each whole whitespace run gives exactly the matches of the
   * plain reading.
   */
  lemma IndentedKeyAtIff(t: string, key: string, value: string, i: nat)
    requires key != [] && !IsSpace(key[0])
    requires value == [] || !IsSpace(value[0])
    ensures IndentedKeyAt(t, key, value, i) <==> exists j: nat, k: nat :: IndentedKeyShape(t, key, value, i, j, k)
  {
    if IndentedKeyAt(t, key, value, i) {
      var j, k := IndentedKeyAtShape(t, key, value, i);
    }
    if exists j: nat, k: nat :: IndentedKeyShape(t, key, value, i, j, k) {
      var j: nat, k: nat :| IndentedKeyShape(t, key, value, i, j, k);
      IndentedShapeAt(t, key, value, i, j, k);
    }
  }

  /** A match taking whole whitespace runs has the plain shape, with the runs' ends as witnesses. */
  lemma IndentedKeyAtShape(t: string, key: string, value: string, i: nat) returns (j: nat, k: nat)
    requires IndentedKeyAt(t, key, value, i)
    ensures IndentedKeyShape(t, key, value, i, j, k)
  {
    j := RunEnd(t, Space, i);
    k := RunEnd(t, Space, j + |key|);
    AllSpaceIff(t, i, j);
    AllSpaceIff(t, j + |key|, k);
  }

  /** The plain shape forces each whitespace run to end where the shape says. */
  lemma IndentedShapeAt(t: string, key: string, value: string, i: nat, j: nat, k: nat)
    requires key != [] && !IsSpace(key[0])
    requires value == [] || !IsSpace(value[0])
    requires IndentedKeyShape(t, key, value, i, j, k)
    ensures IndentedKeyAt(t, key, value, i)
  {
    RunStopsAt(t, i, j, key);
    if value != [] {
      RunStopsAt(t, j + |key|, k, value);
    } else {
      assert HasPrefixAt(t, RunEnd(t, Space, j + |key|), value);
    }
  }

  /** A whitespace run from `lo` that reaches `hi`, where a non-space character begins `p`, ends at `hi`. */
  lemma RunStopsAt(t: string, lo: nat, hi: nat, p: string)
    requires lo <= hi <= |t| && AllSpace(t, lo, hi)
    requires p != [] && !IsSpace(p[0]) && HasPrefixAt(t, hi, p)
    ensures RunEnd(t, Space, lo) == hi
  {
    AllSpaceIff(t, lo, hi);
    RunEndAccepts(t, Space, lo);
    assert t[hi] == t[hi..hi + |p|][0] == p[0];
  }

  /** The search for `^\s+key\s*value` matches exactly when the plain reading holds somewhere. */
  lemma HasIndentedKeyShape(t: string, key: string, value: string)
    requires key != [] && !IsSpace(key[0])
    requires value == [] || !IsSpace(value[0])
    ensures HasIndentedKey(t, key, value) <==> exists i: nat, j: nat, k: nat :: IndentedKeyShape(t, key, value, i, j, k)
  {
    HasIndentedKeyIff(t, key, value);
    if HasIndentedKey(t, key, value) {
      var i :| 0 <= i <= |t| && IndentedKeyAt(t, key, value, i);
      IndentedKeyAtIff(t, key, value, i);
    }
    if exists i: nat, j: nat, k: nat :: IndentedKeyShape(t, key, value, i, j, k) {
      var i: nat, j: nat, k: nat :| IndentedKeyShape(t, key, value, i, j, k);
      IndentedKeyAtIff(t, key, value, i);
    }
  }

  // ---------------------------------------------------------------------
  // ^category:\s*(.+)  and  ^category:\s*(\S+)
  // ---------------------------------------------------------------------

  const CategoryKey := "category:"

  /** Positions inside the text whose character `cls` accepts. */
  function AcceptedWhere(t: string, cls: CharClass): nat -> bool {
    (q: nat) => q < |t| && Accepts(cls, t[q])
  }

  /**
   * Where the group begins when the category pattern is tried at line
   * start `i`: `\s*` backs off from its longest run until the group's class
   * accepts the next character.
   */
  function CategoryGroupStart(t: string, i: nat, cls: CharClass): (r: Option<nat>)
    requires KeyLineAt(t, CategoryKey, i)
    ensures r.Some? ==> r.value < |t| && Accepts(cls, t[r.value])
  {
    LastIn(AcceptedWhere(t, cls), i + |CategoryKey|, RunEnd(t, Space, i + |CategoryKey|))
  }

  /** The category pattern matches at line start `i`. */
  predicate CategoryMatchAt(t: string, cls: CharClass, i: nat) {
    KeyLineAt(t, CategoryKey, i) && CategoryGroupStart(t, i, cls).Some?
  }

  function CategoryMatchWhere(t: string, cls: CharClass): nat -> bool {
    (i: nat) => CategoryMatchAt(t, cls, i)
  }

  /**
   * The group of `re.search(r'^category:\s*(.+)', t, re.MULTILINE)` (class
   * NonNewline) or of `... (\S+)` (class NonSpace), if the search matches:
   * a non-empty run of characters of the class.
   */
  function CategoryGroup(t: string, cls: CharClass): (r: Option<string>)
    ensures r.Some? ==> |r.value| > 0
  {
    match FirstFrom(CategoryMatchWhere(t, cls), 0, |t|)
    case None => None
    case Some(i) =>
      var p := CategoryGroupStart(t, i, cls).value;
      Some(t[p..RunEnd(t, cls, p)])
  }

  /** Every character of the group belongs to the group's class. */
  lemma CategoryGroupAccepts(t: string, cls: CharClass)
    ensures CategoryGroup(t, cls).Some? ==>
      forall k :: 0 <= k < |CategoryGroup(t, cls).value| ==> Accepts(cls, CategoryGroup(t, cls).value[k])
  {
    match FirstFrom(CategoryMatchWhere(t, cls), 0, |t|)
    case None =>
    case Some(i) =>
      var p := CategoryGroupStart(t, i, cls).value;
      RunEndAccepts(t, cls, p);
      var g := t[p..RunEnd(t, cls, p)];
      assert forall k :: 0 <= k < |g| ==> g[k] == t[p + k];
  }

  /** Without a `category:` line there is no group. */
  lemma NoCategoryLineNoGroup(t: string, cls: CharClass)
    requires !HasKeyLine(t, CategoryKey)
    ensures CategoryGroup(t, cls).None?
  {
    HasKeyLineIff(t, CategoryKey);
  }

  // ---------------------------------------------------------------------
  // ^name:\s*OLD\s*$
  // ---------------------------------------------------------------------

  /**
   * The text from line start `i` to `e` reads `name:`, whitespace, `oldName`
   * starting at `q`, whitespace, and `$` holds at `e`.
   */
  predicate NameLineShape(t: string, oldName: string, i: nat, q: nat, e: nat) {
    KeyLineAt(t, "name:", i) && i + 5 <= q <= |t| && AllSpace(t, i + 5, q) &&
    HasPrefixAt(t, q, oldName) && q + |oldName| <= e <= |t| && AllSpace(t, q + |oldName|, e) && LineEndAt(t, e)
  }

  function LineEndWhere(t: string): nat -> bool {
    (e: nat) => LineEndAt(t, e)
  }

  /** Where the trailing `\s*$` that starts at `m` ends: the longest run after which `$` holds. */
  function TrailEnd(t: string, m: nat): (r: Option<nat>)
    requires m <= |t|
    ensures r.Some? ==> m <= r.value <= |t| && AllSpace(t, m, r.value) && LineEndAt(t, r.value)
  {
    var r := LastIn(LineEndWhere(t), m, RunEnd(t, Space, m));
    if r.Some? then
      AllSpaceIff(t, m, r.value);
      r
    else r
  }

  /** No longer run of whitespace is followed by `$`, and None means no run is. */
  lemma TrailEndIsLongest(t: string, m: nat)
    requires m <= |t|
    ensures TrailEnd(t, m).Some? ==>
      forall e :: TrailEnd(t, m).value < e <= |t| && AllSpace(t, m, e) ==> !LineEndAt(t, e)
    ensures TrailEnd(t, m).None? ==> forall e :: m <= e <= |t| && AllSpace(t, m, e) ==> !LineEndAt(t, e)
  {
    var P := LineEndWhere(t);
    var hi := RunEnd(t, Space, m);
    LastInIsLast(P, m, hi);
    assert TrailEnd(t, m) == LastIn(P, m, hi);
    forall e | m <= e <= |t| && AllSpace(t, m, e) && LineEndAt(t, e)
      ensures e <= hi && P(e)
    {
      AllSpaceIff(t, m, e);
    }
  }

  /** OLD stands at `q` and a trailing `\s*$` can follow it. */
  predicate NameFits(t: string, oldName: string, q: nat) {
    HasPrefixAt(t, q, oldName) && TrailEnd(t, q + |oldName|).Some?
  }

  function NameFitsWhere(t: string, oldName: string): nat -> bool {
    (q: nat) => NameFits(t, oldName, q)
  }

  /**
   * The match of `^name:\s*OLD\s*$` at line start `i`, as the position
   * where OLD stands and the end of the match. The leading `\s*` backs off
   * from its longest run until OLD and the trailing `\s*$` both fit.
   */
  function NameMatchAt(t: string, oldName: string, i: nat): (r: Option<(nat, nat)>)
    requires KeyLineAt(t, "name:", i)
    ensures r.Some? ==> NameLineShape(t, oldName, i, r.value.0, r.value.1)
  {
    match LastIn(NameFitsWhere(t, oldName), i + 5, RunEnd(t, Space, i + 5))
    case None => None
    case Some(q) =>
      NameFitsShape(t, oldName, i, q);
      Some((q, TrailEnd(t, q + |oldName|).value))
  }

  /** Where OLD fits within the leading run, the whole line has the name shape. */
  lemma NameFitsShape(t: string, oldName: string, i: nat, q: nat)
    requires KeyLineAt(t, "name:", i)
    requires i + 5 <= q <= RunEnd(t, Space, i + 5) && NameFits(t, oldName, q)
    ensures NameLineShape(t, oldName, i, q, TrailEnd(t, q + |oldName|).value)
  {
    AllSpaceIff(t, i + 5, q);
  }

  /** Any match at line start `i` puts OLD within the leading run, where it fits. */
  lemma NameShapeFits(t: string, oldName: string, i: nat, q: nat, e: nat)
    requires NameLineShape(t, oldName, i, q, e)
    ensures q <= RunEnd(t, Space, i + 5) && NameFits(t, oldName, q)
    ensures e <= TrailEnd(t, q + |oldName|).value
  {
    AllSpaceIff(t, i + 5, q);
    TrailEndIsLongest(t, q + |oldName|);
  }

  /** The match found is the one backtracking reaches first, and None means there is none. */
  lemma NameMatchAtGreedy(t: string, oldName: string, i: nat)
    requires KeyLineAt(t, "name:", i)
    ensures NameMatchAt(t, oldName, i).Some? ==>
      (forall q, e :: NameMatchAt(t, oldName, i).value.0 < q && q + |oldName| <= e ==>
         !NameLineShape(t, oldName, i, q, e)) &&
      (forall e :: NameMatchAt(t, oldName, i).value.1 < e ==>
         !NameLineShape(t, oldName, i, NameMatchAt(t, oldName, i).value.0, e))
    ensures NameMatchAt(t, oldName, i).None? ==>
      forall q, e :: 0 <= q && q + |oldName| <= e ==> !NameLineShape(t, oldName, i, q, e)
  {
    var hi := RunEnd(t, Space, i + 5);
    LastInIsLast(NameFitsWhere(t, oldName), i + 5, hi);
    forall q: nat, e: nat | NameLineShape(t, oldName, i, q, e)
      ensures q <= hi && NameFitsWhere(t, oldName)(q) && e <= TrailEnd(t, q + |oldName|).value
    {
      NameShapeFits(t, oldName, i, q, e);
    }
  }

  /** The name pattern matches at line start `i`. */
  predicate NameMatchesAt(t: string, oldName: string, i: nat) {
    KeyLineAt(t, "name:", i) && NameMatchAt(t, oldName, i).Some?
  }

  function NameMatchWhere(t: string, oldName: string): nat -> bool {
    (i: nat) => NameMatchesAt(t, oldName, i)
  }

  /**
   * `re.sub(r"^name:\s*" + re.escape(oldName) + r"\s*$", "name: " + newName, t,
   * count=1, flags=re.MULTILINE)`; the replacement is taken literally, as
   * it is for replacements without backslashes.
   */
  function SubNameLine(t: string, oldName: string, newName: string): string {
    match FirstFrom(NameMatchWhere(t, oldName), 0, |t|)
    case None => t
    case Some(i) =>
      var e := NameMatchAt(t, oldName, i).value.1;
      t[..i] + "name: " + newName + t[e..]
  }
}
