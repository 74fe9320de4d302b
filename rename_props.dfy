/**
 * What the renamer's steps promise: `get(n, n)` on a well-formed table
 * renames old names only and never twice, the directory and evals renames
 * move each old entry to its new name and leave every other name alone,
 * the frontmatter step rewrites exactly the renamed skills' SKILL.md, and
 * `re.sub(..., count=1)` rewrites the first matching `name:` line.
 */
module RenameSkillsProps {
  import opened Options
  import opened Text
  import opened Patterns
  import opened SkillsIndex
  import opened RenameSkills

  // ---------------------------------------------------------------------
  // Tables
  // ---------------------------------------------------------------------

  /** The names of a table are those of its first row and those of the rest. */
  lemma TailNames(t: Table, n: string)
    requires t != []
    ensures IsOld(t, n) <==> t[0].0 == n || IsOld(t[1..], n)
    ensures IsNew(t, n) <==> t[0].1 == n || IsNew(t[1..], n)
  {
    if IsOld(t[1..], n) {
      var i :| 0 <= i < |t[1..]| && t[1..][i].0 == n;
      assert t[i + 1].0 == n;
    }
    if IsOld(t, n) && t[0].0 != n {
      var i :| 0 <= i < |t| && t[i].0 == n;
      assert t[1..][i - 1].0 == n;
    }
    if IsNew(t[1..], n) {
      var i :| 0 <= i < |t[1..]| && t[1..][i].1 == n;
      assert t[i + 1].1 == n;
    }
    if IsNew(t, n) && t[0].1 != n {
      var i :| 0 <= i < |t| && t[i].1 == n;
      assert t[1..][i - 1].1 == n;
    }
  }

  /** Dropping the first row keeps a table well formed, and its names appear nowhere else. */
  lemma WellFormedTail(t: Table)
    requires WellFormed(t) && t != []
    ensures WellFormed(t[1..])
    ensures !IsOld(t[1..], t[0].0) && !IsNew(t[1..], t[0].0)
    ensures !IsOld(t[1..], t[0].1) && !IsNew(t[1..], t[0].1)
  {
    var r := t[1..];
    forall i, j | 0 <= i < j < |r| ensures r[i].0 != r[j].0 && r[i].1 != r[j].1 {
      assert r[i] == t[i + 1] && r[j] == t[j + 1];
    }
    forall i, j | 0 <= i < |r| && 0 <= j < |r| ensures r[i].1 != r[j].0 {
      assert r[i] == t[i + 1] && r[j] == t[j + 1];
    }
    forall i | 0 <= i < |r|
      ensures r[i].0 != t[0].0 && r[i].1 != t[0].0 && r[i].0 != t[0].1 && r[i].1 != t[0].1
    {
      assert r[i] == t[i + 1];
    }
  }

  // ---------------------------------------------------------------------
  // DIR_RENAMES.get(n, n)
  // ---------------------------------------------------------------------

  /**
   * `get(n, n)` gives `n` back for a name that is not an old one, and
   * otherwise the new name of an entry whose old name is `n`.
   */
  lemma {:induction false} LookupChoice(t: Table, n: string)
    ensures !IsOld(t, n) ==> Lookup(t, n) == n
    ensures IsOld(t, n) ==> exists i :: 0 <= i < |t| && t[i].0 == n && Lookup(t, n) == t[i].1
    decreases |t|
  {
    if t != [] {
      TailNames(t, n);
      if t[0].0 != n {
        LookupChoice(t[1..], n);
        if IsOld(t[1..], n) {
          var i :| 0 <= i < |t[1..]| && t[1..][i].0 == n && Lookup(t[1..], n) == t[1..][i].1;
          assert t[i + 1].0 == n && Lookup(t, n) == t[i + 1].1;
        }
      } else {
        assert t[0].0 == n && Lookup(t, n) == t[0].1;
      }
    }
  }

  /** With no old name twice, the entry whose old name is `n` gives its new name (a dict's own lookup). */
  lemma {:induction false} LookupFinds(t: Table, i: nat)
    requires WellFormed(t) && i < |t|
    ensures Lookup(t, t[i].0) == t[i].1
    decreases |t|
  {
    if i > 0 {
      WellFormedTail(t);
      assert t[1..][i - 1] == t[i];
      LookupFinds(t[1..], i - 1);
    }
  }

  /**
   * On a well-formed table `get(n, n)` changes exactly the old names, each
   * into a new name that is not old itself, so a second lookup changes
   * nothing.
   */
  lemma LookupRenamesOldOnly(t: Table, n: string)
    requires WellFormed(t)
    ensures Lookup(t, n) != n <==> IsOld(t, n)
    ensures IsOld(t, n) ==> IsNew(t, Lookup(t, n))
    ensures !IsOld(t, Lookup(t, n))
    ensures Lookup(t, Lookup(t, n)) == Lookup(t, n)
  {
    LookupChoice(t, n);
    if IsOld(t, n) {
      var i :| 0 <= i < |t| && t[i].0 == n && Lookup(t, n) == t[i].1;
      assert t[i].1 != t[i].0;
      assert IsNew(t, t[i].1);
      assert !IsOld(t, t[i].1);
    }
    LookupChoice(t, Lookup(t, n));
  }

  /** The script's own table: each skill name is renamed at most once. */
  lemma DirRenamesLookupIdempotent(n: string)
    ensures Lookup(DirRenames, n) != n <==> IsOld(DirRenames, n)
    ensures Lookup(DirRenames, Lookup(DirRenames, n)) == Lookup(DirRenames, n)
  {
    DirRenamesWellFormed();
    LookupRenamesOldOnly(DirRenames, n);
  }

  // ---------------------------------------------------------------------
  // replace_path
  // ---------------------------------------------------------------------

  /** A path that mentions no old name comes out of `replace_path` unchanged. */
  lemma {:induction false} ReplaceEachAbsent(s: string, t: Table)
    requires forall i :: 0 <= i < |t| ==> !Contains(s, t[i].0)
    ensures ReplaceEach(s, t) == s
    decreases |t|
  {
    if t != [] {
      ReplaceAbsent(s, t[0].0, t[0].1);
      forall i | 0 <= i < |t[1..]| ensures !Contains(s, t[1..][i].0) {
        assert t[1..][i] == t[i + 1];
      }
      ReplaceEachAbsent(s, t[1..]);
    }
  }

  // ---------------------------------------------------------------------
  // Step 1 and step 4: guarded renames
  // ---------------------------------------------------------------------

  /** A name that is neither old nor new is neither added, removed nor changed by the renames. */
  lemma {:induction false} MoveEachUntouched<V>(m: map<string, V>, t: Table, n: string)
    requires !IsOld(t, n) && !IsNew(t, n)
    ensures n in MoveEach(m, t) <==> n in m
    ensures n in m ==> MoveEach(m, t)[n] == m[n]
    decreases |t|
  {
    if t != [] {
      TailNames(t, n);
      MoveEachUntouched(Move(m, t[0].0, t[0].1), t[1..], n);
    }
  }

  /**
   * On a well-formed table each entry's old name is gone afterwards; its
   * new name is there exactly when the old or the new one was before, and
   * holds what the old one held, or what the new one held when there was
   * no old one.
   */
  lemma {:induction false} MoveEachRenames<V>(m: map<string, V>, t: Table, i: nat)
    requires WellFormed(t) && i < |t|
    ensures t[i].0 !in MoveEach(m, t)
    ensures t[i].1 in MoveEach(m, t) <==> t[i].0 in m || t[i].1 in m
    ensures t[i].0 in m ==> MoveEach(m, t)[t[i].1] == m[t[i].0]
    ensures t[i].0 !in m && t[i].1 in m ==> MoveEach(m, t)[t[i].1] == m[t[i].1]
    decreases |t|
  {
    var m' := Move(m, t[0].0, t[0].1);
    WellFormedTail(t);
    if i == 0 {
      assert t[0].0 != t[0].1;
      MoveEachUntouched(m', t[1..], t[0].0);
      MoveEachUntouched(m', t[1..], t[0].1);
    } else {
      assert t[i].0 != t[0].0 && t[i].1 != t[0].1 && t[i].0 != t[0].1 && t[i].1 != t[0].0;
      assert t[1..][i - 1] == t[i];
      MoveEachRenames(m', t[1..], i - 1);
    }
  }

  /** Renames whose old names are all absent change nothing. */
  lemma {:induction false} MoveEachNoOld<V>(m: map<string, V>, t: Table)
    requires forall i :: 0 <= i < |t| ==> t[i].0 !in m
    ensures MoveEach(m, t) == m
    decreases |t|
  {
    if t != [] {
      assert Move(m, t[0].0, t[0].1) == m;
      forall i | 0 <= i < |t[1..]| ensures t[1..][i].0 !in m {
        assert t[1..][i] == t[i + 1];
      }
      MoveEachNoOld(m, t[1..]);
    }
  }

  /** A second pass of the renames finds no old name left and changes nothing. */
  lemma MoveEachIdempotent<V>(m: map<string, V>, t: Table)
    requires WellFormed(t)
    ensures MoveEach(MoveEach(m, t), t) == MoveEach(m, t)
  {
    forall i | 0 <= i < |t| ensures t[i].0 !in MoveEach(m, t) {
      MoveEachRenames(m, t, i);
    }
    MoveEachNoOld(MoveEach(m, t), t);
  }

  /** Suffixing is injective: equal names with the same suffix were equal. */
  lemma SuffixCancel(a: string, b: string, s: string)
    requires a + s == b + s
    ensures a == b
  {
    assert |a| == |b|;
    assert a == (a + s)[..|a|];
    assert b == (b + s)[..|b|];
  }

  /** The evals file names inherit well-formedness from the directory names. */
  lemma EvalsMovesWellFormed(t: Table)
    requires WellFormed(t)
    ensures WellFormed(EvalsMoves(t))
  {
    var r := EvalsMoves(t);
    forall i, j | 0 <= i < j < |r| ensures r[i].0 != r[j].0 && r[i].1 != r[j].1 {
      if r[i].0 == r[j].0 {
        SuffixCancel(t[i].0, t[j].0, EvalsSuffix);
      }
      if r[i].1 == r[j].1 {
        SuffixCancel(t[i].1, t[j].1, EvalsSuffix);
      }
    }
    forall i, j | 0 <= i < |r| && 0 <= j < |r| ensures r[i].1 != r[j].0 {
      if r[i].1 == r[j].0 {
        SuffixCancel(t[i].1, t[j].0, EvalsSuffix);
      }
    }
  }

  /** Running step 4 twice is running it once. */
  lemma EvalsIdempotent(files: map<string, string>, t: Table)
    requires WellFormed(t)
    ensures MoveEach(MoveEach(files, EvalsMoves(t)), EvalsMoves(t)) == MoveEach(files, EvalsMoves(t))
  {
    EvalsMovesWellFormed(t);
    MoveEachIdempotent(files, EvalsMoves(t));
  }

  /** Step 4 on a well-formed table: `<old>-evals.json` is gone and `<new>-evals.json` holds its content. */
  lemma EvalsRenamed(files: map<string, string>, t: Table, i: nat)
    requires WellFormed(t) && i < |t|
    requires t[i].0 + EvalsSuffix in files
    ensures t[i].0 + EvalsSuffix !in MoveEach(files, EvalsMoves(t))
    ensures t[i].1 + EvalsSuffix in MoveEach(files, EvalsMoves(t))
    ensures MoveEach(files, EvalsMoves(t))[t[i].1 + EvalsSuffix] == files[t[i].0 + EvalsSuffix]
  {
    EvalsMovesWellFormed(t);
    MoveEachRenames(files, EvalsMoves(t), i);
  }

  // ---------------------------------------------------------------------
  // Step 3: the frontmatter rewrite
  // ---------------------------------------------------------------------

  /** The frontmatter step adds and removes no directory. */
  lemma {:induction false} SubNameEachKeys(m: map<string, Option<string>>, t: Table)
    ensures SubNameEach(m, t).Keys == m.Keys
    decreases |t|
  {
    if t != [] {
      SubNameEachKeys(SubNameIn(m, t[0].0, t[0].1), t[1..]);
    }
  }

  /** A directory whose name is no new name keeps its SKILL.md as it was. */
  lemma {:induction false} SubNameEachUntouched(m: map<string, Option<string>>, t: Table, n: string)
    requires !IsNew(t, n) && n in m
    ensures n in SubNameEach(m, t) && SubNameEach(m, t)[n] == m[n]
    decreases |t|
  {
    if t != [] {
      TailNames(t, n);
      SubNameEachUntouched(SubNameIn(m, t[0].0, t[0].1), t[1..], n);
    }
  }

  /** Each new directory's SKILL.md, when it is a file, has its `name:` line rewritten once. */
  lemma {:induction false} SubNameEachRewrites(m: map<string, Option<string>>, t: Table, i: nat)
    requires WellFormed(t) && i < |t| && t[i].1 in m
    ensures t[i].1 in SubNameEach(m, t)
    ensures SubNameEach(m, t)[t[i].1] ==
      (match m[t[i].1]
       case None => None
       case Some(content) => Some(SubNameLine(content, t[i].0, t[i].1)))
    decreases |t|
  {
    var m' := SubNameIn(m, t[0].0, t[0].1);
    WellFormedTail(t);
    if i == 0 {
      SubNameEachUntouched(m', t[1..], t[0].1);
    } else {
      assert t[i].1 != t[0].1;
      assert t[1..][i - 1] == t[i];
      SubNameEachRewrites(m', t[1..], i - 1);
    }
  }

  /** `re.sub` with count=1 and MULTILINE: without a matching `name:` line the text is unchanged. */
  lemma SubNameLineUnmatched(t: string, oldName: string, newName: string)
    requires forall i: nat, q: nat, e: nat :: !NameLineShape(t, oldName, i, q, e)
    ensures SubNameLine(t, oldName, newName) == t
  {
    match FirstFrom(NameMatchWhere(t, oldName), 0, |t|)
    case None =>
    case Some(i) => assert false;
  }

  /** Where the name pattern does not match, no line of the name shape starts. */
  lemma NoShapeWhereNoMatch(t: string, oldName: string, j: nat)
    requires !NameMatchesAt(t, oldName, j)
    ensures forall q: nat, e: nat :: !NameLineShape(t, oldName, j, q, e)
  {
    if KeyLineAt(t, "name:", j) {
      NameMatchAtGreedy(t, oldName, j);
    }
  }

  /**
   * `re.sub` with count=1 and MULTILINE on a text with a matching `name:`
   * line: the leftmost such line, from its start to the end of the longest
   * match there, is replaced by `name: <new>`.
   */
  lemma SubNameLineRewrites(t: string, oldName: string, newName: string) returns (i: nat, q: nat, e: nat)
    requires exists i: nat, q: nat, e: nat :: NameLineShape(t, oldName, i, q, e)
    ensures NameLineShape(t, oldName, i, q, e)
    ensures forall j: nat, q': nat, e': nat :: j < i ==> !NameLineShape(t, oldName, j, q', e')
    ensures forall e': nat :: e < e' ==> !NameLineShape(t, oldName, i, q, e')
    ensures SubNameLine(t, oldName, newName) == t[..i] + "name: " + newName + t[e..]
  {
    var P := NameMatchWhere(t, oldName);
    var i0: nat, q0: nat, e0: nat :| NameLineShape(t, oldName, i0, q0, e0);
    NameMatchAtGreedy(t, oldName, i0);
    assert P(i0);
    FirstFromIsFirst(P, 0, |t|);
    i := FirstFrom(P, 0, |t|).value;
    q, e := NameMatchAt(t, oldName, i).value.0, NameMatchAt(t, oldName, i).value.1;
    NameMatchAtGreedy(t, oldName, i);
    forall j: nat, q': nat, e': nat | j < i ensures !NameLineShape(t, oldName, j, q', e') {
      assert !P(j);
      NoShapeWhereNoMatch(t, oldName, j);
    }
  }

  // ---------------------------------------------------------------------
  // Steps 1 and 3 together
  // ---------------------------------------------------------------------

  /**
   * After main, on a well-formed table: no old directory is left; a new
   * directory is there exactly when its old or new one was; a moved
   * directory's SKILL.md has had its `name:` line rewritten.
   */
  lemma RunSkills(m: map<string, Option<string>>, t: Table, i: nat)
    requires WellFormed(t) && i < |t|
    ensures t[i].0 !in SubNameEach(MoveEach(m, t), t)
    ensures t[i].1 in SubNameEach(MoveEach(m, t), t) <==> t[i].0 in m || t[i].1 in m
    ensures t[i].0 in m && m[t[i].0].None? ==> SubNameEach(MoveEach(m, t), t)[t[i].1] == None
    ensures t[i].0 in m && m[t[i].0].Some? ==>
      SubNameEach(MoveEach(m, t), t)[t[i].1] == Some(SubNameLine(m[t[i].0].value, t[i].0, t[i].1))
  {
    var moved := MoveEach(m, t);
    MoveEachRenames(m, t, i);
    SubNameEachKeys(moved, t);
    if t[i].1 in moved {
      SubNameEachRewrites(moved, t, i);
    }
  }

  /** A directory named in no entry of the table comes out of main as it went in. */
  lemma RunSkillsUntouched(m: map<string, Option<string>>, t: Table, n: string)
    requires !IsOld(t, n) && !IsNew(t, n)
    ensures n in SubNameEach(MoveEach(m, t), t) <==> n in m
    ensures n in m ==> SubNameEach(MoveEach(m, t), t)[n] == m[n]
  {
    var moved := MoveEach(m, t);
    MoveEachUntouched(m, t, n);
    SubNameEachKeys(moved, t);
    if n in moved {
      SubNameEachUntouched(moved, t, n);
    }
  }

  // ---------------------------------------------------------------------
  // Step 2: the index entries
  // ---------------------------------------------------------------------

  /**
   * A renamed entry's name and path are both the new name, which is no old
   * name; an entry renamed twice has the same name and path as one renamed
   * once; its reference list keeps its length.
   */
  lemma RenamedName(e: Entry, t: Table)
    requires WellFormed(t)
    ensures Renamed(e, t).name == Renamed(e, t).path
    ensures !IsOld(t, e.name) ==> Renamed(e, t).name == e.name
    ensures IsOld(t, e.name) ==> IsNew(t, Renamed(e, t).name)
    ensures !IsOld(t, Renamed(e, t).name)
    ensures Renamed(Renamed(e, t), t).name == Renamed(e, t).name
    ensures Renamed(Renamed(e, t), t).path == Renamed(e, t).path
    ensures |Renamed(e, t).reference| == |e.reference|
  {
    LookupRenamesOldOnly(t, e.name);
  }

  /**
   * An entry that already uses a name no entry renames, as its path too,
   * and whose file paths mention no old name, is left as it is.
   */
  lemma RenamedClean(e: Entry, t: Table)
    requires !IsOld(t, e.name) && e.path == e.name
    requires forall i :: 0 <= i < |t| ==> !Contains(e.skillMd, t[i].0)
    requires forall i, k :: 0 <= i < |t| && 0 <= k < |e.reference| ==> !Contains(e.reference[k], t[i].0)
    ensures Renamed(e, t) == e
  {
    LookupChoice(t, e.name);
    ReplaceEachAbsent(e.skillMd, t);
    var r := Renamed(e, t);
    forall k | 0 <= k < |e.reference| ensures r.reference[k] == e.reference[k] {
      ReplaceEachAbsent(e.reference[k], t);
    }
    assert r.reference == e.reference;
  }

  /**
   * Rewriting an entry a second time changes nothing, provided its
   * rewritten file paths mention no old name.
   */
  lemma RenamedTwice(e: Entry, t: Table)
    requires WellFormed(t)
    requires forall i :: 0 <= i < |t| ==> !Contains(Renamed(e, t).skillMd, t[i].0)
    requires forall i, k :: 0 <= i < |t| && 0 <= k < |Renamed(e, t).reference| ==>
      !Contains(Renamed(e, t).reference[k], t[i].0)
    ensures Renamed(Renamed(e, t), t) == Renamed(e, t)
  {
    RenamedName(e, t);
    RenamedClean(Renamed(e, t), t);
  }
}
