/**
 * The one-off renamer of skill directories: a fixed table from old to new
 * directory names, `replace_path` (every old name replaced by its new name
 * in a path, entry by entry), and the four steps of `main`: rename the
 * directories, rewrite skills_index.json, rewrite the `name:` line of each
 * renamed skill's SKILL.md, rename the evals files.
 *
 * The functions say what each step leaves behind; the class `Repo` holds
 * the part of the repository the script changes and its methods make the
 * changes step by step, each proved to leave what the matching function
 * says.
 */
module RenameSkills {
  import opened Options
  import opened Text
  import opened Patterns
  import opened SkillsIndex

  /** A rename table: (old name, new name) pairs in the order a dict literal lists them. */
  type Table = seq<(string, string)>

  /** `DIR_RENAMES`: every skill directory whose name changes. */
  const DirRenames: Table := [
    ("appium-automation-skill", "appium-skill"),
    ("behat-automation-skill", "behat-skill"),
    ("behave-automation-skill", "behave-skill"),
    ("capybara-automation-skill", "capybara-skill"),
    ("codeception-testing-skill", "codeception-skill"),
    ("cucumber-automation-skill", "cucumber-skill"),
    ("cypress-automation-skill", "cypress-skill"),
    ("detox-automation-skill", "detox-skill"),
    ("espresso-automation-skill", "espresso-skill"),
    ("gauge-automation-skill", "gauge-skill"),
    ("geb-automation-skill", "geb-skill"),
    ("jasmine-testing-skill", "jasmine-skill"),
    ("jest-testing-skill", "jest-skill"),
    ("junit-testing-skill", "junit-5-skill"),
    ("karma-testing-skill", "karma-skill"),
    ("lettuce-testing-skill", "lettuce-skill"),
    ("mocha-testing-skill", "mocha-skill"),
    ("mstest-testing-skill", "mstest-skill"),
    ("nemojs-automation-skill", "nemojs-skill"),
    ("nightwatchjs-automation-skill", "nightwatchjs-skill"),
    ("nunit-testing-skill", "nunit-skill"),
    ("phpunit-testing-skill", "phpunit-skill"),
    ("playwright-automation-skill", "playwright-skill"),
    ("protractor-automation-skill", "protractor-skill"),
    ("puppeteer-automation-skill", "puppeteer-skill"),
    ("pytest-testing-skill", "pytest-skill"),
    ("rspec-testing-skill", "rspec-skill"),
    ("selenide-automation-skill", "selenide-skill"),
    ("selenium-automation-skill", "selenium-skill"),
    ("smartui-testing-skill", "smartui-skill"),
    ("specflow-automation-skill", "specflow-skill"),
    ("testcafe-automation-skill", "testcafe-skill"),
    ("testng-testing-skill", "testng-skill"),
    ("testunit-ruby-skill", "testunit-skill"),
    ("unittest-testing-skill", "unittest-skill"),
    ("vitest-testing-skill", "vitest-skill"),
    ("webdriverio-automation-skill", "webdriverio-skill"),
    ("xcuitest-automation-skill", "xcuitest-skill"),
    ("xunit-testing-skill", "xunit-skill")
  ]

  // ---------------------------------------------------------------------
  // Table lookups and replace_path
  // ---------------------------------------------------------------------

  /** `n` is an old name of the table. */
  predicate IsOld(t: Table, n: string) {
    exists i :: 0 <= i < |t| && t[i].0 == n
  }

  /** `n` is a new name of the table. */
  predicate IsNew(t: Table, n: string) {
    exists i :: 0 <= i < |t| && t[i].1 == n
  }

  /**
   * A table a dict can hold and whose renames cannot interfere: no old
   * name twice, no new name twice, and no new name that is also an old
   * name (so no entry maps a name to itself).
   */
  predicate WellFormed(t: Table) {
    (forall i, j :: 0 <= i < j < |t| ==> t[i].0 != t[j].0) &&
    (forall i, j :: 0 <= i < j < |t| ==> t[i].1 != t[j].1) &&
    (forall i, j :: 0 <= i < |t| && 0 <= j < |t| ==> t[i].1 != t[j].0)
  }

  /** `t.get(n, n)`: the new name of the entry for `n`, or `n` when there is none. */
  function Lookup(t: Table, n: string): string
    decreases |t|
  {
    if t == [] then n
    else if t[0].0 == n then t[0].1
    else Lookup(t[1..], n)
  }

  /** `replace_path(s, t)`: each old name, in table order, replaced everywhere by its new name. */
  function ReplaceEach(s: string, t: Table): string
    decreases |t|
  {
    if t == [] then s
    else ReplaceEach(ReplaceAll(s, t[0].0, t[0].1), t[1..])
  }

  /** `replace_path`, as the script computes it. */
  method ReplacePath(s: string, renames: Table) returns (r: string)
    ensures r == ReplaceEach(s, renames)
  {
    r := s;
    var i := 0;
    while i < |renames|
      invariant 0 <= i <= |renames|
      invariant ReplaceEach(r, renames[i..]) == ReplaceEach(s, renames)
    {
      assert renames[i..][1..] == renames[i + 1..];
      r := ReplaceAll(r, renames[i].0, renames[i].1);
      i := i + 1;
    }
  }

  // ---------------------------------------------------------------------
  // Why DirRenames is well formed
  // ---------------------------------------------------------------------

  /** `a` sorts before `b` on their first seven characters. */
  predicate Before(a: string, b: string) {
    7 <= |a| && 7 <= |b| &&
    (a[0] < b[0] || (a[0] == b[0] &&
    (a[1] < b[1] || (a[1] == b[1] &&
    (a[2] < b[2] || (a[2] == b[2] &&
    (a[3] < b[3] || (a[3] == b[3] &&
    (a[4] < b[4] || (a[4] == b[4] &&
    (a[5] < b[5] || (a[5] == b[5] && a[6] < b[6]))))))))))))
  }

  /**
   * A hyphen where `-automation-skill`, `-testing-skill` or `-ruby-skill`
   * would begin: 17, 14 or 11 characters from the end.
   */
  predicate OldSuffix(s: string) {
    (17 <= |s| && s[|s| - 17] == '-') || (14 <= |s| && s[|s| - 14] == '-') || (11 <= |s| && s[|s| - 11] == '-')
  }

  /** A chain of `Before` steps orders every earlier element before every later one. */
  lemma {:induction false} BeforeChain(xs: seq<string>)
    requires forall i :: 0 <= i < |xs| - 1 ==> Before(xs[i], xs[i + 1])
    ensures forall i, j :: 0 <= i < j < |xs| ==> Before(xs[i], xs[j])
  {
    if xs != [] {
      var init := xs[..|xs| - 1];
      BeforeChain(init);
      forall i, j | 0 <= i < j < |xs| ensures Before(xs[i], xs[j]) {
        if j < |xs| - 1 {
          assert Before(init[i], init[j]);
        } else if i < j - 1 {
          assert Before(init[i], init[j - 1]);
        }
      }
    }
  }

  /** The old names of a table, in order. */
  function Olds(t: Table): (r: seq<string>)
    ensures |r| == |t| && forall i :: 0 <= i < |t| ==> r[i] == t[i].0
  {
    seq(|t|, i requires 0 <= i < |t| => t[i].0)
  }

  /** The new names of a table, in order. */
  function News(t: Table): (r: seq<string>)
    ensures |r| == |t| && forall i :: 0 <= i < |t| ==> r[i] == t[i].1
  {
    seq(|t|, i requires 0 <= i < |t| => t[i].1)
  }

  /**
   * Row `k` of `t` fits the pattern that makes the table well formed: its
   * old name carries an old suffix and its new name none, and each of its
   * names sorts before the one in the next row.
   */
  predicate RowFits(t: Table, k: nat) {
    k < |t| && OldSuffix(t[k].0) && !OldSuffix(t[k].1) &&
    (k + 1 < |t| ==> Before(t[k].0, t[k + 1].0) && Before(t[k].1, t[k + 1].1))
  }

  /** A table whose every row fits is well formed. */
  lemma WellFormedByRows(t: Table)
    requires forall k :: 0 <= k < |t| ==> RowFits(t, k)
    ensures WellFormed(t)
  {
    var olds, news := Olds(t), News(t);
    forall i | 0 <= i < |t| - 1 ensures Before(olds[i], olds[i + 1]) && Before(news[i], news[i + 1]) {
      assert RowFits(t, i);
    }
    BeforeChain(olds);
    BeforeChain(news);
    forall i, j | 0 <= i < j < |t| ensures t[i].0 != t[j].0 && t[i].1 != t[j].1 {
      assert Before(olds[i], olds[j]) && Before(news[i], news[j]);
    }
    forall i, j | 0 <= i < |t| && 0 <= j < |t| ensures t[i].1 != t[j].0 {
      assert RowFits(t, i) && RowFits(t, j);
    }
  }

  lemma RowsFrom0()
    ensures RowFits(DirRenames, 0) && RowFits(DirRenames, 1)
  {
  }

  lemma RowsFrom2()
    ensures RowFits(DirRenames, 2) && RowFits(DirRenames, 3)
  {
  }

  lemma RowsFrom4()
    ensures RowFits(DirRenames, 4) && RowFits(DirRenames, 5)
  {
  }

  lemma RowsFrom6()
    ensures RowFits(DirRenames, 6) && RowFits(DirRenames, 7)
  {
  }

  lemma RowsFrom8()
    ensures RowFits(DirRenames, 8) && RowFits(DirRenames, 9)
  {
  }

  lemma RowsFrom10()
    ensures RowFits(DirRenames, 10) && RowFits(DirRenames, 11)
  {
  }

  lemma RowsFrom12()
    ensures RowFits(DirRenames, 12) && RowFits(DirRenames, 13)
  {
  }

  lemma RowsFrom14()
    ensures RowFits(DirRenames, 14) && RowFits(DirRenames, 15)
  {
  }

  lemma RowsFrom16()
    ensures RowFits(DirRenames, 16) && RowFits(DirRenames, 17)
  {
  }

  lemma RowsFrom18()
    ensures RowFits(DirRenames, 18) && RowFits(DirRenames, 19)
  {
  }

  lemma RowsFrom20()
    ensures RowFits(DirRenames, 20) && RowFits(DirRenames, 21)
  {
  }

  lemma RowsFrom22()
    ensures RowFits(DirRenames, 22) && RowFits(DirRenames, 23)
  {
  }

  lemma RowsFrom24()
    ensures RowFits(DirRenames, 24) && RowFits(DirRenames, 25)
  {
  }

  lemma RowsFrom26()
    ensures RowFits(DirRenames, 26) && RowFits(DirRenames, 27)
  {
  }

  lemma RowsFrom28()
    ensures RowFits(DirRenames, 28) && RowFits(DirRenames, 29)
  {
  }

  lemma RowsFrom30()
    ensures RowFits(DirRenames, 30) && RowFits(DirRenames, 31)
  {
  }

  lemma RowsFrom32()
    ensures RowFits(DirRenames, 32) && RowFits(DirRenames, 33)
  {
  }

  lemma RowsFrom34()
    ensures RowFits(DirRenames, 34) && RowFits(DirRenames, 35)
  {
  }

  lemma RowsFrom36()
    ensures RowFits(DirRenames, 36) && RowFits(DirRenames, 37)
  {
  }

  lemma RowsFrom38()
    ensures RowFits(DirRenames, 38)
  {
  }

  /** The rows of a 39-row table fit one by one, so all of them do. */
  lemma AllRowsFit(t: Table)
    requires |t| == 39
    requires RowFits(t, 0) && RowFits(t, 1) && RowFits(t, 2) && RowFits(t, 3) && RowFits(t, 4) && RowFits(t, 5) && RowFits(t, 6) && RowFits(t, 7) && RowFits(t, 8) && RowFits(t, 9) && RowFits(t, 10) && RowFits(t, 11) && RowFits(t, 12) && RowFits(t, 13) && RowFits(t, 14) && RowFits(t, 15) && RowFits(t, 16) && RowFits(t, 17) && RowFits(t, 18) && RowFits(t, 19) && RowFits(t, 20) && RowFits(t, 21) && RowFits(t, 22) && RowFits(t, 23) && RowFits(t, 24) && RowFits(t, 25) && RowFits(t, 26) && RowFits(t, 27) && RowFits(t, 28) && RowFits(t, 29) && RowFits(t, 30) && RowFits(t, 31) && RowFits(t, 32) && RowFits(t, 33) && RowFits(t, 34) && RowFits(t, 35) && RowFits(t, 36) && RowFits(t, 37) && RowFits(t, 38)
    ensures forall k :: 0 <= k < |t| ==> RowFits(t, k)
  {
  }

  /**
   * Every entry changes the name, no new name is an old one, and no two
   * entries share an old or a new name: both columns are sorted, and only
   * the old names end in one of the three old suffixes.
   */
  lemma DirRenamesWellFormed()
    ensures WellFormed(DirRenames)
  {
    RowsFrom0(); RowsFrom2(); RowsFrom4(); RowsFrom6(); RowsFrom8(); RowsFrom10(); RowsFrom12(); RowsFrom14(); RowsFrom16(); RowsFrom18();
    RowsFrom20(); RowsFrom22(); RowsFrom24(); RowsFrom26(); RowsFrom28(); RowsFrom30(); RowsFrom32(); RowsFrom34(); RowsFrom36(); RowsFrom38();
    AllRowsFit(DirRenames);
    WellFormedByRows(DirRenames);
  }

  // ---------------------------------------------------------------------
  // What each step of main leaves behind
  // ---------------------------------------------------------------------

  /** `os.rename(from, to)` inside one directory whose entries are `m`, when `from` is there. */
  function Move<V>(m: map<string, V>, from: string, to: string): map<string, V> {
    if from in m then (m - {from})[to := m[from]] else m
  }

  /** The guarded renames of the table's entries, one after the other. */
  function MoveEach<V>(m: map<string, V>, t: Table): map<string, V>
    decreases |t|
  {
    if t == [] then m
    else MoveEach(Move(m, t[0].0, t[0].1), t[1..])
  }

  /** What the index rewrite makes of one entry of skills_index.json. */
  function Renamed(e: Entry, t: Table): Entry {
    var n := Lookup(t, e.name);
    Entry(n, n, ReplaceEach(e.skillMd, t), seq(|e.reference|, k requires 0 <= k < |e.reference| => ReplaceEach(e.reference[k], t)))
  }

  /** Rewrites the `name:` line of `newName`'s SKILL.md, when the skill has one as a file. */
  function SubNameIn(skills: map<string, Option<string>>, oldName: string, newName: string): map<string, Option<string>> {
    if newName in skills && skills[newName].Some?
    then skills[newName := Some(SubNameLine(skills[newName].value, oldName, newName))]
    else skills
  }

  /** The frontmatter step: each entry's new directory gets its `name:` line rewritten. */
  function SubNameEach(skills: map<string, Option<string>>, t: Table): map<string, Option<string>>
    decreases |t|
  {
    if t == [] then skills
    else SubNameEach(SubNameIn(skills, t[0].0, t[0].1), t[1..])
  }

  const EvalsSuffix := "-evals.json"

  /** The evals step's renames: `<old>-evals.json` to `<new>-evals.json`. */
  function EvalsMoves(t: Table): (r: Table)
    ensures |r| == |t|
    ensures forall i :: 0 <= i < |t| ==> r[i] == (t[i].0 + EvalsSuffix, t[i].1 + EvalsSuffix)
  {
    seq(|t|, i requires 0 <= i < |t| => (t[i].0 + EvalsSuffix, t[i].1 + EvalsSuffix))
  }

  // ---------------------------------------------------------------------
  // main
  // ---------------------------------------------------------------------

  /** The part of the repository the renamer reads and changes. */
  class Repo {
    /** The top-level directories, each with the content of its SKILL.md when that is a file. */
    var skills: map<string, Option<string>>
    /** The `skills` list of skills_index.json, or None when that file is missing or is not JSON. */
    var index: Option<seq<Entry>>
    /** The files of `evals/` with their content, or None when there is no such directory. */
    var evals: Option<map<string, string>>

    constructor(skills: map<string, Option<string>>, index: Option<seq<Entry>>, evals: Option<map<string, string>>)
      ensures this.skills == skills && this.index == index && this.evals == evals
    {
      this.skills := skills;
      this.index := index;
      this.evals := evals;
    }

    /** Step 1: each old directory that exists is renamed to its new name. */
    method RenameDirectories(renames: Table)
      modifies this
      ensures skills == MoveEach(old(skills), renames)
      ensures index == old(index) && evals == old(evals)
    {
      var i := 0;
      while i < |renames|
        invariant 0 <= i <= |renames|
        invariant MoveEach(skills, renames[i..]) == MoveEach(old(skills), renames)
        invariant index == old(index) && evals == old(evals)
      {
        assert renames[i..][1..] == renames[i + 1..];
        var oldName, newName := renames[i].0, renames[i].1;
        if oldName in skills {
          var moved := skills[oldName];
          skills := (skills - {oldName})[newName := moved];
        }
        i := i + 1;
      }
    }

    /** Step 2: every entry of the index gets its new name, path and file paths. */
    method RewriteIndex(renames: Table)
      requires index.Some?
      modifies this
      ensures index.Some? && |index.value| == |old(index).value|
      ensures forall k :: 0 <= k < |index.value| ==> index.value[k] == Renamed(old(index).value[k], renames)
      ensures skills == old(skills) && evals == old(evals)
    {
      var entries := index.value;
      var k := 0;
      while k < |entries|
        invariant 0 <= k <= |entries| == |old(index).value|
        invariant forall j :: 0 <= j < k ==> entries[j] == Renamed(old(index).value[j], renames)
        invariant forall j :: k <= j < |entries| ==> entries[j] == old(index).value[j]
        invariant skills == old(skills) && evals == old(evals) && index == old(index)
      {
        var e := RenameEntry(entries[k], renames);
        entries := entries[k := e];
        k := k + 1;
      }
      index := Some(entries);
    }

    /** Step 3: the `name:` line of each renamed skill's SKILL.md, when that file exists. */
    method RewriteFrontmatter(renames: Table)
      modifies this
      ensures skills == SubNameEach(old(skills), renames)
      ensures index == old(index) && evals == old(evals)
    {
      var i := 0;
      while i < |renames|
        invariant 0 <= i <= |renames|
        invariant SubNameEach(skills, renames[i..]) == SubNameEach(old(skills), renames)
        invariant index == old(index) && evals == old(evals)
      {
        assert renames[i..][1..] == renames[i + 1..];
        var oldName, newName := renames[i].0, renames[i].1;
        if newName in skills && skills[newName].Some? {
          var content := skills[newName].value;
          skills := skills[newName := Some(SubNameLine(content, oldName, newName))];
        }
        i := i + 1;
      }
    }

    /** Step 4: when `evals/` exists, each `<old>-evals.json` in it is renamed. */
    method RenameEvals(renames: Table)
      modifies this
      ensures evals == match old(evals) case None => None case Some(files) => Some(MoveEach(files, EvalsMoves(renames)))
      ensures skills == old(skills) && index == old(index)
    {
      if evals.Some? {
        var files := evals.value;
        ghost var moves := EvalsMoves(renames);
        var i := 0;
        while i < |renames|
          invariant 0 <= i <= |renames|
          invariant MoveEach(files, moves[i..]) == MoveEach(old(evals).value, moves)
        {
          assert moves[i..][1..] == moves[i + 1..];
          var oldFile := renames[i].0 + EvalsSuffix;
          if oldFile in files {
            var newFile := renames[i].1 + EvalsSuffix;
            var content := files[oldFile];
            files := (files - {oldFile})[newFile := content];
          }
          i := i + 1;
        }
        evals := Some(files);
      }
    }

    /**
     * main, with `renames` the table it loops over (`DirRenames`): the four
     * steps in order. Opening or parsing a missing or malformed index raises,
     * so then main stops after step 1 and `completed` is false.
     */
    method Run(renames: Table) returns (completed: bool)
      modifies this
      ensures completed <==> old(index).Some?
      ensures !completed ==> skills == MoveEach(old(skills), renames) && index == old(index) && evals == old(evals)
      ensures completed ==> skills == SubNameEach(MoveEach(old(skills), renames), renames)
      ensures completed ==> index.Some? && |index.value| == |old(index).value|
      ensures completed ==> forall k :: 0 <= k < |index.value| ==> index.value[k] == Renamed(old(index).value[k], renames)
      ensures completed ==>
        evals == match old(evals) case None => None case Some(files) => Some(MoveEach(files, EvalsMoves(renames)))
    {
      RenameDirectories(renames);
      if index.None? {
        return false;
      }
      RewriteIndex(renames);
      RewriteFrontmatter(renames);
      RenameEvals(renames);
      completed := true;
    }
  }

  /** The loop body of step 2 for one entry. */
  method RenameEntry(e: Entry, t: Table) returns (r: Entry)
    ensures r == Renamed(e, t)
  {
    var newName := Lookup(t, e.name);
    var skillMd := ReplacePath(e.skillMd, t);
    var reference: seq<string> := [];
    var k := 0;
    while k < |e.reference|
      invariant 0 <= k <= |e.reference| && |reference| == k
      invariant forall j :: 0 <= j < k ==> reference[j] == ReplaceEach(e.reference[j], t)
    {
      var p := ReplacePath(e.reference[k], t);
      reference := reference + [p];
      k := k + 1;
    }
    r := Entry(newName, newName, skillMd, reference);
  }
}
