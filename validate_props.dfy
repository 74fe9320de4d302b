/**
 * What the validator promises, stated against independent descriptions of
 * its input: the fences and keys present in the text, the paths present on
 * disk, the entries of the top-level listing.
 */
module ValidateSkillsProps {
  import opened Options
  import opened Text
  import opened Patterns
  import opened SkillsIndex
  import opened ValidateSkills

  // ---------------------------------------------------------------------
  // validate_frontmatter
  // ---------------------------------------------------------------------

  /** The closing fence is missing exactly when no `\n---` starts at index 3 or later. */
  lemma ClosingFenceIff(content: string)
    ensures ClosingFence(content) == -1 <==> forall i :: 3 <= i ==> !HasPrefixAt(content, i, "\n---")
  {
    var e := Find(content, "\n---\n", 3);
    if e == -1 {
      FindFirst(content, "\n---", 3);
    }
  }

  /**
   * When `\n---\n` occurs from index 3 on, the frontmatter ends at the first
   * such occurrence, even if a bare `\n---` comes earlier.
   */
  lemma ClosingFencePrefersFullLine(content: string, i: nat)
    requires 3 <= i && HasPrefixAt(content, i, "\n---\n")
    ensures 3 <= ClosingFence(content) <= i && HasPrefixAt(content, ClosingFence(content), "\n---\n")
    ensures forall k :: 3 <= k < ClosingFence(content) ==> !HasPrefixAt(content, k, "\n---\n")
  {
    FindFirst(content, "\n---\n", 3);
  }

  /**
   * A missing fence draws exactly one error and no warning, and stops the
   * check; with both fences present every error is a missing required key.
   */
  lemma FenceFindings(dir: string, content: string)
    ensures !StartsWith(content, "---\n") ==>
      FrontmatterFindings(dir, content) == Findings([MissingOpeningFence(dir)], [])
    ensures StartsWith(content, "---\n") && ClosingFence(content) == -1 ==>
      FrontmatterFindings(dir, content) == Findings([MissingClosingFence(dir)], [])
    ensures FrontmatterOk(content) <==>
      forall e :: e in FrontmatterFindings(dir, content).errors ==> e.MissingRequiredKey?
  {
    var errors := FrontmatterFindings(dir, content).errors;
    if !FrontmatterOk(content) {
      assert !errors[0].MissingRequiredKey?;
    }
  }

  /** The key `key` appears at the start of some line of `fm`. */
  predicate KeyPresent(fm: string, key: string) {
    exists i :: 0 <= i <= |fm| && KeyLineAt(fm, key + ":", i)
  }

  /**
   * Some line of `fm` starts with whitespace, then `key:`, then optional
   * whitespace and `value`: the plain reading of `^\s+key:\s*value`.
   */
  ghost predicate IndentedPresent(fm: string, key: string, value: string) {
    exists i: nat, j: nat, k: nat :: IndentedKeyShape(fm, key + ":", value, i, j, k)
  }

  /** The two indented searches, in their plain reading. */
  lemma IndentedScan(fm: string)
    ensures HasIndentedKey(fm, "author:", "TestMu AI") <==> IndentedPresent(fm, "author", "TestMu AI")
    ensures HasIndentedKey(fm, "version:", "") <==> IndentedPresent(fm, "version", "")
  {
    assert "author" + ":" == "author:";
    assert "version" + ":" == "version:";
    HasIndentedKeyShape(fm, "author:", "TestMu AI");
    HasIndentedKeyShape(fm, "version:", "");
  }

  /**
   * The searches report each key line exactly when the frontmatter has one,
   * and a category value only when it has a `category:` line.
   */
  lemma ScanFindsKeys(fm: string)
    ensures ScanKeys(fm).name <==> KeyPresent(fm, "name")
    ensures ScanKeys(fm).description <==> KeyPresent(fm, "description")
    ensures ScanKeys(fm).languages <==> KeyPresent(fm, "languages")
    ensures ScanKeys(fm).category <==> KeyPresent(fm, "category")
    ensures ScanKeys(fm).license <==> KeyPresent(fm, "license")
    ensures ScanKeys(fm).metadata <==> KeyPresent(fm, "metadata")
    ensures ScanKeys(fm).author <==> IndentedPresent(fm, "author", "TestMu AI")
    ensures ScanKeys(fm).version <==> IndentedPresent(fm, "version", "")
    ensures ScanKeys(fm).categoryValue.Some? ==> ScanKeys(fm).category
  {
    assert "name" + ":" == "name:";
    assert "description" + ":" == "description:";
    assert "languages" + ":" == "languages:";
    assert "category" + ":" == CategoryKey;
    assert "license" + ":" == "license:";
    assert "metadata" + ":" == "metadata:";
    HasKeyLineIff(fm, "name:");
    HasKeyLineIff(fm, "description:");
    HasKeyLineIff(fm, "languages:");
    HasKeyLineIff(fm, CategoryKey);
    HasKeyLineIff(fm, "license:");
    HasKeyLineIff(fm, "metadata:");
    IndentedScan(fm);
    if !HasKeyLine(fm, CategoryKey) {
      NoCategoryLineNoGroup(fm, NonNewline);
    }
  }

  /** Given what the searches found: an error for each missing required key, `name` before `description`. */
  lemma KeyErrorsOf(dir: string, scan: KeyScan)
    ensures KeyFindingsOf(dir, scan).errors ==
      (if scan.name then [] else [MissingRequiredKey(dir, "name")]) +
      (if scan.description then [] else [MissingRequiredKey(dir, "description")])
    ensures forall e :: e in KeyFindingsOf(dir, scan).errors <==>
      (e == MissingRequiredKey(dir, "name") && !scan.name) ||
      (e == MissingRequiredKey(dir, "description") && !scan.description)
  {
  }

  /** The warnings of the key checks are those of its four parts. */
  lemma KeyWarningsOf(dir: string, scan: KeyScan)
    ensures forall w :: w in KeyFindingsOf(dir, scan).warnings <==>
      (!scan.languages && w == MissingOptionalKey(dir, "languages")) || w in CategoryKeyWarnings(dir, scan.category, scan.categoryValue) ||
      (!scan.license && w == MissingOptionalKey(dir, "license")) || w in MetadataKeyWarnings(dir, scan.metadata, scan.author, scan.version)
  {
    var f := KeyFindingsOf(dir, scan);
    var lang := if scan.languages then [] else [MissingOptionalKey(dir, "languages")];
    var cat := CategoryKeyWarnings(dir, scan.category, scan.categoryValue);
    var lic := if scan.license then [] else [MissingOptionalKey(dir, "license")];
    var meta := MetadataKeyWarnings(dir, scan.metadata, scan.author, scan.version);
    assert f.warnings == lang + cat + lic + meta;
  }

  /** Given what the searches found: a missing-key warning exactly for each missing optional key. */
  lemma OptionalKeysOf(dir: string, scan: KeyScan)
    ensures forall key :: MissingOptionalKey(dir, key) in KeyFindingsOf(dir, scan).warnings <==>
      (key == "languages" && !scan.languages) || (key == "category" && !scan.category) ||
      (key == "license" && !scan.license) || (key == "metadata" && !scan.metadata)
  {
    KeyWarningsOf(dir, scan);
    CategoryKeyWarningsIff(dir, scan);
    MetadataKeyWarningsIff(dir, scan);
  }

  /**
   * Given what the searches found: the unknown-category warning exactly
   * when a category value was captured and, stripped, is not a known one.
   */
  lemma UnknownCategoryOf(dir: string, scan: KeyScan)
    ensures forall c :: UnknownCategory(dir, c) in KeyFindingsOf(dir, scan).warnings <==>
      scan.category && scan.categoryValue.Some? && c == Strip(scan.categoryValue.value) && !KnownCategory(c)
  {
    KeyWarningsOf(dir, scan);
    CategoryKeyWarningsIff(dir, scan);
    MetadataKeyWarningsIff(dir, scan);
  }

  /** Given what the searches found: the author and version warnings only under a `metadata:` line. */
  lemma MetadataOf(dir: string, scan: KeyScan)
    ensures MetadataWithoutAuthor(dir) in KeyFindingsOf(dir, scan).warnings <==> scan.metadata && !scan.author
    ensures MetadataWithoutVersion(dir) in KeyFindingsOf(dir, scan).warnings <==> scan.metadata && !scan.version
  {
    KeyWarningsOf(dir, scan);
    CategoryKeyWarningsIff(dir, scan);
    MetadataKeyWarningsIff(dir, scan);
  }

  /** Every warning of the key checks is about a key of skill `dir`. */
  lemma KeyWarningKinds(dir: string, scan: KeyScan)
    ensures forall w :: w in KeyFindingsOf(dir, scan).warnings ==>
      (w.MissingOptionalKey? || w.UnknownCategory? || w.MetadataWithoutAuthor? || w.MetadataWithoutVersion?) && w.dir == dir
  {
    KeyWarningsOf(dir, scan);
    CategoryKeyWarningsIff(dir, scan);
    MetadataKeyWarningsIff(dir, scan);
  }

  /** The category warnings: the key is missing, or its stripped value is unknown. */
  lemma CategoryKeyWarningsIff(dir: string, scan: KeyScan)
    ensures forall w :: w in CategoryKeyWarnings(dir, scan.category, scan.categoryValue) <==>
      (!scan.category && w == MissingOptionalKey(dir, "category")) ||
      (scan.category && scan.categoryValue.Some? && !KnownCategory(Strip(scan.categoryValue.value)) &&
       w == UnknownCategory(dir, Strip(scan.categoryValue.value)))
  {
  }

  /** The metadata warnings: the key is missing, or the author or the version line is. */
  lemma MetadataKeyWarningsIff(dir: string, scan: KeyScan)
    ensures forall w :: w in MetadataKeyWarnings(dir, scan.metadata, scan.author, scan.version) <==>
      (!scan.metadata && w == MissingOptionalKey(dir, "metadata")) ||
      (scan.metadata && !scan.author && w == MetadataWithoutAuthor(dir)) ||
      (scan.metadata && !scan.version && w == MetadataWithoutVersion(dir))
  {
  }

  /** The required-key errors, in terms of the lines of the frontmatter. */
  lemma RequiredKeyErrors(dir: string, fm: string)
    ensures forall e :: e in KeyFindings(dir, fm).errors <==>
      (e == MissingRequiredKey(dir, "name") && !KeyPresent(fm, "name")) ||
      (e == MissingRequiredKey(dir, "description") && !KeyPresent(fm, "description"))
  {
    ScanFindsKeys(fm);
    KeyErrorsOf(dir, ScanKeys(fm));
  }

  /** The optional keys only ever draw warnings: one each when missing. */
  lemma OptionalKeyWarnings(dir: string, fm: string)
    ensures forall key :: MissingOptionalKey(dir, key) in KeyFindings(dir, fm).warnings <==>
      key in {"languages", "category", "license", "metadata"} && !KeyPresent(fm, key)
  {
    ScanFindsKeys(fm);
    OptionalKeysOf(dir, ScanKeys(fm));
  }

  /**
   * An unknown-category warning is drawn exactly when the first
   * `category:` line with a value carries one that, stripped, is not a
   * known category, and the warning quotes the stripped value.
   */
  lemma CategoryWarningIff(dir: string, fm: string)
    ensures forall c :: UnknownCategory(dir, c) in KeyFindings(dir, fm).warnings <==>
      CategoryGroup(fm, NonNewline).Some? && c == Strip(CategoryGroup(fm, NonNewline).value) && !KnownCategory(c)
  {
    ScanFindsKeys(fm);
    UnknownCategoryOf(dir, ScanKeys(fm));
  }

  /** The metadata checks: author and version are looked for only under a `metadata:` line. */
  lemma MetadataWarningsIff(dir: string, fm: string)
    ensures MetadataWithoutAuthor(dir) in KeyFindings(dir, fm).warnings <==>
      KeyPresent(fm, "metadata") && !IndentedPresent(fm, "author", "TestMu AI")
    ensures MetadataWithoutVersion(dir) in KeyFindings(dir, fm).warnings <==>
      KeyPresent(fm, "metadata") && !IndentedPresent(fm, "version", "")
  {
    ScanFindsKeys(fm);
    MetadataOf(dir, ScanKeys(fm));
  }

  // ---------------------------------------------------------------------
  // validate_skill
  // ---------------------------------------------------------------------

  /** The line count is the number of newlines plus one. */
  lemma LineCountIsNewlines(content: string)
    ensures LineCount(content) == CountChar(content, '\n') + 1
  {
    SplitLength(content, '\n');
  }

  /** The size error is drawn exactly when there are 500 newlines or more, and it carries the count. */
  lemma LineErrorsIff(dir: string, content: string)
    ensures LineErrors(dir, content) != [] <==> CountChar(content, '\n') >= MaxSkillLines
    ensures LineErrors(dir, content) != [] ==> LineErrors(dir, content) == [TooManyLines(dir, CountChar(content, '\n') + 1)]
  {
    LineCountIsNewlines(content);
  }

  /** Without a SKILL.md the skill draws one error and nothing else. */
  lemma MissingSkillMdAlone(disk: Disk, dir: string)
    requires !disk.Exists(SkillMdPath(dir))
    ensures SkillFindings(disk, dir) == Findings([MissingSkillMd(dir)], [])
  {
  }

  /** The check that SKILL.md names the shared cloud reference needs only the shorter name. */
  lemma SharedLinkIsShortName(content: string)
    ensures LinksSharedGuide(content) <==> Contains(content, "testmu-cloud-reference")
  {
    var shared, short := "shared/", "testmu-cloud-reference";
    assert shared + short == "shared/testmu-cloud-reference";
    if Contains(content, shared + short) {
      assert (shared + short)[|shared|..|shared| + |short|] == short;
      ContainsInfix(content, shared + short, |shared|, short);
    }
  }

  // ---------------------------------------------------------------------
  // validate_skills_index
  // ---------------------------------------------------------------------

  /**
   * One error per listed reference that does not exist: as many errors
   * naming a path as the list has occurrences of that path, and none for a
   * path that exists.
   */
  lemma {:induction false} MissingReferencesCount(disk: Disk, dir: string, refs: seq<string>, p: string)
    ensures multiset(MissingReferences(disk, dir, refs))[ListedFileMissing(dir, p)] ==
      if disk.Exists(p) then 0 else multiset(refs)[p]
    ensures forall e :: e in MissingReferences(disk, dir, refs) ==>
      e.ListedFileMissing? && e.dir == dir && e.path in refs && !disk.Exists(e.path)
    decreases |refs|
  {
    if refs != [] {
      var init := refs[..|refs| - 1];
      MissingReferencesCount(disk, dir, init, p);
      assert refs == init + [refs[|refs| - 1]];
    }
  }

  /** When every listed reference exists the entry draws no such error. */
  lemma AllReferencesExist(disk: Disk, dir: string, refs: seq<string>)
    requires forall p :: p in refs ==> disk.Exists(p)
    ensures MissingReferences(disk, dir, refs) == []
  {
    MissingReferencesCount(disk, dir, refs, "");
  }

  /**
   * For an entry with a path, the errors naming a path: one for a listed
   * `skill_md` that is non-empty and missing, and one per missing listed
   * reference; an existing path is never named.
   */
  lemma EntryMissingCount(disk: Disk, entry: Entry, p: string)
    requires entry.path != []
    ensures multiset(EntryFindings(disk, entry).errors)[ListedFileMissing(entry.path, p)] ==
      if disk.Exists(p) then 0
      else (if p == entry.skillMd && p != [] then 1 else 0) + multiset(entry.reference)[p]
  {
    MissingReferencesCount(disk, entry.path, entry.reference, p);
  }

  /**
   * A file of the reference directory draws a warning exactly when it is a
   * `.md` file, the entry lists some references, and not this one.
   */
  lemma {:induction false} UnindexedAmongIff(dir: string, refs: seq<string>, names: seq<string>)
    ensures forall d, n :: ReferenceNotIndexed(d, n) in UnindexedAmong(dir, refs, names) <==>
      d == dir && n in names && EndsWith(n, ".md") && refs != [] && dir + "/reference/" + n !in refs
    ensures forall w :: w in UnindexedAmong(dir, refs, names) ==> w.ReferenceNotIndexed?
    ensures refs == [] ==> UnindexedAmong(dir, refs, names) == []
    decreases |names|
  {
    if names != [] {
      var init := names[..|names| - 1];
      UnindexedAmongIff(dir, refs, init);
      assert names == init + [names[|names| - 1]];
    }
  }

  /** An entry without a path, or a missing index, draws a warning and no error. */
  lemma IndexWarningsOnly(disk: Disk, entry: Entry)
    ensures entry.path == [] ==> EntryFindings(disk, entry) == Findings([], [EntryWithoutPath])
    ensures IndexFindings(disk, Absent) == Findings([], [IndexNotFound])
    ensures forall w :: w in EntryFindings(disk, entry).warnings ==> w.EntryWithoutPath? || w.ReferenceNotIndexed?
  {
    if entry.path != [] && disk.IsDir(ReferenceDir(entry.path)) {
      UnindexedAmongIff(entry.path, entry.reference, disk.ListDir(ReferenceDir(entry.path)));
    }
  }

  // ---------------------------------------------------------------------
  // main
  // ---------------------------------------------------------------------

  /** A skill is validated exactly when it is a candidate entry of the top-level listing. */
  lemma SelectedDirsIff(disk: Disk)
    ensures forall d :: d in SelectedDirs(disk) <==> d in disk.ListDir(Root) && IsCandidate(disk, d)
  {
    var items := Sort(disk.ListDir(Root));
    SelectedMembers(disk, items);
    forall d ensures d in items <==> d in disk.ListDir(Root) {
      assert d in items <==> d in multiset(items);
    }
  }

  /** The candidates keep the order of the listing they are taken from. */
  lemma {:induction false} SelectedAscending(disk: Disk, items: seq<string>)
    requires Ascending(items)
    ensures Ascending(Selected(disk, items))
    decreases |items|
  {
    if items != [] {
      var init := items[..|items| - 1];
      var last := items[|items| - 1];
      SelectedAscending(disk, init);
      SelectedMembers(disk, init);
      var r := Selected(disk, items);
      var s := Selected(disk, init);
      if IsCandidate(disk, last) {
        forall i | 0 <= i < |s| ensures !LexLess(last, s[i]) {
          assert s[i] in init;
          var k :| 0 <= k < |init| && init[k] == s[i];
          assert items[k] == s[i];
        }
      }
    }
  }

  /** main validates the skills in ascending order of their names. */
  lemma SelectedDirsAscending(disk: Disk)
    ensures Ascending(SelectedDirs(disk))
  {
    SelectedAscending(disk, Sort(disk.ListDir(Root)));
  }

  /** An error is among the findings for `xs` exactly when some item drew it. */
  lemma {:induction false} ThenEachErrors<T>(xs: seq<T>, f: T -> Findings, e: Error)
    ensures e in ThenEach(xs, f).errors <==> exists k :: 0 <= k < |xs| && e in f(xs[k]).errors
    decreases |xs|
  {
    if xs != [] {
      var init, last := xs[..|xs| - 1], xs[|xs| - 1];
      ThenEachErrors(init, f, e);
      assert forall k :: 0 <= k < |init| ==> init[k] == xs[k];
      if e in f(last).errors {
        assert e in f(xs[|xs| - 1]).errors;
      }
    }
  }

  /** The findings for `xs` hold no error exactly when no item drew one. */
  lemma {:induction false} ThenEachErrorFree<T>(xs: seq<T>, f: T -> Findings)
    ensures ThenEach(xs, f).errors == [] <==> forall k :: 0 <= k < |xs| ==> f(xs[k]).errors == []
    decreases |xs|
  {
    if xs != [] {
      var init := xs[..|xs| - 1];
      ThenEachErrorFree(init, f);
      assert forall k :: 0 <= k < |init| ==> init[k] == xs[k];
    }
  }

  /** The frontmatter check reports a missing fence or missing required keys, and nothing else. */
  lemma FrontmatterErrorKinds(dir: string, content: string)
    ensures forall e :: e in FrontmatterFindings(dir, content).errors ==>
      (e.MissingOpeningFence? || e.MissingClosingFence? || e.MissingRequiredKey?) && e.dir == dir
  {
    if FrontmatterOk(content) {
      KeyErrorsOf(dir, ScanKeys(Frontmatter(content)));
    }
  }

  /**
   * Every error a skill draws is about that skill, and it is told that
   * SKILL.md is missing exactly when it is.
   */
  lemma SkillErrorsAbout(disk: Disk, dir: string)
    ensures forall e :: e in SkillFindings(disk, dir).errors ==>
      !e.InvalidIndexJson? && !e.ListedFileMissing? && e.dir == dir
    ensures forall d :: MissingSkillMd(d) in SkillFindings(disk, dir).errors <==>
      d == dir && !disk.Exists(SkillMdPath(dir))
  {
    if disk.Exists(SkillMdPath(dir)) {
      ContentErrorKinds(disk, dir, disk.Read(SkillMdPath(dir)));
    }
  }

  /** The errors drawn by a SKILL.md that exists: its size, its fences and its required keys. */
  lemma ContentErrorKinds(disk: Disk, dir: string, content: string)
    ensures forall e :: e in ContentFindings(disk, dir, content).errors ==>
      (e.TooManyLines? || e.MissingOpeningFence? || e.MissingClosingFence? || e.MissingRequiredKey?) && e.dir == dir
  {
    FrontmatterErrorKinds(dir, content);
    assert ContentFindings(disk, dir, content).errors == LineErrors(dir, content) + FrontmatterFindings(dir, content).errors;
  }

  /** Every skill main selects has a SKILL.md, so a run never reports one missing. */
  lemma RunNeverMissesSkillMd(disk: Disk, index: IndexFile, d: string)
    ensures MissingSkillMd(d) !in RunFindings(disk, index).errors
  {
    var dirs := SelectedDirs(disk);
    SelectedMembers(disk, Sort(disk.ListDir(Root)));
    ThenEachErrors(dirs, SkillOf(disk), MissingSkillMd(d));
    if MissingSkillMd(d) in SkillsFindings(disk, dirs).errors {
      var k :| 0 <= k < |dirs| && MissingSkillMd(d) in SkillOf(disk)(dirs[k]).errors;
      assert dirs[k] in dirs;
      SkillErrorsAbout(disk, dirs[k]);
    }
    match index
    case Parsed(entries) =>
      ThenEachErrors(entries, EntryOf(disk), MissingSkillMd(d));
      if MissingSkillMd(d) in IndexFindings(disk, index).errors {
        var k :| 0 <= k < |entries| && MissingSkillMd(d) in EntryOf(disk)(entries[k]).errors;
        MissingReferencesCount(disk, entries[k].path, entries[k].reference, "");
      }
    case _ =>
  }

  /**
   * main exits with 0 exactly when no selected skill and not the index drew
   * an error; warnings never change the exit code.
   */
  lemma ExitCodeIff(disk: Disk, index: IndexFile)
    ensures ExitCode(RunFindings(disk, index)) == 0 <==>
      (forall k :: 0 <= k < |SelectedDirs(disk)| ==> SkillFindings(disk, SelectedDirs(disk)[k]).errors == []) &&
      IndexFindings(disk, index).errors == []
    ensures forall w :: ExitCode(Findings(RunFindings(disk, index).errors, w)) == ExitCode(RunFindings(disk, index))
  {
    ThenEachErrorFree(SelectedDirs(disk), SkillOf(disk));
  }
}
