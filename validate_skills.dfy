/**
 * The skill validator: it walks the repository's top-level skill
 * directories, checks each SKILL.md (size, frontmatter, reference layout),
 * cross-checks skills_index.json against the files on disk, and exits with
 * 0 exactly when it reported no error.
 *
 * The functions below say, for one piece of input, which errors and which
 * warnings the validator reports and in what order; the class `Validator`
 * keeps the two lists and the counter the script keeps in module globals,
 * and its methods append step by step, each proved to append exactly what
 * the matching function says.
 */
module ValidateSkills {
  import opened Options
  import opened Text
  import opened Patterns
  import opened SkillsIndex

  /** Top-level directories that are never taken for skills. */
  const SkipDirs: set<string> := {"evals", "shared", ".git", "scripts", "docs", "__pycache__"}

  /** The most lines a SKILL.md may have. */
  const MaxSkillLines: nat := 500

  /** The categories a skill may declare. */
  const ValidCategories: set<string> := {
    "accessibility", "api-testing", "bdd-testing", "cloud-testing",
    "devops", "e2e-testing", "mobile-testing", "performance-testing",
    "security-testing", "unit-testing", "visual-testing"
  }

  /** `c` is one of the categories a skill may declare. */
  predicate KnownCategory(c: string) {
    c in ValidCategories
  }

  // ---------------------------------------------------------------------
  // The repository on disk
  // ---------------------------------------------------------------------

  /**
   * The files and directories under the repository root, by path relative
   * to the root: each file with its content, each directory with what
   * `os.listdir` returns for it, in that order. The root itself is `Root`.
   */
  datatype Disk = Disk(files: map<string, string>, dirs: map<string, seq<string>>) {
    /** `os.path.exists` */
    predicate Exists(p: string) { p in files || p in dirs }

    /** `os.path.isdir` */
    predicate IsDir(p: string) { p in dirs }

    /** `os.listdir` of a directory. */
    function ListDir(p: string): seq<string> { if p in dirs then dirs[p] else [] }

    /** The content of a file; `Readable` keeps the validator from opening a directory. */
    function Read(p: string): string { if p in files then files[p] else [] }
  }

  /** The repository root, as a relative path. */
  const Root: string := ""

  /** `os.path.join(a, b)` for a relative `a`. */
  function Join(a: string, b: string): (r: string)
    ensures EndsWith(r, b)
  {
    if StartsWith(b, "/") || a == [] || a[|a| - 1] == '/' then
      if StartsWith(b, "/") then b else a + b
    else a + "/" + b
  }

  function SkillMdPath(dir: string): string { Join(dir, "SKILL.md") }
  function ReferenceDir(dir: string): string { Join(dir, "reference") }
  function PlaybookPath(dir: string): string { Join(ReferenceDir(dir), "playbook.md") }

  /**
   * The files the validator opens for skill `dir` are files when they exist:
   * opening a directory raises, and the script would stop there.
   */
  predicate Readable(disk: Disk, dir: string) {
    SkillMdPath(dir) !in disk.dirs && PlaybookPath(dir) !in disk.dirs
  }

  // ---------------------------------------------------------------------
  // What is reported
  // ---------------------------------------------------------------------

  /** The errors, each with the values its message carries. */
  datatype Error =
    | MissingOpeningFence(dir: string)
    | MissingClosingFence(dir: string)
    | MissingRequiredKey(dir: string, key: string)
    | TooManyLines(dir: string, lines: nat)
    | MissingSkillMd(dir: string)
    | InvalidIndexJson
    | ListedFileMissing(dir: string, path: string)

  /** The warnings, each with the values its message carries. */
  datatype Warning =
    | MissingOptionalKey(dir: string, key: string)
    | UnknownCategory(dir: string, category: string)
    | MetadataWithoutAuthor(dir: string)
    | MetadataWithoutVersion(dir: string)
    | NoReferenceDir(dir: string)
    | NoPlaybook(dir: string)
    | PlaybookNotMentioned(dir: string)
    | NoCloudReference(dir: string)
    | NoDebuggingSection(dir: string)
    | IndexNotFound
    | EntryWithoutPath
    | ReferenceNotIndexed(dir: string, name: string)

  /** What one check appends to the two lists. */
  datatype Findings = Findings(errors: seq<Error>, warnings: seq<Warning>) {
    /** The findings of this check followed by those of `next`. */
    function Then(next: Findings): Findings {
      Findings(errors + next.errors, warnings + next.warnings)
    }
  }

  const NoFindings := Findings([], [])

  /** The findings of `f` for each of `xs`, in order. */
  function ThenEach<T>(xs: seq<T>, f: T -> Findings): Findings {
    if xs == [] then NoFindings
    else ThenEach(xs[..|xs| - 1], f).Then(f(xs[|xs| - 1]))
  }

  /** Appending an item appends its findings. */
  lemma ThenEachAppend<T>(xs: seq<T>, x: T, f: T -> Findings)
    ensures ThenEach(xs + [x], f) == ThenEach(xs, f).Then(f(x))
  {
    assert (xs + [x])[..|xs|] == xs;
  }

  /** One more item appends its findings. */
  lemma ThenEachStep<T>(xs: seq<T>, i: nat, f: T -> Findings)
    requires i < |xs|
    ensures ThenEach(xs[..i + 1], f) == ThenEach(xs[..i], f).Then(f(xs[i]))
  {
    assert xs[..i + 1][..i] == xs[..i];
  }

  // ---------------------------------------------------------------------
  // validate_frontmatter
  // ---------------------------------------------------------------------

  /**
   * Where the frontmatter closes: the first `\n---\n` from index 3 on, or
   * failing that the first `\n---`; -1 when neither occurs.
   */
  function ClosingFence(content: string): (r: int)
    ensures r == -1 || (3 <= r && HasPrefixAt(content, r, "\n---"))
  {
    var e := Find(content, "\n---\n", 3);
    if e != -1 then
      assert content[e..e + 4] == content[e..e + 5][..4];
      e
    else Find(content, "\n---", 3)
  }

  /** The frontmatter has both fences. */
  predicate FrontmatterOk(content: string) {
    StartsWith(content, "---\n") && ClosingFence(content) != -1
  }

  /**
   * `content[4:fm_end]`: the text between the opening fence and the
   * closing one, empty when the closing fence is the newline that ends the
   * opening one.
   */
  function Frontmatter(content: string): (fm: string)
    requires ClosingFence(content) != -1
    ensures 4 + |fm| <= |content| && fm == content[4..4 + |fm|]
    ensures 4 + |fm| == ClosingFence(content) || (fm == [] && ClosingFence(content) == 3)
  {
    var e := ClosingFence(content);
    if 4 <= e then content[4..e] else []
  }

  /** What the searches of validate_frontmatter find in the frontmatter text. */
  datatype KeyScan = KeyScan(
    name: bool,                      // ^name:
    description: bool,               // ^description:
    languages: bool,                 // ^languages:
    category: bool,                  // ^category:
    categoryValue: Option<string>,   // group 1 of ^category:\s*(.+)
    license: bool,                   // ^license:
    metadata: bool,                  // ^metadata:
    author: bool,                    // ^\s+author:\s*TestMu AI
    version: bool                    // ^\s+version:
  )

  /** Runs the searches of validate_frontmatter on the frontmatter text `fm`. */
  function ScanKeys(fm: string): KeyScan {
    KeyScan(HasKeyLine(fm, "name:"), HasKeyLine(fm, "description:"), HasKeyLine(fm, "languages:"),
            HasKeyLine(fm, CategoryKey), CategoryGroup(fm, NonNewline), HasKeyLine(fm, "license:"),
            HasKeyLine(fm, "metadata:"), HasIndentedKey(fm, "author:", "TestMu AI"),
            HasIndentedKey(fm, "version:", ""))
  }

  /** What the key checks report, given what the searches found. */
  function KeyFindingsOf(dir: string, scan: KeyScan): Findings {
    Findings(
      (if scan.name then [] else [MissingRequiredKey(dir, "name")]) +
      (if scan.description then [] else [MissingRequiredKey(dir, "description")]),
      (if scan.languages then [] else [MissingOptionalKey(dir, "languages")]) +
      CategoryKeyWarnings(dir, scan.category, scan.categoryValue) +
      (if scan.license then [] else [MissingOptionalKey(dir, "license")]) +
      MetadataKeyWarnings(dir, scan.metadata, scan.author, scan.version))
  }

  /** The `category` key is missing, or its stripped value is not a known category. */
  function CategoryKeyWarnings(dir: string, present: bool, value: Option<string>): seq<Warning> {
    if !present then [MissingOptionalKey(dir, "category")]
    else
      match value
      case None => []
      case Some(g) => if KnownCategory(Strip(g)) then [] else [UnknownCategory(dir, Strip(g))]
  }

  /** The `metadata` key is missing, or the indented lines under it lack the author or the version. */
  function MetadataKeyWarnings(dir: string, present: bool, author: bool, version: bool): seq<Warning> {
    if !present then [MissingOptionalKey(dir, "metadata")]
    else
      (if author then [] else [MetadataWithoutAuthor(dir)]) +
      (if version then [] else [MetadataWithoutVersion(dir)])
  }

  /** The key checks on the frontmatter text `fm`. */
  function KeyFindings(dir: string, fm: string): Findings {
    KeyFindingsOf(dir, ScanKeys(fm))
  }

  /** What validate_frontmatter appends for skill `dir` whose SKILL.md reads `content`. */
  function FrontmatterFindings(dir: string, content: string): Findings {
    if !StartsWith(content, "---\n") then Findings([MissingOpeningFence(dir)], [])
    else if ClosingFence(content) == -1 then Findings([MissingClosingFence(dir)], [])
    else KeyFindings(dir, Frontmatter(content))
  }

  // ---------------------------------------------------------------------
  // validate_skill
  // ---------------------------------------------------------------------

  /** `len(content.split('\n'))` */
  function LineCount(content: string): nat {
    |Split(content, '\n')|
  }

  /** `s[:n]` */
  function Head(s: string, n: nat): (r: string)
    ensures |r| == if |s| <= n then |s| else n
    ensures r == s[..|r|]
  {
    if |s| <= n then s else s[..n]
  }

  /** The category the e2e check reads: the first `^category:\s*(\S+)` in the first 2000 characters. */
  function DeclaredCategory(content: string): string {
    match CategoryGroup(Head(content, 2000), NonSpace)
    case None => ""
    case Some(g) => Strip(g)
  }

  /** The skill ships its own cloud integration guide. */
  predicate HasCloudGuide(disk: Disk, dir: string) {
    disk.IsDir(ReferenceDir(dir)) && disk.Exists(Join(ReferenceDir(dir), "cloud-integration.md"))
  }

  /** SKILL.md links to the shared cloud reference. */
  predicate LinksSharedGuide(content: string) {
    Contains(content, "testmu-cloud-reference") || Contains(content, "shared/testmu-cloud-reference")
  }

  /**
   * An e2e skill should point to a cloud integration guide, on disk or by
   * link; `category` is the skill's `DeclaredCategory`.
   */
  function CloudWarnings(disk: Disk, dir: string, content: string, category: string): seq<Warning> {
    if category == "e2e-testing" && !HasCloudGuide(disk, dir) && !LinksSharedGuide(content)
    then [NoCloudReference(dir)] else []
  }

  /** A SKILL.md longer than `MaxSkillLines` lines is an error. */
  function LineErrors(dir: string, content: string): seq<Error> {
    if LineCount(content) > MaxSkillLines then [TooManyLines(dir, LineCount(content))] else []
  }

  /** The skill should have a reference directory holding a playbook. */
  function LayoutWarnings(disk: Disk, dir: string): seq<Warning> {
    if !disk.IsDir(ReferenceDir(dir)) then [NoReferenceDir(dir)]
    else if !disk.Exists(PlaybookPath(dir)) then [NoPlaybook(dir)]
    else []
  }

  /** SKILL.md should point its reader to the reference material. */
  function MentionWarnings(dir: string, content: string): seq<Warning> {
    if !Contains(content, "reference/") && !Contains(content, "playbook.md") then [PlaybookNotMentioned(dir)] else []
  }

  /** An existing playbook should mention debugging, in any letter case. */
  function DebuggingWarnings(disk: Disk, dir: string): seq<Warning> {
    if disk.Exists(PlaybookPath(dir)) && !Contains(AsciiLower(disk.Read(PlaybookPath(dir))), "debugging")
    then [NoDebuggingSection(dir)] else []
  }

  /** What validate_skill appends for the top-level directory `dir`. */
  function SkillFindings(disk: Disk, dir: string): Findings {
    if !disk.Exists(SkillMdPath(dir)) then Findings([MissingSkillMd(dir)], [])
    else ContentFindings(disk, dir, disk.Read(SkillMdPath(dir)))
  }

  /** What validate_skill appends once it has read `content` from the skill's SKILL.md. */
  function ContentFindings(disk: Disk, dir: string, content: string): Findings {
    var frontmatter := FrontmatterFindings(dir, content);
    Findings(LineErrors(dir, content) + frontmatter.errors,
             frontmatter.warnings + LayoutWarnings(disk, dir) + MentionWarnings(dir, content) +
             CloudWarnings(disk, dir, content, DeclaredCategory(content)) + DebuggingWarnings(disk, dir))
  }

  // ---------------------------------------------------------------------
  // validate_skills_index
  // ---------------------------------------------------------------------

  /** skills_index.json as the validator finds it. */
  datatype IndexFile = Absent | Malformed | Parsed(entries: seq<Entry>)

  /** One error per listed reference path that does not exist, in list order. */
  function MissingReferences(disk: Disk, dir: string, refs: seq<string>): seq<Error> {
    if refs == [] then []
    else
      var last := refs[|refs| - 1];
      MissingReferences(disk, dir, refs[..|refs| - 1]) +
      (if disk.Exists(last) then [] else [ListedFileMissing(dir, last)])
  }

  /** Among the directory entries `names`, the `.md` files the non-empty list `refs` leaves out. */
  function UnindexedAmong(dir: string, refs: seq<string>, names: seq<string>): seq<Warning> {
    if names == [] then []
    else
      var name := names[|names| - 1];
      UnindexedAmong(dir, refs, names[..|names| - 1]) +
      (if EndsWith(name, ".md") && refs != [] && dir + "/reference/" + name !in refs
       then [ReferenceNotIndexed(dir, name)] else [])
  }

  /** The reference check for the entry whose path is `dir`. */
  function UnindexedReferences(disk: Disk, dir: string, refs: seq<string>): seq<Warning> {
    if disk.IsDir(ReferenceDir(dir)) then UnindexedAmong(dir, refs, disk.ListDir(ReferenceDir(dir))) else []
  }

  /** What the validator appends for one index entry. */
  function EntryFindings(disk: Disk, entry: Entry): Findings {
    var dir := entry.path;
    if dir == [] then Findings([], [EntryWithoutPath])
    else
      var skillMdErrors :=
        if entry.skillMd != [] && !disk.Exists(entry.skillMd) then [ListedFileMissing(dir, entry.skillMd)] else [];
      Findings(skillMdErrors + MissingReferences(disk, dir, entry.reference),
               UnindexedReferences(disk, dir, entry.reference))
  }

  /** What the validator appends for the entries, in order. */
  function EntriesFindings(disk: Disk, entries: seq<Entry>): Findings {
    ThenEach(entries, EntryOf(disk))
  }

  function EntryOf(disk: Disk): Entry -> Findings {
    (entry: Entry) => EntryFindings(disk, entry)
  }

  /** What validate_skills_index appends. */
  function IndexFindings(disk: Disk, index: IndexFile): Findings {
    match index
    case Absent => Findings([], [IndexNotFound])
    case Malformed => Findings([InvalidIndexJson], [])
    case Parsed(entries) => EntriesFindings(disk, entries)
  }

  // ---------------------------------------------------------------------
  // main
  // ---------------------------------------------------------------------

  /** A top-level entry that main validates as a skill. */
  predicate IsCandidate(disk: Disk, item: string) {
    disk.IsDir(item) && item !in SkipDirs && !StartsWith(item, ".") && disk.Exists(SkillMdPath(item))
  }

  /** The candidates among `items`, in order. */
  function Selected(disk: Disk, items: seq<string>): (r: seq<string>)
    ensures |r| <= |items|
  {
    if items == [] then []
    else
      var last := items[|items| - 1];
      Selected(disk, items[..|items| - 1]) + (if IsCandidate(disk, last) then [last] else [])
  }

  /** An entry is selected exactly when it is among `items` and is a candidate. */
  lemma {:induction false} SelectedMembers(disk: Disk, items: seq<string>)
    ensures forall d :: d in Selected(disk, items) <==> d in items && IsCandidate(disk, d)
  {
    if items != [] {
      var init := items[..|items| - 1];
      SelectedMembers(disk, init);
      assert items == init + [items[|items| - 1]];
    }
  }

  /** The skills main validates, in the order it validates them. */
  function SelectedDirs(disk: Disk): seq<string> {
    Selected(disk, Sort(disk.ListDir(Root)))
  }

  /** Every skill main validates can be read. */
  predicate CandidatesReadable(disk: Disk) {
    forall item :: item in disk.ListDir(Root) && IsCandidate(disk, item) ==> Readable(disk, item)
  }

  /** What validate_skill appends for each of `dirs`, in order. */
  function SkillsFindings(disk: Disk, dirs: seq<string>): Findings {
    ThenEach(dirs, SkillOf(disk))
  }

  function SkillOf(disk: Disk): string -> Findings {
    (dir: string) => SkillFindings(disk, dir)
  }

  /** What main's loop appends for the top-level entry `item`. */
  function ItemFindings(disk: Disk, item: string): Findings {
    if IsCandidate(disk, item) then SkillFindings(disk, item) else NoFindings
  }

  /** Taking one more item selects it exactly when it is a candidate. */
  lemma SelectedStep(disk: Disk, items: seq<string>, i: nat)
    requires i < |items|
    ensures Selected(disk, items[..i + 1]) ==
      Selected(disk, items[..i]) + if IsCandidate(disk, items[i]) then [items[i]] else []
  {
    assert items[..i + 1][..i] == items[..i];
  }

  /** One pass of main's loop appends what the item contributes. */
  lemma ItemStep(disk: Disk, items: seq<string>, i: nat)
    requires i < |items|
    ensures |Selected(disk, items[..i + 1])| == |Selected(disk, items[..i])| + if IsCandidate(disk, items[i]) then 1 else 0
    ensures SkillsFindings(disk, Selected(disk, items[..i + 1])).errors ==
      SkillsFindings(disk, Selected(disk, items[..i])).errors + ItemFindings(disk, items[i]).errors
    ensures SkillsFindings(disk, Selected(disk, items[..i + 1])).warnings ==
      SkillsFindings(disk, Selected(disk, items[..i])).warnings + ItemFindings(disk, items[i]).warnings
  {
    SelectedStep(disk, items, i);
    var before := Selected(disk, items[..i]);
    if IsCandidate(disk, items[i]) {
      ThenEachAppend(before, items[i], SkillOf(disk));
    } else {
      assert before + [] == before;
    }
    var done, next := SkillsFindings(disk, before), ItemFindings(disk, items[i]);
    assert SkillsFindings(disk, Selected(disk, items[..i + 1])) ==
      Findings(done.errors + next.errors, done.warnings + next.warnings);
  }

  /** One more entry appends its findings after what was already appended since `e0` and `w0`. */
  lemma EntriesFindingsStep(disk: Disk, entries: seq<Entry>, i: nat, e0: seq<Error>, w0: seq<Warning>)
    requires i < |entries|
    ensures e0 + EntriesFindings(disk, entries[..i + 1]).errors ==
      (e0 + EntriesFindings(disk, entries[..i]).errors) + EntryFindings(disk, entries[i]).errors
    ensures w0 + EntriesFindings(disk, entries[..i + 1]).warnings ==
      (w0 + EntriesFindings(disk, entries[..i]).warnings) + EntryFindings(disk, entries[i]).warnings
  {
    ThenEachStep(entries, i, EntryOf(disk));
    var done, next := EntriesFindings(disk, entries[..i]), EntryFindings(disk, entries[i]);
    assert EntriesFindings(disk, entries[..i + 1]) == Findings(done.errors + next.errors, done.warnings + next.warnings);
  }

  /** Everything one run of main reports: the skills first, then the index. */
  function RunFindings(disk: Disk, index: IndexFile): Findings {
    SkillsFindings(disk, SelectedDirs(disk)).Then(IndexFindings(disk, index))
  }

  /** The value main returns once every check has reported. */
  function ExitCode(f: Findings): int {
    if f.errors == [] then 0 else 1
  }

  /** The optional-key warnings, appended after `w0` one search at a time. */
  lemma KeyWarningsInOrder(dir: string, fm: string, w0: seq<Warning>)
    ensures w0 + KeyFindings(dir, fm).warnings ==
      w0 + (if HasKeyLine(fm, "languages:") then [] else [MissingOptionalKey(dir, "languages")]) +
      CategoryKeyWarnings(dir, HasKeyLine(fm, CategoryKey), CategoryGroup(fm, NonNewline)) +
      (if HasKeyLine(fm, "license:") then [] else [MissingOptionalKey(dir, "license")]) +
      MetadataKeyWarnings(dir, HasKeyLine(fm, "metadata:"), HasIndentedKey(fm, "author:", "TestMu AI"),
                          HasIndentedKey(fm, "version:", ""))
  {
    var scan := ScanKeys(fm);
    var lang := if scan.languages then [] else [MissingOptionalKey(dir, "languages")];
    var cat := CategoryKeyWarnings(dir, scan.category, scan.categoryValue);
    var lic := if scan.license then [] else [MissingOptionalKey(dir, "license")];
    var meta := MetadataKeyWarnings(dir, scan.metadata, scan.author, scan.version);
    assert KeyFindings(dir, fm).warnings == lang + cat + lic + meta;
    AppendAssoc(w0, lang + cat + lic, meta);
    AppendAssoc(w0, lang + cat, lic);
    AppendAssoc(w0, lang, cat);
  }

  /** What a SKILL.md that exists draws, appended after `e0` and `w0` one check at a time. */
  lemma ContentFindingsInOrder(disk: Disk, dir: string, content: string, e0: seq<Error>, w0: seq<Warning>)
    ensures e0 + ContentFindings(disk, dir, content).errors ==
      e0 + LineErrors(dir, content) + FrontmatterFindings(dir, content).errors
    ensures w0 + ContentFindings(disk, dir, content).warnings ==
      w0 + FrontmatterFindings(dir, content).warnings + LayoutWarnings(disk, dir) + MentionWarnings(dir, content) +
      CloudWarnings(disk, dir, content, DeclaredCategory(content)) + DebuggingWarnings(disk, dir)
  {
    var f := FrontmatterFindings(dir, content);
    var layout, mention := LayoutWarnings(disk, dir), MentionWarnings(dir, content);
    var cloud, debugging := CloudWarnings(disk, dir, content, DeclaredCategory(content)), DebuggingWarnings(disk, dir);
    assert ContentFindings(disk, dir, content) ==
      Findings(LineErrors(dir, content) + f.errors, f.warnings + layout + mention + cloud + debugging);
    AppendAssoc(e0, LineErrors(dir, content), f.errors);
    AppendAssoc(w0, f.warnings + layout + mention + cloud, debugging);
    AppendAssoc(w0, f.warnings + layout + mention, cloud);
    AppendAssoc(w0, f.warnings + layout, mention);
    AppendAssoc(w0, f.warnings, layout);
  }

  /** Appending a concatenation appends its parts in turn. */
  lemma AppendAssoc<T>(a: seq<T>, b: seq<T>, c: seq<T>)
    ensures a + (b + c) == a + b + c
  {
  }

  // ---------------------------------------------------------------------
  // The validator's state and its steps
  // ---------------------------------------------------------------------

  /** The script's module-level `errors`, `warnings` and `skills_found`. */
  class Validator {
    var errors: seq<Error>
    var warnings: seq<Warning>
    var skillsFound: nat

    /** The state when the script is loaded. */
    constructor()
      ensures errors == [] && warnings == [] && skillsFound == 0
    {
      errors := [];
      warnings := [];
      skillsFound := 0;
    }

    /** validate_frontmatter: true when both fences are present. */
    method ValidateFrontmatter(dir: string, content: string) returns (ok: bool)
      modifies this
      ensures ok == FrontmatterOk(content)
      ensures errors == old(errors) + FrontmatterFindings(dir, content).errors
      ensures warnings == old(warnings) + FrontmatterFindings(dir, content).warnings
      ensures skillsFound == old(skillsFound)
    {
      if !StartsWith(content, "---\n") {
        errors := errors + [MissingOpeningFence(dir)];
        return false;
      }
      var fmEnd := Find(content, "\n---\n", 3);
      if fmEnd == -1 {
        fmEnd := Find(content, "\n---", 3);
      }
      if fmEnd == -1 {
        errors := errors + [MissingClosingFence(dir)];
        return false;
      }
      var fm := if 4 <= fmEnd then content[4..fmEnd] else [];
      assert fm == Frontmatter(content);
      CheckKeys(dir, fm);
      return true;
    }

    /** The key checks of validate_frontmatter on the frontmatter text `fm`. */
    method CheckKeys(dir: string, fm: string)
      modifies this
      ensures errors == old(errors) + KeyFindings(dir, fm).errors
      ensures warnings == old(warnings) + KeyFindings(dir, fm).warnings
      ensures skillsFound == old(skillsFound)
    {
      CheckRequiredKeys(dir, fm);
      CheckOptionalKeys(dir, fm);
    }

    /** A missing `name` or `description` key is an error. */
    method CheckRequiredKeys(dir: string, fm: string)
      modifies this
      ensures errors == old(errors) + KeyFindings(dir, fm).errors
      ensures warnings == old(warnings) && skillsFound == old(skillsFound)
    {
      if !HasKeyLine(fm, "name:") {
        errors := errors + [MissingRequiredKey(dir, "name")];
      }
      if !HasKeyLine(fm, "description:") {
        errors := errors + [MissingRequiredKey(dir, "description")];
      }
    }

    /** The other keys only draw warnings. */
    method CheckOptionalKeys(dir: string, fm: string)
      modifies this
      ensures warnings == old(warnings) + KeyFindings(dir, fm).warnings
      ensures errors == old(errors) && skillsFound == old(skillsFound)
    {
      KeyWarningsInOrder(dir, fm, warnings);
      WarnUnless(HasKeyLine(fm, "languages:"), MissingOptionalKey(dir, "languages"));
      CheckCategory(dir, fm);
      WarnUnless(HasKeyLine(fm, "license:"), MissingOptionalKey(dir, "license"));
      CheckMetadata(dir, fm);
    }

    /** Appends `w` when the search it follows found nothing. */
    method WarnUnless(found: bool, w: Warning)
      modifies this
      ensures warnings == old(warnings) + (if found then [] else [w])
      ensures errors == old(errors) && skillsFound == old(skillsFound)
    {
      if !found {
        warnings := warnings + [w];
      }
    }

    /** The category check of validate_frontmatter. */
    method CheckCategory(dir: string, fm: string)
      modifies this
      ensures warnings == old(warnings) + CategoryKeyWarnings(dir, HasKeyLine(fm, CategoryKey), CategoryGroup(fm, NonNewline))
      ensures errors == old(errors) && skillsFound == old(skillsFound)
    {
      if !HasKeyLine(fm, CategoryKey) {
        warnings := warnings + [MissingOptionalKey(dir, "category")];
      } else {
        match CategoryGroup(fm, NonNewline)
        case None =>
        case Some(g) =>
          var category := Strip(g);
          if !KnownCategory(category) {
            warnings := warnings + [UnknownCategory(dir, category)];
          }
      }
    }

    /** The metadata checks of validate_frontmatter. */
    method CheckMetadata(dir: string, fm: string)
      modifies this
      ensures warnings == old(warnings) +
        MetadataKeyWarnings(dir, HasKeyLine(fm, "metadata:"), HasIndentedKey(fm, "author:", "TestMu AI"),
                            HasIndentedKey(fm, "version:", ""))
      ensures errors == old(errors) && skillsFound == old(skillsFound)
    {
      if !HasKeyLine(fm, "metadata:") {
        warnings := warnings + [MissingOptionalKey(dir, "metadata")];
      } else {
        if !HasIndentedKey(fm, "author:", "TestMu AI") {
          warnings := warnings + [MetadataWithoutAuthor(dir)];
        }
        if !HasIndentedKey(fm, "version:", "") {
          warnings := warnings + [MetadataWithoutVersion(dir)];
        }
      }
    }

    /** validate_skill for the top-level directory `dir`. */
    method ValidateSkill(disk: Disk, dir: string)
      requires disk.Exists(SkillMdPath(dir)) ==> Readable(disk, dir)
      modifies this
      ensures errors == old(errors) + SkillFindings(disk, dir).errors
      ensures warnings == old(warnings) + SkillFindings(disk, dir).warnings
      ensures skillsFound == old(skillsFound) + if disk.Exists(SkillMdPath(dir)) then 1 else 0
    {
      var skillMd := Join(dir, "SKILL.md");
      if !disk.Exists(skillMd) {
        errors := errors + [MissingSkillMd(dir)];
        return;
      }
      skillsFound := skillsFound + 1;
      var content := disk.Read(skillMd);
      CheckContent(disk, dir, content);
    }

    /** The checks validate_skill makes once it has read `content` from SKILL.md. */
    method CheckContent(disk: Disk, dir: string, content: string)
      modifies this
      ensures errors == old(errors) + ContentFindings(disk, dir, content).errors
      ensures warnings == old(warnings) + ContentFindings(disk, dir, content).warnings
      ensures skillsFound == old(skillsFound)
    {
      ContentFindingsInOrder(disk, dir, content, errors, warnings);
      CheckLineCount(dir, content);
      var fmOk := ValidateFrontmatter(dir, content);
      CheckLayout(disk, dir);
      CheckMention(dir, content);
      CheckCloud(disk, dir, content, DeclaredCategory(content));
      CheckDebugging(disk, dir);
    }

    /** The size check of validate_skill. */
    method CheckLineCount(dir: string, content: string)
      modifies this
      ensures errors == old(errors) + LineErrors(dir, content)
      ensures warnings == old(warnings) && skillsFound == old(skillsFound)
    {
      var lines := |Split(content, '\n')|;
      if lines > MaxSkillLines {
        errors := errors + [TooManyLines(dir, lines)];
      }
    }

    /** The reference directory and playbook checks of validate_skill. */
    method CheckLayout(disk: Disk, dir: string)
      modifies this
      ensures warnings == old(warnings) + LayoutWarnings(disk, dir)
      ensures errors == old(errors) && skillsFound == old(skillsFound)
    {
      var refDir := Join(dir, "reference");
      if !disk.IsDir(refDir) {
        warnings := warnings + [NoReferenceDir(dir)];
      } else {
        var playbook := Join(refDir, "playbook.md");
        if !disk.Exists(playbook) {
          warnings := warnings + [NoPlaybook(dir)];
        }
      }
    }

    /** The check that SKILL.md mentions its reference material. */
    method CheckMention(dir: string, content: string)
      modifies this
      ensures warnings == old(warnings) + MentionWarnings(dir, content)
      ensures errors == old(errors) && skillsFound == old(skillsFound)
    {
      if !Contains(content, "reference/") && !Contains(content, "playbook.md") {
        warnings := warnings + [PlaybookNotMentioned(dir)];
      }
    }

    /** The cloud reference check for e2e skills. */
    method CheckCloud(disk: Disk, dir: string, content: string, category: string)
      modifies this
      ensures warnings == old(warnings) + CloudWarnings(disk, dir, content, category)
      ensures errors == old(errors) && skillsFound == old(skillsFound)
    {
      if category == "e2e-testing" {
        var refDir := Join(dir, "reference");
        var hasCloudRef := false;
        if disk.IsDir(refDir) {
          hasCloudRef := disk.Exists(Join(refDir, "cloud-integration.md"));
        }
        var hasSharedLink := LinksSharedGuide(content);
        if !hasCloudRef && !hasSharedLink {
          warnings := warnings + [NoCloudReference(dir)];
        }
      }
    }

    /** The check that the playbook has a debugging section. */
    method CheckDebugging(disk: Disk, dir: string)
      modifies this
      ensures warnings == old(warnings) + DebuggingWarnings(disk, dir)
      ensures errors == old(errors) && skillsFound == old(skillsFound)
    {
      var playbookPath := Join(Join(dir, "reference"), "playbook.md");
      if disk.Exists(playbookPath) {
        var playbookContent := disk.Read(playbookPath);
        if !Contains(AsciiLower(playbookContent), "debugging") {
          warnings := warnings + [NoDebuggingSection(dir)];
        }
      }
    }

    /** One pass of validate_skills_index's loop: an entry without a path is only warned about. */
    method VisitEntry(disk: Disk, entry: Entry)
      modifies this
      ensures errors == old(errors) + EntryFindings(disk, entry).errors
      ensures warnings == old(warnings) + EntryFindings(disk, entry).warnings
      ensures skillsFound == old(skillsFound)
    {
      if entry.path == [] {
        warnings := warnings + [EntryWithoutPath];
      } else {
        ValidateEntry(disk, entry);
      }
    }

    /** The checks validate_skills_index makes on one entry that has a path. */
    method ValidateEntry(disk: Disk, entry: Entry)
      requires entry.path != []
      modifies this
      ensures errors == old(errors) + EntryFindings(disk, entry).errors
      ensures warnings == old(warnings) + EntryFindings(disk, entry).warnings
      ensures skillsFound == old(skillsFound)
    {
      var dir := entry.path;
      var skillMd := entry.skillMd;
      ghost var e0 := errors;
      if skillMd != [] && !disk.Exists(skillMd) {
        errors := errors + [ListedFileMissing(dir, skillMd)];
      }
      ghost var e1 := errors;
      CheckListedReferences(disk, dir, entry.reference);
      assert errors == e0 + (e1[|e0|..] + MissingReferences(disk, dir, entry.reference));
      var refDir := Join(dir, "reference");
      if disk.IsDir(refDir) {
        CheckUnindexed(dir, entry.reference, disk.ListDir(refDir));
      }
    }

    /** Every reference path the entry lists must exist. */
    method CheckListedReferences(disk: Disk, dir: string, refs: seq<string>)
      modifies this
      ensures errors == old(errors) + MissingReferences(disk, dir, refs)
      ensures warnings == old(warnings) && skillsFound == old(skillsFound)
    {
      var k := 0;
      while k < |refs|
        invariant 0 <= k <= |refs|
        invariant errors == old(errors) + MissingReferences(disk, dir, refs[..k])
        invariant warnings == old(warnings) && skillsFound == old(skillsFound)
      {
        assert refs[..k + 1][..k] == refs[..k];
        if !disk.Exists(refs[k]) {
          errors := errors + [ListedFileMissing(dir, refs[k])];
        }
        k := k + 1;
      }
      assert refs[..k] == refs;
    }

    /** Every `.md` file in the reference directory, listed as `names`, should be indexed. */
    method CheckUnindexed(dir: string, refs: seq<string>, names: seq<string>)
      modifies this
      ensures warnings == old(warnings) + UnindexedAmong(dir, refs, names)
      ensures errors == old(errors) && skillsFound == old(skillsFound)
    {
      var m := 0;
      while m < |names|
        invariant 0 <= m <= |names|
        invariant warnings == old(warnings) + UnindexedAmong(dir, refs, names[..m])
        invariant errors == old(errors) && skillsFound == old(skillsFound)
      {
        assert names[..m + 1][..m] == names[..m];
        var name := names[m];
        if EndsWith(name, ".md") {
          var rel := dir + "/reference/" + name;
          if refs != [] && rel !in refs {
            warnings := warnings + [ReferenceNotIndexed(dir, name)];
          }
        }
        m := m + 1;
      }
      assert names[..m] == names;
    }

    /** validate_skills_index */
    method ValidateSkillsIndex(disk: Disk, index: IndexFile)
      modifies this
      ensures errors == old(errors) + IndexFindings(disk, index).errors
      ensures warnings == old(warnings) + IndexFindings(disk, index).warnings
      ensures skillsFound == old(skillsFound)
    {
      match index
      case Absent =>
        warnings := warnings + [IndexNotFound];
      case Malformed =>
        errors := errors + [InvalidIndexJson];
      case Parsed(entries) =>
        ValidateEntries(disk, entries);
    }

    /** The loop of validate_skills_index over the entries of the index. */
    method ValidateEntries(disk: Disk, entries: seq<Entry>)
      modifies this
      ensures errors == old(errors) + EntriesFindings(disk, entries).errors
      ensures warnings == old(warnings) + EntriesFindings(disk, entries).warnings
      ensures skillsFound == old(skillsFound)
    {
      ghost var e0, w0 := errors, warnings;
      var i := 0;
      while i < |entries|
        invariant 0 <= i <= |entries|
        invariant errors == e0 + EntriesFindings(disk, entries[..i]).errors
        invariant warnings == w0 + EntriesFindings(disk, entries[..i]).warnings
        invariant skillsFound == old(skillsFound)
      {
        EntriesStep(disk, entries, i, e0, w0);
        i := i + 1;
      }
      assert entries[..i] == entries;
    }

    /** One pass of validate_skills_index's loop extends the findings by those of entry `i`. */
    method EntriesStep(disk: Disk, entries: seq<Entry>, i: nat, ghost e0: seq<Error>, ghost w0: seq<Warning>)
      requires i < |entries|
      requires errors == e0 + EntriesFindings(disk, entries[..i]).errors
      requires warnings == w0 + EntriesFindings(disk, entries[..i]).warnings
      modifies this
      ensures errors == e0 + EntriesFindings(disk, entries[..i + 1]).errors
      ensures warnings == w0 + EntriesFindings(disk, entries[..i + 1]).warnings
      ensures skillsFound == old(skillsFound)
    {
      EntriesFindingsStep(disk, entries, i, e0, w0);
      VisitEntry(disk, entries[i]);
    }

    /** main, from a freshly loaded script: the exit code it returns. */
    method Run(disk: Disk, index: IndexFile) returns (code: int)
      requires errors == [] && warnings == [] && skillsFound == 0
      requires CandidatesReadable(disk)
      modifies this
      ensures errors == RunFindings(disk, index).errors
      ensures warnings == RunFindings(disk, index).warnings
      ensures skillsFound == |SelectedDirs(disk)|
      ensures code == ExitCode(RunFindings(disk, index))
      ensures code == 0 <==> errors == []
    {
      var items := Sort(disk.ListDir(Root));
      forall item | item in items && IsCandidate(disk, item) ensures Readable(disk, item) {
        assert item in multiset(items);
      }
      ValidateAll(disk, items);
      ValidateSkillsIndex(disk, index);
      if errors == [] {
        code := 0;
      } else {
        code := 1;
      }
    }

    /** The loop of main over the sorted top-level entries `items`. */
    method ValidateAll(disk: Disk, items: seq<string>)
      requires errors == [] && warnings == [] && skillsFound == 0
      requires forall item :: item in items && IsCandidate(disk, item) ==> Readable(disk, item)
      modifies this
      ensures errors == SkillsFindings(disk, Selected(disk, items)).errors
      ensures warnings == SkillsFindings(disk, Selected(disk, items)).warnings
      ensures skillsFound == |Selected(disk, items)|
    {
      var i := 0;
      while i < |items|
        invariant 0 <= i <= |items|
        invariant errors == SkillsFindings(disk, Selected(disk, items[..i])).errors
        invariant warnings == SkillsFindings(disk, Selected(disk, items[..i])).warnings
        invariant skillsFound == |Selected(disk, items[..i])|
      {
        ItemsStep(disk, items, i);
        i := i + 1;
      }
      assert items[..i] == items;
    }

    /** One pass of main's loop, over the `i`th entry of `items`. */
    method ItemsStep(disk: Disk, items: seq<string>, i: nat)
      requires i < |items|
      requires IsCandidate(disk, items[i]) ==> Readable(disk, items[i])
      requires errors == SkillsFindings(disk, Selected(disk, items[..i])).errors
      requires warnings == SkillsFindings(disk, Selected(disk, items[..i])).warnings
      requires skillsFound == |Selected(disk, items[..i])|
      modifies this
      ensures errors == SkillsFindings(disk, Selected(disk, items[..i + 1])).errors
      ensures warnings == SkillsFindings(disk, Selected(disk, items[..i + 1])).warnings
      ensures skillsFound == |Selected(disk, items[..i + 1])|
    {
      ItemStep(disk, items, i);
      VisitItem(disk, items[i]);
    }

    /** One pass of main's loop: the entry `item` is validated when it is a candidate. */
    method VisitItem(disk: Disk, item: string)
      requires IsCandidate(disk, item) ==> Readable(disk, item)
      modifies this
      ensures errors == old(errors) + ItemFindings(disk, item).errors
      ensures warnings == old(warnings) + ItemFindings(disk, item).warnings
      ensures skillsFound == old(skillsFound) + if IsCandidate(disk, item) then 1 else 0
    {
      if disk.IsDir(item) && item !in SkipDirs && !StartsWith(item, ".") {
        if disk.Exists(Join(item, "SKILL.md")) {
          ValidateSkill(disk, item);
        }
      }
    }
  }
}
