# Skill validator and skill renamer, modelled in Dafny

The repository holds a corpus of "skills": top-level directories, each with a
`SKILL.md` (a `---`-fenced frontmatter followed by prose) and usually a
`reference/` folder, catalogued in `skills_index.json`. Two maintenance scripts
work on it, and both are modelled here.

- `scripts/validate_skills.py` walks the skill directories in sorted order. It
  checks each `SKILL.md`: its size, its frontmatter keys, its category, its
  reference layout, and whether it mentions the playbook, the cloud guide and a
  debugging section. It then cross-checks `skills_index.json` against the files
  on disk. Every finding is appended to one of two module-level lists, `errors`
  and `warnings`, and the script exits with 0 exactly when `errors` is empty.
  The model is the class `ValidateSkills.Validator`, which holds the two lists
  and the `skills_found` counter. Each method appends exactly what a function
  on the inputs says, for example `SkillFindings(disk, dir)` or
  `RunFindings(disk, index)`. The lemmas in `ValidateSkillsProps` say what
  those functions report and when.
- `scripts/rename_skills.py` applies the fixed table `DIR_RENAMES` to the
  repository. It renames the directories, rewrites every index entry (`name`,
  `path` and the file paths, through `replace_path`), rewrites the `name:`
  line of each renamed skill's `SKILL.md`, and renames `evals/<old>-evals.json`.
  The model is the class `RenameSkills.Repo`, whose methods are the four steps
  of `main`. Each method is proved to leave the state a fold over the table
  describes. The lemmas in `RenameSkillsProps` prove that the table is well
  formed and say what each step does to every name.

Supporting modules:
- `Text` models the `str` operations the scripts use: `find`, `in`,
  `split('\n')`, `strip`, `lower`, `replace`, and the ordering `sorted` uses.
- `Patterns` models the regular expressions the scripts use, as Python's `re`
  matches them under `re.MULTILINE`.
- `SkillsIndex` holds the parsed index entry.

The filesystem is a value. For the validator it is `Disk`: files with their
contents, and directories with their `os.listdir` order. For the renamer it is
the fields of `Repo`: the top-level directories, each with the content of its
`SKILL.md` when that is a file, the index entries, and the files of `evals/`.
The JSON index is already parsed. For the renamer it is absent (`None`) when
`skills_index.json` is missing or is not JSON.

Facts about the two scripts that the model makes precise:
- `validate_skill` reports a missing `SKILL.md`, but `main` only validates
  directories that have one, so a run never reports that error
  (`RunNeverMissesSkillMd`). `MissingSkillMdAlone` states the check itself
  (scripts/validate_skills.py:71-73).
- Opening a `SKILL.md` or a `playbook.md` that is a directory raises, so the
  validator's methods require `Readable` of every skill they open.
- A second rename run leaves the directories and the evals files unchanged
  (`MoveEachIdempotent`, `EvalsIdempotent`), and an entry's name and path
  (`RenamedName`). A whole entry is unchanged when its rewritten paths mention
  no old name (`RenamedTwice`). `replace_path` can, in principle, produce a
  new occurrence of an old name. A `SKILL.md` with a second matching `name:`
  line is rewritten again, since `count=1` replaces one line per run.
- The renamer opens and parses `skills_index.json` with no guard. When that
  file is missing or is not JSON, `main` raises after renaming the
  directories, and the index, the frontmatter and the evals files are left as
  they were (`RenameSkills.Repo.Run`).

## Model

| member | source | states |
|---|---|---|
| Text.Find | scripts/validate_skills.py:30-32 | `str.find(p, from)` gives -1 or a position at or after `from` where `p` occurs |
| Text.FindFirst | scripts/validate_skills.py:30-32 | the position `find` gives is the lowest occurrence, and -1 means there is no occurrence at or after `from` |
| Text.ContainsIff | scripts/validate_skills.py:98 | `p in t` holds exactly when `p` occurs at some position of `t` |
| Text.ContainsInfix | scripts/validate_skills.py:106 | a text containing a string also contains every piece of that string |
| Text.Split | scripts/validate_skills.py:81 | `split('\n')` always yields at least one piece |
| Text.SplitLength | scripts/validate_skills.py:81 | `split('\n')` yields one more piece than the text has newlines |
| Text.SplitPieces | scripts/validate_skills.py:81 | no piece of `split('\n')` contains a newline |
| Text.SplitJoin | scripts/validate_skills.py:81 | joining the pieces with newlines gives the text back |
| Text.TrimStart | scripts/validate_skills.py:49 | the left-stripped text is a suffix of the text that starts with no whitespace |
| Text.TrimStartRemovesSpace | scripts/validate_skills.py:49 | everything `strip` removes on the left is whitespace |
| Text.TrimEnd | scripts/validate_skills.py:49 | the right-stripped text is a prefix of the text that ends with no whitespace |
| Text.TrimEndRemovesSpace | scripts/validate_skills.py:49 | everything `strip` removes on the right is whitespace |
| Text.AsciiLowerLowers | scripts/validate_skills.py:115 | `lower` keeps the length, leaves no capital A-Z, lowers each capital by 32, and keeps every other character |
| Text.ReplaceAbsent | scripts/rename_skills.py:56 | `s.replace(old, new)` leaves `s` unchanged when `old` does not occur in it |
| Text.ReplaceLength | scripts/rename_skills.py:56 | each replaced, non-overlapping occurrence trades the length of the pattern for that of the replacement |
| Text.ReplaceBySelf | scripts/rename_skills.py:56 | replacing a pattern by itself changes nothing |
| Text.LexLessIrreflexive | scripts/validate_skills.py:161 | no string sorts before itself |
| Text.LexLessTransitive | scripts/validate_skills.py:161 | string order is transitive |
| Text.LexLessTotal | scripts/validate_skills.py:161 | of two different strings, one sorts before the other |
| Text.Insert | scripts/validate_skills.py:161 | inserting into a sorted list keeps it sorted and adds exactly the one element |
| Text.Sort | scripts/validate_skills.py:161 | `sorted` returns an ascending permutation of the listing |
| Patterns.RunEnd | scripts/validate_skills.py:48 | a greedy run stops at the end of the text or at the first character its class rejects |
| Patterns.RunEndAccepts | scripts/validate_skills.py:48 | every character in a greedy run is accepted by its class |
| Patterns.AllSpaceIff | scripts/validate_skills.py:57 | a span is all whitespace exactly when it lies within the greedy `\s*` run |
| Patterns.FirstFrom | scripts/validate_skills.py:39 | the leftmost search returns a position in range where the pattern matches |
| Patterns.FirstFromIsFirst | scripts/validate_skills.py:39 | `re.search` finds the leftmost match, and finds none only when no position matches |
| Patterns.LastIn | scripts/validate_skills.py:48 | backtracking returns a position in range where the rest of the pattern fits |
| Patterns.LastInIsLast | scripts/validate_skills.py:48 | greedy backtracking tries the longest run first, so no later position fits |
| Patterns.HasKeyLineIff | scripts/validate_skills.py:39 | `re.search('^key', fm, re.MULTILINE)` matches exactly when some line starts with `key` |
| Patterns.HasIndentedKeyIff | scripts/validate_skills.py:57-59 | `^\s+key\s*value` matches exactly when it matches at some line start |
| Patterns.IndentedKeyAtIff | scripts/validate_skills.py:57-59 | for a key starting with a non-space character, and a value that does too or is empty, the match at a line start taking whole whitespace runs is exactly the plain reading: line start, non-empty whitespace, key, optional whitespace, value |
| Patterns.IndentedKeyAtShape | scripts/validate_skills.py:57-59 | a match taking whole whitespace runs has the plain shape, its runs ending where the greedy `\s+` and `\s*` stop |
| Patterns.IndentedShapeAt | scripts/validate_skills.py:57-59 | any text of the plain shape is a match, since a key and value that start with a non-space character leave the greedy runs nothing to give back |
| Patterns.HasIndentedKeyShape | scripts/validate_skills.py:57-59 | the `^\s+key\s*value` search succeeds exactly when the plain reading holds somewhere in the text |
| Patterns.CategoryGroupStart | scripts/validate_skills.py:48 | the captured group starts at a character its class accepts |
| Patterns.CategoryGroup | scripts/validate_skills.py:48 | the group of `^category:\s*(.+)` (or `(\S+)`) is non-empty when the search matches |
| Patterns.CategoryGroupAccepts | scripts/validate_skills.py:102 | every character of the captured group belongs to its class: no newline for `.+`, no whitespace for `\S+` |
| Patterns.NoCategoryLineNoGroup | scripts/validate_skills.py:45-48 | with no line starting `category:`, the value search finds nothing |
| Patterns.TrailEnd | scripts/rename_skills.py:92 | the trailing `\s*$` ends on whitespace only, where `$` holds |
| Patterns.TrailEndIsLongest | scripts/rename_skills.py:92 | the trailing `\s*$` takes the longest whitespace run after which `$` holds, and fails only when there is none |
| Patterns.NameMatchAt | scripts/rename_skills.py:92 | a match of `^name:\s*OLD\s*$` at a line start has the name-line shape |
| Patterns.NameFitsShape | scripts/rename_skills.py:92 | where OLD fits inside the leading whitespace run, the whole line has the name-line shape |
| Patterns.NameShapeFits | scripts/rename_skills.py:92 | every name-line match puts OLD inside the leading run and ends no later than the trailing run |
| Patterns.NameMatchAtGreedy | scripts/rename_skills.py:92 | the match found is the one backtracking reaches first, and no match means no line of that shape starts there |
| ValidateSkills.Join | scripts/validate_skills.py:68-69 | `os.path.join(a, b)` ends with `b` |
| ValidateSkills.ClosingFence | scripts/validate_skills.py:30-32 | the closing fence is -1, or a position at or after 3 where `\n---` starts |
| ValidateSkills.Frontmatter | scripts/validate_skills.py:37 | the frontmatter is `content[4:fm_end]`, and it is empty when the fence sits at index 3 |
| ValidateSkills.Head | scripts/validate_skills.py:102 | `content[:2000]` is the prefix of exactly 2000 characters, or the whole text when that is shorter |
| ValidateSkills.Selected | scripts/validate_skills.py:161-165 | the filter keeps at most the items it is given |
| ValidateSkills.SelectedMembers | scripts/validate_skills.py:161-165 | an item is validated exactly when it is listed and is a directory, not skipped, not hidden, and has a SKILL.md |
| ValidateSkills.ItemStep | scripts/validate_skills.py:161-165 | one pass of main's loop appends exactly what that item draws, and counts it when it is a skill |
| ValidateSkills.Validator.ItemsStep | scripts/validate_skills.py:161-165 | one pass of main's loop takes the state from the findings of the entries before `i` to the findings of the entries up to and including `i` |
| ValidateSkills.Validator.constructor | scripts/validate_skills.py:19-21 | the run starts with no error, no warning and a zero count |
| ValidateSkills.Validator.ValidateFrontmatter | scripts/validate_skills.py:24-62 | appends exactly the frontmatter findings and returns true exactly when both fences are there |
| ValidateSkills.Validator.CheckKeys | scripts/validate_skills.py:39-60 | appends the key errors and key warnings in the script's order |
| ValidateSkills.Validator.CheckRequiredKeys | scripts/validate_skills.py:39-42 | appends the errors for a missing `name` and `description` and no warning |
| ValidateSkills.Validator.CheckOptionalKeys | scripts/validate_skills.py:43-60 | appends the optional-key warnings and no error |
| ValidateSkills.Validator.CheckCategory | scripts/validate_skills.py:45-50 | appends the missing-category or unknown-category warning |
| ValidateSkills.Validator.CheckMetadata | scripts/validate_skills.py:54-60 | appends the missing-metadata, author or version warnings |
| ValidateSkills.Validator.ValidateSkill | scripts/validate_skills.py:65-116 | appends exactly what `SkillFindings` says, and counts the skill only when SKILL.md exists |
| ValidateSkills.Validator.CheckContent | scripts/validate_skills.py:80-116 | after SKILL.md is read: appends the size and frontmatter errors, then the frontmatter, layout, mention, cloud and debugging warnings in that order, and leaves the skill count alone |
| ValidateSkills.Validator.CheckLineCount | scripts/validate_skills.py:81-83 | appends the too-many-lines error and nothing else |
| ValidateSkills.Validator.CheckLayout | scripts/validate_skills.py:89-95 | appends the missing `reference/` or missing playbook warning |
| ValidateSkills.Validator.CheckMention | scripts/validate_skills.py:98-99 | appends the warning for a SKILL.md that mentions neither `reference/` nor `playbook.md` |
| ValidateSkills.Validator.CheckCloud | scripts/validate_skills.py:102-108 | appends the cloud-guide warning for an e2e skill without a guide or link |
| ValidateSkills.Validator.CheckDebugging | scripts/validate_skills.py:111-116 | appends the warning for a playbook without "debugging" in any case |
| ValidateSkills.Validator.VisitEntry | scripts/validate_skills.py:133-153 | appends exactly what one index entry draws |
| ValidateSkills.Validator.ValidateEntry | scripts/validate_skills.py:138-153 | appends the missing-file errors and unindexed warnings of an entry that has a path |
| ValidateSkills.Validator.CheckListedReferences | scripts/validate_skills.py:141-145 | appends one error per missing listed reference, in list order |
| ValidateSkills.Validator.CheckUnindexed | scripts/validate_skills.py:149-153 | appends one warning per unlisted `.md` file, in listing order |
| ValidateSkills.Validator.ValidateSkillsIndex | scripts/validate_skills.py:119-153 | appends the index's findings: a warning when absent, one error when malformed, the entries' findings otherwise |
| ValidateSkills.Validator.ValidateEntries | scripts/validate_skills.py:132-153 | appends each entry's findings in order |
| ValidateSkills.Validator.ValidateAll | scripts/validate_skills.py:161-165 | validates exactly the selected skills in listing order and counts them |
| ValidateSkills.Validator.VisitItem | scripts/validate_skills.py:162-165 | validates an item only when it is a candidate skill |
| ValidateSkills.Validator.Run | scripts/validate_skills.py:156-189 | reports the sorted skills' findings then the index's, counts the skills, and returns 0 exactly when no error was reported |
| ValidateSkillsProps.ClosingFenceIff | scripts/validate_skills.py:30-35 | the closing fence is missing exactly when `\n---` occurs nowhere at or after index 3 |
| ValidateSkillsProps.ClosingFencePrefersFullLine | scripts/validate_skills.py:30-32 | when a full `\n---\n` line exists, the fence is the first one |
| ValidateSkillsProps.FenceFindings | scripts/validate_skills.py:26-37 | a missing opening or closing fence draws exactly that one error and no warning; otherwise only key errors follow |
| ValidateSkillsProps.IndentedScan | scripts/validate_skills.py:57-59 | the author and version searches succeed exactly when some line starts with whitespace, then the key and its colon, then optional whitespace and, for the author, `TestMu AI` |
| ValidateSkillsProps.ScanFindsKeys | scripts/validate_skills.py:39-60 | each key search succeeds exactly when some frontmatter line starts with that key |
| ValidateSkillsProps.OptionalKeysOf | scripts/validate_skills.py:43-55 | a missing-key warning names exactly the absent optional keys |
| ValidateSkillsProps.UnknownCategoryOf | scripts/validate_skills.py:47-50 | an unknown-category warning carries the stripped value, and only when that value is not a valid category |
| ValidateSkillsProps.MetadataOf | scripts/validate_skills.py:54-60 | the author and version warnings appear exactly when metadata is present and the line is absent |
| ValidateSkillsProps.KeyWarningKinds | scripts/validate_skills.py:43-60 | every key warning is about the skill itself and is one of the four frontmatter kinds |
| ValidateSkillsProps.RequiredKeyErrors | scripts/validate_skills.py:39-42 | an error names `name` or `description` exactly when no frontmatter line starts with that key |
| ValidateSkillsProps.OptionalKeyWarnings | scripts/validate_skills.py:43-55 | a missing-key warning names exactly the optional keys no line starts with |
| ValidateSkillsProps.CategoryWarningIff | scripts/validate_skills.py:13-17 | a category value draws a warning exactly when, stripped, it is not one of the eleven categories |
| ValidateSkillsProps.MetadataWarningsIff | scripts/validate_skills.py:56-60 | with metadata present, an indented author `TestMu AI` and an indented version line each silence their warning |
| ValidateSkillsProps.LineCountIsNewlines | scripts/validate_skills.py:81 | the line count is the number of newlines plus one |
| ValidateSkillsProps.LineErrorsIff | scripts/validate_skills.py:82-83 | a size error appears exactly when the count exceeds 500, and it carries the count |
| ValidateSkillsProps.MissingSkillMdAlone | scripts/validate_skills.py:71-73 | a skill without SKILL.md draws exactly one error and no warning |
| ValidateSkillsProps.SharedLinkIsShortName | scripts/validate_skills.py:106 | the shared-link test holds exactly when the short name occurs |
| ValidateSkillsProps.MissingReferencesCount | scripts/validate_skills.py:142-145 | a path is named in as many errors as it is listed, when missing, and never when it exists |
| ValidateSkillsProps.AllReferencesExist | scripts/validate_skills.py:142-145 | when every listed reference exists, there is no missing-file error |
| ValidateSkillsProps.EntryMissingCount | scripts/validate_skills.py:138-145 | for an entry with a path, a missing path is named once per listing, plus once as a non-empty `skill_md` |
| ValidateSkillsProps.UnindexedAmongIff | scripts/validate_skills.py:147-153 | a reference file draws a warning exactly when it is `.md`, the list is non-empty and the file is unlisted |
| ValidateSkillsProps.IndexWarningsOnly | scripts/validate_skills.py:122-137 | an entry without a path and a missing index each draw one warning and no error |
| ValidateSkillsProps.SelectedDirsIff | scripts/validate_skills.py:161-165 | main validates exactly the listed entries that are directories, not skipped, not hidden and hold a SKILL.md |
| ValidateSkillsProps.SelectedAscending | scripts/validate_skills.py:161 | filtering a sorted listing keeps it sorted |
| ValidateSkillsProps.SelectedDirsAscending | scripts/validate_skills.py:161 | main visits the skills in ascending order |
| ValidateSkillsProps.ThenEachErrors | scripts/validate_skills.py:161-165 | an error is among the run's findings exactly when some item drew it |
| ValidateSkillsProps.ThenEachErrorFree | scripts/validate_skills.py:161-165 | the run has no error exactly when no item drew one |
| ValidateSkillsProps.FrontmatterErrorKinds | scripts/validate_skills.py:24-62 | the frontmatter check only reports fence and required-key errors, each about the skill itself |
| ValidateSkillsProps.ContentErrorKinds | scripts/validate_skills.py:80-86 | a SKILL.md that exists draws only size, fence and required-key errors, each about the skill itself |
| ValidateSkillsProps.SkillErrorsAbout | scripts/validate_skills.py:65-116 | every error a skill draws names that skill, and it draws a missing-SKILL.md error exactly when SKILL.md is missing |
| ValidateSkillsProps.RunNeverMissesSkillMd | scripts/validate_skills.py:161-165 | a full run never reports a missing SKILL.md |
| ValidateSkillsProps.ExitCodeIff | scripts/validate_skills.py:184-189 | the exit code is 0 exactly when no skill and not the index drew an error, and warnings never change it |
| RenameSkills.ReplacePath | scripts/rename_skills.py:54-57 | the loop computes the ordered left fold of replace-all over the table |
| RenameSkills.BeforeChain | scripts/rename_skills.py:11-51 | a chain of adjacent sorted steps orders every earlier name before every later one |
| RenameSkills.WellFormedByRows | scripts/rename_skills.py:11-51 | a table whose columns are sorted, and whose old names alone carry an old suffix, has distinct keys, distinct values and no value that is a key |
| RenameSkills.DirRenamesWellFormed | scripts/rename_skills.py:11-51 | `DIR_RENAMES` changes every name, has no old or new name twice, and no new name is an old one |
| RenameSkills.RowsFrom0 | scripts/rename_skills.py:12-14 | rows 0 and 1 of `DIR_RENAMES` have old names with a hyphen 17, 14 or 11 characters from the end (where `-automation-skill`, `-testing-skill` or `-ruby-skill` begins) and new names with none there, and each of their names sorts before the one in the row that follows |
| RenameSkills.RowsFrom2 | scripts/rename_skills.py:14-16 | rows 2 and 3 of `DIR_RENAMES` have old names with a hyphen 17, 14 or 11 characters from the end (where `-automation-skill`, `-testing-skill` or `-ruby-skill` begins) and new names with none there, and each of their names sorts before the one in the row that follows |
| RenameSkills.RowsFrom4 | scripts/rename_skills.py:16-18 | rows 4 and 5 of `DIR_RENAMES` have old names with a hyphen 17, 14 or 11 characters from the end (where `-automation-skill`, `-testing-skill` or `-ruby-skill` begins) and new names with none there, and each of their names sorts before the one in the row that follows |
| RenameSkills.RowsFrom6 | scripts/rename_skills.py:18-20 | rows 6 and 7 of `DIR_RENAMES` have old names with a hyphen 17, 14 or 11 characters from the end (where `-automation-skill`, `-testing-skill` or `-ruby-skill` begins) and new names with none there, and each of their names sorts before the one in the row that follows |
| RenameSkills.RowsFrom8 | scripts/rename_skills.py:20-22 | rows 8 and 9 of `DIR_RENAMES` have old names with a hyphen 17, 14 or 11 characters from the end (where `-automation-skill`, `-testing-skill` or `-ruby-skill` begins) and new names with none there, and each of their names sorts before the one in the row that follows |
| RenameSkills.RowsFrom10 | scripts/rename_skills.py:22-24 | rows 10 and 11 of `DIR_RENAMES` have old names with a hyphen 17, 14 or 11 characters from the end (where `-automation-skill`, `-testing-skill` or `-ruby-skill` begins) and new names with none there, and each of their names sorts before the one in the row that follows |
| RenameSkills.RowsFrom12 | scripts/rename_skills.py:24-26 | rows 12 and 13 of `DIR_RENAMES` have old names with a hyphen 17, 14 or 11 characters from the end (where `-automation-skill`, `-testing-skill` or `-ruby-skill` begins) and new names with none there, and each of their names sorts before the one in the row that follows |
| RenameSkills.RowsFrom14 | scripts/rename_skills.py:26-28 | rows 14 and 15 of `DIR_RENAMES` have old names with a hyphen 17, 14 or 11 characters from the end (where `-automation-skill`, `-testing-skill` or `-ruby-skill` begins) and new names with none there, and each of their names sorts before the one in the row that follows |
| RenameSkills.RowsFrom16 | scripts/rename_skills.py:28-30 | rows 16 and 17 of `DIR_RENAMES` have old names with a hyphen 17, 14 or 11 characters from the end (where `-automation-skill`, `-testing-skill` or `-ruby-skill` begins) and new names with none there, and each of their names sorts before the one in the row that follows |
| RenameSkills.RowsFrom18 | scripts/rename_skills.py:30-32 | rows 18 and 19 of `DIR_RENAMES` have old names with a hyphen 17, 14 or 11 characters from the end (where `-automation-skill`, `-testing-skill` or `-ruby-skill` begins) and new names with none there, and each of their names sorts before the one in the row that follows |
| RenameSkills.RowsFrom20 | scripts/rename_skills.py:32-34 | rows 20 and 21 of `DIR_RENAMES` have old names with a hyphen 17, 14 or 11 characters from the end (where `-automation-skill`, `-testing-skill` or `-ruby-skill` begins) and new names with none there, and each of their names sorts before the one in the row that follows |
| RenameSkills.RowsFrom22 | scripts/rename_skills.py:34-36 | rows 22 and 23 of `DIR_RENAMES` have old names with a hyphen 17, 14 or 11 characters from the end (where `-automation-skill`, `-testing-skill` or `-ruby-skill` begins) and new names with none there, and each of their names sorts before the one in the row that follows |
| RenameSkills.RowsFrom24 | scripts/rename_skills.py:36-38 | rows 24 and 25 of `DIR_RENAMES` have old names with a hyphen 17, 14 or 11 characters from the end (where `-automation-skill`, `-testing-skill` or `-ruby-skill` begins) and new names with none there, and each of their names sorts before the one in the row that follows |
| RenameSkills.RowsFrom26 | scripts/rename_skills.py:38-40 | rows 26 and 27 of `DIR_RENAMES` have old names with a hyphen 17, 14 or 11 characters from the end (where `-automation-skill`, `-testing-skill` or `-ruby-skill` begins) and new names with none there, and each of their names sorts before the one in the row that follows |
| RenameSkills.RowsFrom28 | scripts/rename_skills.py:40-42 | rows 28 and 29 of `DIR_RENAMES` have old names with a hyphen 17, 14 or 11 characters from the end (where `-automation-skill`, `-testing-skill` or `-ruby-skill` begins) and new names with none there, and each of their names sorts before the one in the row that follows |
| RenameSkills.RowsFrom30 | scripts/rename_skills.py:42-44 | rows 30 and 31 of `DIR_RENAMES` have old names with a hyphen 17, 14 or 11 characters from the end (where `-automation-skill`, `-testing-skill` or `-ruby-skill` begins) and new names with none there, and each of their names sorts before the one in the row that follows |
| RenameSkills.RowsFrom32 | scripts/rename_skills.py:44-46 | rows 32 and 33 of `DIR_RENAMES` have old names with a hyphen 17, 14 or 11 characters from the end (where `-automation-skill`, `-testing-skill` or `-ruby-skill` begins) and new names with none there, and each of their names sorts before the one in the row that follows |
| RenameSkills.RowsFrom34 | scripts/rename_skills.py:46-48 | rows 34 and 35 of `DIR_RENAMES` have old names with a hyphen 17, 14 or 11 characters from the end (where `-automation-skill`, `-testing-skill` or `-ruby-skill` begins) and new names with none there, and each of their names sorts before the one in the row that follows |
| RenameSkills.RowsFrom36 | scripts/rename_skills.py:48-50 | rows 36 and 37 of `DIR_RENAMES` have old names with a hyphen 17, 14 or 11 characters from the end (where `-automation-skill`, `-testing-skill` or `-ruby-skill` begins) and new names with none there, and each of their names sorts before the one in the row that follows |
| RenameSkills.RowsFrom38 | scripts/rename_skills.py:50 | the last row of `DIR_RENAMES` has an old name with a hyphen 17, 14 or 11 characters from the end and a new name with none there |
| RenameSkills.Repo.constructor | scripts/rename_skills.py:60-61 | the repository state the script starts from |
| RenameSkills.Repo.RenameDirectories | scripts/rename_skills.py:64-69 | directories become the guarded renames of the table in order; the index and evals are untouched |
| RenameSkills.Repo.RewriteIndex | scripts/rename_skills.py:72-83 | every entry, in place, becomes its renamed form; the count of entries is kept |
| RenameSkills.Repo.RewriteFrontmatter | scripts/rename_skills.py:87-94 | each new directory's SKILL.md, when a file, gets its name line rewritten, in table order |
| RenameSkills.Repo.RenameEvals | scripts/rename_skills.py:102-109 | when `evals/` exists, its files become the guarded evals renames; otherwise nothing changes |
| RenameSkills.Repo.Run | scripts/rename_skills.py:60-110 | main runs the four steps in order and the final state is their composition; with no readable index it stops after the directory renames, leaving index and evals as they were |
| RenameSkills.RenameEntry | scripts/rename_skills.py:76-81 | one entry's new name, path, `skill_md` and reference list, computed as the loop does |
| RenameSkillsProps.LookupChoice | scripts/rename_skills.py:77 | `get(n, n)` returns `n` for a name no entry renames, and otherwise the new name of an entry for `n` |
| RenameSkillsProps.LookupFinds | scripts/rename_skills.py:77 | on a table with distinct keys, each old name looks up its own new name |
| RenameSkillsProps.LookupRenamesOldOnly | scripts/rename_skills.py:77-78 | a lookup changes exactly the old names, into new names that are not old, so a second lookup changes nothing |
| RenameSkillsProps.DirRenamesLookupIdempotent | scripts/rename_skills.py:77 | with `DIR_RENAMES`, a name changes exactly when it is an old name, and renaming twice is renaming once |
| RenameSkillsProps.ReplaceEachAbsent | scripts/rename_skills.py:54-57 | a path that mentions no old name comes out of `replace_path` unchanged |
| RenameSkillsProps.MoveEachUntouched | scripts/rename_skills.py:64-69 | a name in no table entry is neither added, removed nor changed by the renames |
| RenameSkillsProps.MoveEachRenames | scripts/rename_skills.py:64-69 | each old name is gone; its new name is present exactly when the old or new one was, and holds the old one's content when the old one existed |
| RenameSkillsProps.MoveEachNoOld | scripts/rename_skills.py:66 | renames whose old names are all absent change nothing |
| RenameSkillsProps.MoveEachIdempotent | scripts/rename_skills.py:64-69 | a second pass of the directory renames changes nothing |
| RenameSkillsProps.EvalsMovesWellFormed | scripts/rename_skills.py:104-108 | the evals renames are well formed whenever the table is |
| RenameSkillsProps.EvalsIdempotent | scripts/rename_skills.py:102-109 | a second pass of the evals renames changes nothing |
| RenameSkillsProps.EvalsRenamed | scripts/rename_skills.py:104-108 | an existing `<old>-evals.json` is gone afterwards, and `<new>-evals.json` holds its content |
| RenameSkillsProps.SubNameEachKeys | scripts/rename_skills.py:87-94 | the frontmatter step adds and removes no directory |
| RenameSkillsProps.SubNameEachUntouched | scripts/rename_skills.py:87-94 | a directory that is no new name keeps its SKILL.md |
| RenameSkillsProps.SubNameEachRewrites | scripts/rename_skills.py:87-94 | each new directory's SKILL.md, when a file, has the name line of its own entry rewritten, once |
| RenameSkillsProps.SubNameLineUnmatched | scripts/rename_skills.py:92 | with no `name:` line of the matched shape, the content is unchanged |
| RenameSkillsProps.NoShapeWhereNoMatch | scripts/rename_skills.py:92 | where the name pattern does not match, no name-shaped line starts |
| RenameSkillsProps.SubNameLineRewrites | scripts/rename_skills.py:92 | with `count=1`, the leftmost matching line, up to the end of its longest match, becomes `name: <new>`, and the rest is unchanged |
| RenameSkillsProps.RunSkills | scripts/rename_skills.py:63-94 | after main no old directory is left, each new one exists exactly when its old or new one did, and a moved SKILL.md has its name line rewritten |
| RenameSkillsProps.RunSkillsUntouched | scripts/rename_skills.py:63-94 | a directory named in no table entry comes out of main as it went in |
| RenameSkillsProps.RenamedName | scripts/rename_skills.py:76-81 | a rewritten entry's path equals its name; the name is kept when unmapped and is never old; renaming twice keeps name and path; the reference list keeps its length |
| RenameSkillsProps.RenamedClean | scripts/rename_skills.py:76-81 | an entry with an unmapped name as its path, and paths that mention no old name, is left as it is |
| RenameSkillsProps.RenamedTwice | scripts/rename_skills.py:76-81 | rewriting an entry a second time changes nothing when its rewritten paths mention no old name |

## Left out

- The filesystem calls are modelled as values. `os.path.exists`, `isdir`, `isfile` and `listdir` read a `Disk` or the fields of `Repo`. `os.rename` is a map update, and `os.chdir` and `REPO_ROOT` are the empty root.
- Reading a `SKILL.md` or `playbook.md` that is a directory raises in the script. `ValidateSkills.Validator.ValidateSkill` (when SKILL.md exists), `ValidateAll`, `VisitItem` and `Run` require `Readable`, so that case is excluded rather than modelled. The specification functions read such a path as empty text.
- JSON is not modelled. `json.load`, `json.dump` and the content of `JSONDecodeError` are out; an index that fails to parse is the single case `Malformed` for the validator and `None` for the renamer. A key missing from an entry reads as the empty value, which is what the validator's `get` calls give. When the index parses, it is taken to be a list of objects: valid JSON of another shape makes `entry.get` raise `AttributeError`, and a `skills_index.json` that is a directory raises `IsADirectoryError`, which the script does not catch. Neither crash is modelled.
- File content is the text `open()` gives in text mode: decoded with the locale's encoding, with `\r\n` and `\r` read as `\n`. `Disk.files` and `Repo.skills` hold that text. A file that fails to decode raises `UnicodeDecodeError` in both scripts, and that crash is not modelled. The renamer writes back every `SKILL.md` it opens, which turns its line endings into `\n` even when the substitution matched nothing. That rewrite is not modelled, so `SubNameEachUntouched` "unchanged" means the same decoded text.
- The renamer indexes the entry keys `skills`, `name`, `files`, `skill_md` and `reference` directly. A missing key raises `KeyError` there, and that crash is not modelled.
- Output is not modelled: `print`, the report text and `sys.exit`. Messages are datatype values carrying the path, key, category or line count they mention.
- The renamer's `os.rename` onto a target that already exists depends on the operating system. The model overwrites the target.
- The renamer's `Repo.skills` holds the top-level directories only. A top-level file named like an old skill is never renamed by the script (`isdir` is false), and it is not represented.
- Likewise `Repo.evals` holds the files of `evals/` only. A directory named `<old>-evals.json` inside it is not represented.
- RenameSkills.Repo.Run: takes the rename table as a parameter. `main` passes `DIR_RENAMES`, whose well-formedness is `DirRenamesWellFormed`. The literal is kept out of the method proofs because it makes them too expensive.
- RenameSkills.Lookup: `dict.get` finds the last value stored for a key, and `Lookup` finds the first row. The two agree on a table with distinct keys, which `DirRenames` is.
- The loop over unchanged skill names at scripts/rename_skills.py:95-98 does nothing and is not modelled.
- `re.sub` interprets backslashes in its replacement string. `SubNameLine` takes the replacement literally, which is the same for the names in the table, since none contains a backslash.
- Text.AsciiLower: lowers A-Z only, where `str.lower` also lowers non-ASCII letters. The only use is the search for "debugging", and no non-ASCII letter lowers into a match of it.
- ValidateSkills.Join: states only that the joined path ends with its last component. `os.path.join` on the relative paths used here is fully given by its body.
