# daybook, modelled in Dafny

daybook keeps a journal in a git repository: one text file per entry, under
a folder per day (`MM_DD_YYYY`), with inline `@@tag` tokens. This project
models the parts of it that decide things:

- the entry store (`daybook/__init__.py`, module `Store`, class `Daybook`):
  - `_get_matches` walks the file names that `git log --name-only` printed,
    in log order. It keeps a file that passes the tag filter and the text
    filter, and stops one match past `max_entries`.
  - around it: the filters, the normalisation of logged names into paths,
    the name of a new entry, the decrypt guard, `list_entries`, the tag
    scanner and `list_tags`, and `execute_cmd`;
- `str_to_bool` and the day-folder name (`daybook/utils.py`, module `Utils`);
- the text the editor is opened on (`fileio.py`, module `FileIo`);
- the command layer (`commands.py`, module `Commands`):
  - an entry's title;
  - installing a diary into the configuration, and the configuration lookups;
  - which entry `edit_entry` opens and whether it commits;
  - the cap and the labels of `list_entries`.

Support modules:
- `Text` holds the parts of Python's `str` the code uses: `isspace`,
  `join`, `split`, `in`, `strip`, `endswith` and `str(int)`.
- `Paths` holds `posixpath.join` and `posixpath.dirname`.
- `Wrappers` holds `Option` and `Result`.

How the model stands in for the outside world:
- The filesystem is a map from path to the file's lines, as `readlines`
  returns them, each line keeping its `"\n"`.
- The output of `git log`, already split into lines, is a parameter.
- The date and the timestamp are parameters.
- Python exceptions and `sys.exit` become `Failure` values or error
  variants of a result datatype.

`MatchFiles`, the loop of `_get_matches`, is proved equal to a recursive
specification, `Select`.
When every logged file exists, `Select` is shown to be `Take(Filter(files),
bound)`. `Filter` is proved sound, complete and order-preserving.

Where the store's description and its code differ, the model follows the code:
- A negative `max_entries` gives an empty listing. The test
  `max_entries and num_found > max_entries` fires at the first match, so the
  negative value does not mean "no bound".
- A logged name with no file on disk raises from `open`, so the listing
  fails with `FileNotFound`. Such names are not skipped.
- The file list is neither sorted nor de-duplicated. A file that the log
  names twice is listed twice.

## Model

| member | source | states |
|---|---|---|
| Utils.StrToBool | daybook/utils.py:4-19 | None gives None. A boolean passes through unchanged. A string succeeds exactly when it is "True" or "False", with that truth value. Any other string is an `InvalidInput` error that carries the string. |
| Utils.StrToBoolIdempotent | daybook/utils.py:11-19 | Converting a successful result a second time gives the same result. |
| Utils.TwoDigits | daybook/utils.py:22-23 | `%m` and `%d` are two decimal digits. |
| Utils.FormatDate | daybook/utils.py:22-23 | The folder name has `_` at positions 2 and 5. Every other character is a digit. |
| Utils.DateFolderLength | daybook/utils.py:22-23 | For a four-digit year the folder name is exactly 10 characters. |
| Utils.FormatDateFields | daybook/utils.py:22-23 | Split on `_`, the folder name is the month, the day and the year, in that order. |
| Utils.DateRoundTrip | daybook/utils.py:22-23 | Splitting the folder name on `_` and reading the fields back gives the original month, day and year. |
| Text.Split | daybook/__init__.py:103 | `split(',')` gives at least one piece, and no piece holds the separator. |
| Text.SplitTrailingSeparator | daybook/__init__.py:103 | A trailing comma adds exactly one empty piece at the end. |
| Text.ContainsIsSubstring | daybook/__init__.py:80 | The scanning `in` test is true exactly when the needle occurs at some position of the text. |
| Text.Strip | fileio.py:13 | `strip()` gives "" exactly for a blank string. Otherwise the result neither starts nor ends with whitespace. |
| Text.NatToStringInjective | commands.py:249 | Different numbers are rendered differently by `str(n)`. |
| Paths.PathJoin | daybook/__init__.py:75 | The joined path ends with the name. For a relative name, the path is the directory followed by the name, with a `/` between them unless the directory is empty or already ends in `/`. |
| Paths.DirnameOfJoin | daybook/__init__.py:75 | The parent of `join(base, book)` is `base` again, for a base without a trailing slash and a book name without `/`. |
| Tags.NonSpaceRun | daybook/__init__.py:140 | `\S+` is greedy: the run has no whitespace and stops only at whitespace or at the end of the text. |
| Tags.TokenEnd | daybook/__init__.py:140 | A token that starts here is at least 3 characters long. It ends at whitespace or at the end of the text. |
| Tags.FindTagsWellFormed | daybook/__init__.py:139-140 | Every token found is `@@` followed by at least one more character, and contains no whitespace. |
| Tags.FoundTagsAreMaximal | daybook/__init__.py:139-140 | Every token found occurs in the text. It cannot be extended: whitespace or the end of the text follows it. |
| Tags.FindTagsScan | daybook/__init__.py:139-140 | The scan goes left to right without overlaps. `TagStarts` gives each token a start position. Token `k` is the maximal run at its own position, and it ends before token `k + 1` starts. Every position where `@@` and a non-space character begin lies inside some token found, so no tag is skipped. |
| Tags.FindTagsAppend | daybook/__init__.py:139-140 | A text that ends in whitespace is scanned on its own: the tokens of `a + b` are those of `a`, then those of `b`. |
| Tags.TokenThen | daybook/__init__.py:139-140 | `@@name`, followed by whitespace or by nothing, is exactly one token, and the scan resumes after it. |
| Store.Limit | daybook/__init__.py:110 | `max_entries and num_found > max_entries`: None and 0 leave the listing unbounded, a positive value bounds it by that value, and a negative value bounds it by 0. |
| Store.SelectStep | daybook/__init__.py:99-113 | One file of the log: a missing file raises, a failing file is skipped, the bound ends the scan, and otherwise the file is kept and the bound drops by one. |
| Store.MissingFile | daybook/__init__.py:99-101 | When the loop reaches a logged name that is not on disk, the whole listing is a `FileNotFound` error for that name. |
| Store.SkipFile | daybook/__init__.py:102-107 | A file that fails a filter leaves the found matches, and the listing still owed, as they were. |
| Store.StopAtBound | daybook/__init__.py:109-111 | A match beyond the bound ends the listing with the matches found so far. |
| Store.KeepFile | daybook/__init__.py:109-113 | A match within the bound is appended, and the rest of the log owes one match fewer. |
| Store.EndOfLog | daybook/__init__.py:114 | At the end of the log the listing is exactly the matches found. |
| Store.Take | daybook/__init__.py:109-113 | The bounded listing is a prefix of the matches. Its length is the smaller of the bound and the number of matches. |
| Store.FilterSound | daybook/__init__.py:97-113 | Every match is a logged file, with its content from disk, that passes every filter that is set. |
| Store.FilterComplete | daybook/__init__.py:97-113 | Every logged file that passes the filters is among the matches. |
| Store.FilterKeepsOrder | daybook/__init__.py:97-113 | The paths of the matches are a subsequence of the log, in log order. |
| Store.SelectIsTakeOfFilter | daybook/__init__.py:96-114 | With every logged file on disk, the listing is `Take(Filter(files), bound)`. |
| Store.SelectBounded | daybook/__init__.py:109-111 | A successful listing never holds more entries than the bound. |
| Store.CapSemantics | daybook/__init__.py:109-113 | With every file on disk: None or 0 returns every match, and a positive n returns the first n matches (all of them when fewer match). A negative value returns nothing. The result is always a prefix of the matches, so no match is skipped before the bound. |
| Store.RepeatedFileListedTwice | daybook/__init__.py:97-113 | A passing file that the log names twice is listed twice: there is no de-duplication. |
| Store.TrailingCommaKeepsEverything | daybook/__init__.py:102-104 | Pieces are not stripped. A trailing comma in `with_tags` leaves an empty piece, which occurs in every entry, so the filter keeps everything. |
| Store.LineBreakDoubled | daybook/__init__.py:84-85 | For any lines, at a line `k` that keeps its newline, the text is the lines up to `k`, then `"\n"`, then the rest. The first part already ends in `"\n"`, so the text holds `"\n\n"` at that break. |
| Store.NeedleAcrossLineBreakMisses | daybook/__init__.py:84-85 | An instance: for the lines `"a\n"` and `"b\n"` the text is `"a\n\nb\n"`, and the needle `"a\nb"` that spans the break is not found. |
| Store.PossibleDecrypt | daybook/__init__.py:127-131 | A path ending in `.txt.encrypted` always fails, because `_decrypt` raises. Any other content is handed on unchanged. |
| Store.DecryptAll | daybook/__init__.py:133 | The comprehension succeeds exactly when no listed path has the encrypted suffix. It then returns the listing unchanged. |
| Store.ListingIsTakeOfFilter | daybook/__init__.py:125-133 | With every logged file on disk and none encrypted, `list_entries` returns the first matches, undecrypted. |
| Store.AllTags | daybook/__init__.py:144-146 | Every token collected over the entries is well formed. |
| Store.NonEmptyKeepsNames | daybook/__init__.py:73 | Dropping empty log lines removes only the empty lines. Every other line is kept, in order, and as many times as the log holds it. |
| Store.Daybook.constructor | daybook/__init__.py:17-20 | The project directory is `join(base_dir, book_name)`. |
| Store.Daybook.ExecuteCmd | daybook/__init__.py:30-34 | A failing git command gives `[]`. A successful one gives its output. |
| Store.Daybook.EntryFilename | daybook/__init__.py:44-51 | The new entry's name ends in `.txt.encrypted` when encrypted, and in `.txt` otherwise. |
| Store.Daybook.FilesMatchingDates | daybook/__init__.py:58-75 | One path for each non-empty log line, in log order. Each path is that name joined to the parent of the project directory. |
| Store.Daybook.FoundAnyTagInEntry | daybook/__init__.py:77-82 | The loop returns true exactly when some tag of the list is a substring of the lines joined with `'\n'`. |
| Store.Daybook.FoundAnyTextInEntry | daybook/__init__.py:84-85 | True exactly when the text is a substring of the lines joined with `'\n'`. |
| Store.Daybook.PassesFilters | daybook/__init__.py:102-107 | False exactly where the loop `continue`s: a set tag filter with no piece found, or a set text filter whose text is missing. |
| Store.Daybook.MatchFiles | daybook/__init__.py:96-114 | The loop over the logged files, with its early returns, computes `Select` under the bound `Limit(max_entries)`. |
| Store.Daybook.GetMatches | daybook/__init__.py:87-114 | The listing is `Select` over the normalised log. |
| Store.Daybook.ListEntries | daybook/__init__.py:116-133 | The listing is `_get_matches`, each entry passed through `possible_decrypt`. The first error raised ends it. |
| Store.Daybook.CollectTags | daybook/__init__.py:144-146 | The accumulation loop yields the tokens of every entry, entry after entry. |
| Store.Daybook.ListTags | daybook/__init__.py:142-148 | The set of all tokens in the default listing (bound 10, no filter), or the listing's error. |
| Store.ListTagsScope | daybook/__init__.py:142-148 | `list_tags` looks at no more than 10 entries, and everything it reports is a well-formed token. |
| Store.LoggedNamesUnderBaseDir | daybook/__init__.py:73-75 | A logged relative name becomes `<base_dir>/<name>`, for a non-empty base directory without a trailing `/` and a book name without `/`. |
| Store.EntryFilenameShape | daybook/__init__.py:44-51 | The new entry's name is `<project_dir>/<MM_DD_YYYY>/<stamp><ext>`. |
| Store.EntryFilenameEncrypted | daybook/__init__.py:44-51 | The new entry's name ends in `.txt.encrypted` exactly when the entry is encrypted. |
| Store.SuffixDecidesEncryption | daybook/__init__.py:50 | A name ending in `.txt` does not end in `.txt.encrypted`. |
| Store.CreatedEntryDecrypt | daybook/__init__.py:127-131 | A new entry is listable exactly when it was created unencrypted, and it is then listed as written. |
| Store.FailureLooksLikeNoOutput | daybook/__init__.py:30-34 | A failed git command cannot be told apart from one that printed nothing. |
| FileIo.TagTokens | fileio.py:13 | One token per comma-separated piece of the tag string: `@@` followed by the stripped piece. |
| FileIo.RenderTags | fileio.py:12-13 | The rendered tag line starts with `@@`. |
| FileIo.Seed | fileio.py:8-22 | Non-empty previous contents are used verbatim. Otherwise the seed is empty exactly when there is neither a title nor tags. It starts with the title when one is given, and ends with the rendered tags when tags are given. |
| FileIo.TokenInSpaceJoin | fileio.py:13 | Every whitespace-free `@@` token of a space-joined list is found by the scanner in the joined text. |
| FileIo.RenderedTagFound | fileio.py:12-13 | A tag piece that is one word once stripped is scanned back, with its `@@`, from the rendered line. |
| FileIo.SeedTagsRecovered | fileio.py:12-18 | The same holds for the whole seed, whether or not a title comes first. |
| Commands.FirstNonBlankIndex | commands.py:82-87 | The loop skips exactly the leading blank lines and stops at the first line that is not blank. |
| Commands.FirstNonBlank | commands.py:83-87 | None exactly when every line is blank. Otherwise the result is one of the lines, and it is not blank. |
| Commands.EntryTitle | commands.py:75-87 | None exactly when every line of `entry.split("\n")` is blank. A title is never blank and holds no newline. |
| Commands.FirstNonBlankAt | commands.py:83-87 | The title is line k exactly when every earlier line is blank and line k is not. |
| Commands.SeedTitleRecovered | commands.py:218-219 | A one-line, non-blank title given to a new entry is the title `_get_entry_title` reads back from the seed, with or without tags. |
| Commands.ProjectSettings | commands.py:52-57 | The settings hold `base_dir` and `remote_url`. They hold `default_template` exactly when a truthy template is given, and no other key. |
| Commands.Installed | commands.py:50-59 | The section is created if absent. The name maps to its new settings, and every other project keeps its entry. |
| Commands.LookupIn | commands.py:32-45 | A missing section or an unknown name is an error. Otherwise the lookup succeeds exactly when the key is stored, and gives the stored value. |
| Commands.Config.constructor | commands.py:26-30 | The configuration holds the given `daybooks` section. |
| Commands.Config.AddProject | commands.py:49-59 | The section becomes `Installed(old section, …)`. |
| Commands.Config.BaseDirFor | commands.py:40-45 | Succeeds exactly for an installed name that has a `base_dir`, and gives it. |
| Commands.Config.RemoteUrlFor | commands.py:32-37 | Succeeds exactly for an installed name that has a `remote_url`, and gives it. |
| Commands.LookupAfterInstall | commands.py:49-59 | After an install, the lookups give the installed `base_dir` and `remote_url`. `default_template` is there exactly when a truthy template was given. |
| Commands.InstallKeepsOtherLookups | commands.py:50-59 | Installing one project changes no lookup of any other project. |
| Commands.EditLimit | commands.py:171 | `edit_entry` asks for one entry more than `entries_back_num`. |
| Commands.EditDecision | commands.py:174-213 | A bad flag exits before anything is listed. An edit is committed exactly when entries were found and the edit is non-empty and differs from the last entry's text. The commit goes to that entry's path, under the title of its original text. Creation happens exactly when nothing matched, `create_if_missing` is set and the flag is True or False. |
| Commands.EditTargetIsNthMatch | commands.py:171-203 | With every file on disk and unencrypted, the edited entry is the match `entries_back_num` places back, or the oldest match when fewer match. |
| Commands.EditCommitsNthMatch | commands.py:203-213 | A changed, non-empty edit commits exactly that match, titled after its original text. |
| Commands.ListCap | commands.py:238 | No cap, or a cap of 0, becomes 1000. Any other value is kept. |
| Commands.DefaultListingHoldsAThousand | commands.py:238-246 | Left to its default, the listing holds at most 1000 entries. |
| Commands.OrderLabel | commands.py:249 | Exactly position 0 is labelled "(most recent)". |
| Commands.OrderLabelInjective | commands.py:249 | Different positions get different labels. |
| Commands.Indented | commands.py:252-254 | Each line of an entry is printed stripped, behind a four-space indent. |
| Commands.Block | commands.py:248-254 | An entry prints as its heading, then its indented lines. |
| Commands.Blocks | commands.py:247-254 | Entry k is printed with position k in its heading. |
| Commands.PrintListing | commands.py:247-254 | The printing loop, with its counter, produces `Printed(entries)`. |
| Commands.ListEntriesCommand | commands.py:237-254 | The printed listing under the default cap, or the store's error. |
| Commands.HeadersPrinted | commands.py:248-251 | Every entry's heading, with its own position, appears in the output. |

## Left out

- Git, `subprocess` and PyGit are not modelled. The output of `git log` is a parameter, and a git run is a value (`GitRun`).
- Committing, adding, pulling and pushing are not modelled, and neither are `commit_entry`, `commit_edited_entry` or `sync`.
- The `--until`/`--since` arguments of `_get_files_matching_dates` are built but never passed to git, so there is no date-range filtering.
- The model makes no filesystem changes. The `os.makedirs` calls and `_write_entry_to_disk` are not modelled, and the files are a read-only map.
- `time.time()` and `datetime.now()` are not read. The timestamp is the string `str(time.time())` and the date is a parameter.
- The editor, its temporary file and YAML reading and writing are not modelled. What the editor returns is a parameter of `EditDecision`, and the configuration is a map held by `Config`.
- `install.py`'s older copy of `add_project_to_cfg` is not modelled. It uses the key `basedir`.
- argparse, `get_commands`/`list_commands`, clint's colours and indentation, stdin confirmation, `delete_entry`, `create_entry` and `list_daybooks` are not modelled. `sys.exit` is an error value. Output is a sequence of lines.
- The `encryption` module's code is not available. Encrypted content is never listed, because `_decrypt` always raises.
- `daybook/entry.py` and the acceptance test are not modelled. Nothing uses them.
- `os.path.expanduser` on the base directory is not modelled. The base directory is taken as given.
- Calls between files that do not match are not reproduced:
  - `commands.py` builds `Daybook` with three arguments;
  - `commit_entry` reads `entry.title` from a string;
  - `Daybook.list_entries` prints and returns None, while the model returns the listing;
  - `list_tags` hands `(file, lines)` pairs to the regular expression, while the model scans each entry's joined text.
- Store.Daybook.ListTags: returns a `set`. Python's `list(set(tags))` has no defined order, so only its elements are stated.
- Store.LoggedNamesUnderBaseDir: stated only for a non-empty base directory without a trailing `/`. For a base such as `~/journal/`, `dirname` strips the trailing slash, and that case is covered only by `FilesMatchingDates`' own contract.
- Utils.FormatDate: the year is its decimal digits without zero padding. The exact 10-character shape is stated only for four-digit years.
- Commands.EditDecision: the commit itself is not modelled. `commit_edited_entry` does not exist in the source, so the decision ends at `CommitEdit`.
- `_get_matches` calls `_found_any_tag_in_entry`/`_found_any_text_in_entry` and `continue`s inline. The model moves these tests into one method, `PassesFilters`, that returns false where the loop would `continue`.
