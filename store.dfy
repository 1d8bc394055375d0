/** daybook/__init__.py: the entry store. A `Daybook` owns a project
    directory inside a git working tree; listing walks the file names that
    `git log --name-only` printed, reads each file, keeps it when it passes
    the tag and text filters, and stops at the requested number of matches.

    The filesystem is the map `fs` from path to the file's lines as
    `readlines` returns them (each with its newline terminator); the output
    of `git log` is a parameter. */
module Store {
  import opened Wrappers
  import opened Text
  import opened Paths
  import opened Utils
  import opened Tags

  /** A file's content as `readlines` returns it. */
  type Lines = seq<string>

  /** One `(file, lines)` pair of a listing. */
  datatype Match = Match(path: string, lines: Lines)

  datatype StoreError =
    | FileNotFound(path: string)            // `open` on a logged name that is not on disk
    | EncryptedNotSupported(path: string)   // `_decrypt` always raises

  /** What running a git command gave: its output lines, or a non-zero exit
      (PyGit raises `CalledProcessError`). */
  datatype GitRun = Completed(output: seq<string>) | Failed(exitCode: int)

  const PlainSuffix: string := ".txt"
  const EncryptedSuffix: string := ".txt.encrypted"

  /** The text both filters search: the lines joined with `'\n'`. As every
      line keeps its own terminator, consecutive lines end up separated by
      two newlines. */
  function EntryText(lines: Lines): string {
    Join(lines, "\n")
  }

  // ------------------------------------------------------------ filters

  /** Some element of `tags` occurs in `text`. */
  ghost predicate AnyTagIn(text: string, tags: seq<string>) {
    exists k :: 0 <= k < |tags| && IsSubstring(tags[k], text)
  }

  /** Whether a file with these lines survives the filters of `_get_matches`:
      an unset filter lets everything through; `with_tags` is split on
      commas, unstripped, and any piece occurring anywhere will do. */
  ghost predicate Passes(lines: Lines, withTags: Option<string>, withText: Option<string>) {
    && (IsSet(withTags) ==> AnyTagIn(EntryText(lines), Split(withTags.value, ',')))
    && (IsSet(withText) ==> IsSubstring(withText.value, EntryText(lines)))
  }

  /** How `max_entries and num_found > max_entries` bounds a listing:
      None and 0 leave it unbounded, a positive value keeps that many
      matches, and a negative one keeps none. */
  function Limit(maxEntries: Option<int>): (limit: Option<nat>)
    ensures limit.None? <==> maxEntries.None? || maxEntries.value == 0
    ensures maxEntries.Some? && maxEntries.value > 0 ==> limit == Some(maxEntries.value)
    ensures maxEntries.Some? && maxEntries.value < 0 ==> limit == Some(0)
  {
    match maxEntries
    case None => None
    case Some(m) => if m == 0 then None else if m < 0 then Some(0) else Some(m)
  }

  // ------------------------------------------------------ specification

  /** The listing `_get_matches` produces, file by file: a name that is not
      on disk raises when the scan reaches it; a file failing a filter is
      skipped; a match beyond the bound ends the scan. */
  ghost function Select(files: seq<string>, fs: map<string, Lines>,
                        withTags: Option<string>, withText: Option<string>,
                        limit: Option<nat>): Result<seq<Match>, StoreError>
    decreases |files|
  {
    if files == [] then Success([])
    else if files[0] !in fs then Failure(FileNotFound(files[0]))
    else if !Passes(fs[files[0]], withTags, withText) then Select(files[1..], fs, withTags, withText, limit)
    else if limit == Some(0) then Success([])
    else Prepend([Match(files[0], fs[files[0]])], Select(files[1..], fs, withTags, withText, Less(limit, 1)))
  }

  function Prepend(acc: seq<Match>, r: Result<seq<Match>, StoreError>): Result<seq<Match>, StoreError> {
    match r
    case Success(rest) => Success(acc + rest)
    case Failure(e) => Failure(e)
  }

  /** One step of `Select` at position `i` of the log. */
  lemma SelectStep(files: seq<string>, i: nat, fs: map<string, Lines>,
                   withTags: Option<string>, withText: Option<string>, limit: Option<nat>)
    requires i < |files|
    ensures var f := files[i];
            var here := Select(files[i..], fs, withTags, withText, limit);
            var next := Select(files[i + 1..], fs, withTags, withText, limit);
            && (f !in fs ==> here == Failure(FileNotFound(f)))
            && (f in fs && !Passes(fs[f], withTags, withText) ==> here == next)
            && (f in fs && Passes(fs[f], withTags, withText) && limit == Some(0) ==> here == Success([]))
            && (f in fs && Passes(fs[f], withTags, withText) && limit != Some(0) ==>
                  here == Prepend([Match(f, fs[f])], Select(files[i + 1..], fs, withTags, withText, Less(limit, 1))))
  {
    assert files[i..][0] == files[i] && files[i..][1..] == files[i + 1..];
  }

  // The steps of `_get_matches`'s loop, each taking the loop invariant at
  // position `i` (the listing is what was found so far followed by the
  // listing of the rest of the log) to what that step needs.

  /** A file that fails a filter is passed over. */
  lemma SkipFile(files: seq<string>, i: nat, found: seq<Match>, fs: map<string, Lines>,
                 withTags: Option<string>, withText: Option<string>, limit: Option<nat>)
    requires i < |files| && files[i] in fs && !Passes(fs[files[i]], withTags, withText)
    requires limit.Some? ==> |found| <= limit.value
    requires Select(files, fs, withTags, withText, limit)
          == Prepend(found, Select(files[i..], fs, withTags, withText, Less(limit, |found|)))
    ensures Select(files, fs, withTags, withText, limit)
         == Prepend(found, Select(files[i + 1..], fs, withTags, withText, Less(limit, |found|)))
  {
    SelectStep(files, i, fs, withTags, withText, Less(limit, |found|));
  }

  /** A logged name with no file behind it ends the scan with an error. */
  lemma MissingFile(files: seq<string>, i: nat, found: seq<Match>, fs: map<string, Lines>,
                    withTags: Option<string>, withText: Option<string>, limit: Option<nat>)
    requires i < |files| && files[i] !in fs
    requires limit.Some? ==> |found| <= limit.value
    requires Select(files, fs, withTags, withText, limit)
          == Prepend(found, Select(files[i..], fs, withTags, withText, Less(limit, |found|)))
    ensures Select(files, fs, withTags, withText, limit) == Failure(FileNotFound(files[i]))
  {
    SelectStep(files, i, fs, withTags, withText, Less(limit, |found|));
  }

  /** At the end of the log the listing is what was found. */
  lemma EndOfLog(files: seq<string>, found: seq<Match>, fs: map<string, Lines>,
                 withTags: Option<string>, withText: Option<string>, limit: Option<nat>)
    requires limit.Some? ==> |found| <= limit.value
    requires Select(files, fs, withTags, withText, limit)
          == Prepend(found, Select(files[|files|..], fs, withTags, withText, Less(limit, |found|)))
    ensures Select(files, fs, withTags, withText, limit) == Success(found)
  {
    assert files[|files|..] == [];
    PrependNothing(Success(found));
  }

  /** A match within the bound is appended. */
  lemma KeepFile(files: seq<string>, i: nat, found: seq<Match>, fs: map<string, Lines>,
                 withTags: Option<string>, withText: Option<string>, limit: Option<nat>)
    requires i < |files| && files[i] in fs && Passes(fs[files[i]], withTags, withText)
    requires limit.Some? ==> |found| < limit.value
    requires Select(files, fs, withTags, withText, limit)
          == Prepend(found, Select(files[i..], fs, withTags, withText, Less(limit, |found|)))
    ensures Select(files, fs, withTags, withText, limit)
         == Prepend(found + [Match(files[i], fs[files[i]])], Select(files[i + 1..], fs, withTags, withText, Less(limit, |found| + 1)))
  {
    var left := Less(limit, |found|);
    SelectStep(files, i, fs, withTags, withText, left);
    assert Less(left, 1) == Less(limit, |found| + 1);
    PrependTwice(found, Match(files[i], fs[files[i]]), Select(files[i + 1..], fs, withTags, withText, Less(left, 1)));
  }

  /** A match beyond the bound ends the scan with what was found before it. */
  lemma StopAtBound(files: seq<string>, i: nat, found: seq<Match>, fs: map<string, Lines>,
                    withTags: Option<string>, withText: Option<string>, limit: Option<nat>)
    requires i < |files| && files[i] in fs && Passes(fs[files[i]], withTags, withText)
    requires limit == Some(|found|)
    requires Select(files, fs, withTags, withText, limit)
          == Prepend(found, Select(files[i..], fs, withTags, withText, Less(limit, |found|)))
    ensures Select(files, fs, withTags, withText, limit) == Success(found)
  {
    SelectStep(files, i, fs, withTags, withText, Less(limit, |found|));
    PrependNothing(Success(found));
  }

  lemma PrependNothing(r: Result<seq<Match>, StoreError>)
    ensures Prepend([], r) == r
    ensures r.Success? ==> Prepend(r.value, Success([])) == r
  {
    match r
    case Success(rest) =>
      assert [] + rest == rest;
      assert rest + [] == rest;
    case Failure(_) =>
  }

  lemma PrependTwice(found: seq<Match>, m: Match, r: Result<seq<Match>, StoreError>)
    ensures Prepend(found, Prepend([m], r)) == Prepend(found + [m], r)
  {
    match r
    case Success(rest) => assert found + ([m] + rest) == (found + [m]) + rest;
    case Failure(_) =>
  }

  /** What is left of a bound after `k` matches. */
  function Less(limit: Option<nat>, k: nat): Option<nat>
    requires limit.Some? ==> k <= limit.value
  {
    match limit
    case None => None
    case Some(n) => Some(n - k)
  }

  /** `xs` can be obtained from `ys` by deleting elements. */
  ghost predicate IsSubsequence(xs: seq<string>, ys: seq<string>)
    decreases |ys|
  {
    xs == [] || (ys != [] && ((xs[0] == ys[0] && IsSubsequence(xs[1..], ys[1..])) || IsSubsequence(xs, ys[1..])))
  }

  function PathsOf(ms: seq<Match>): (paths: seq<string>)
    ensures |paths| == |ms| && forall k :: 0 <= k < |ms| ==> paths[k] == ms[k].path
  {
    seq(|ms|, k requires 0 <= k < |ms| => ms[k].path)
  }

  /** Every file of `files` that passes the filters, in log order, with
      repetitions kept. */
  ghost function Filter(files: seq<string>, fs: map<string, Lines>,
                        withTags: Option<string>, withText: Option<string>): seq<Match>
    requires forall f :: f in files ==> f in fs
    decreases |files|
  {
    if files == [] then []
    else
      var rest := Filter(files[1..], fs, withTags, withText);
      if Passes(fs[files[0]], withTags, withText) then [Match(files[0], fs[files[0]])] + rest else rest
  }

  /** Everything `Filter` keeps is a logged file, with its content, that passes the filters. */
  lemma {:induction false} FilterSound(files: seq<string>, fs: map<string, Lines>,
                                       withTags: Option<string>, withText: Option<string>)
    requires forall f :: f in files ==> f in fs
    ensures var r := Filter(files, fs, withTags, withText);
            forall m :: m in r ==> m.path in files && m.path in fs && m.lines == fs[m.path] && Passes(m.lines, withTags, withText)
    decreases |files|
  {
    if files != [] {
      assert forall f :: f in files[1..] ==> f in files;
      FilterSound(files[1..], fs, withTags, withText);
    }
  }

  /** `Filter` misses no logged file that passes the filters. */
  lemma {:induction false} FilterComplete(files: seq<string>, fs: map<string, Lines>,
                                          withTags: Option<string>, withText: Option<string>)
    requires forall f :: f in files ==> f in fs
    ensures forall f :: f in files && Passes(fs[f], withTags, withText) ==> Match(f, fs[f]) in Filter(files, fs, withTags, withText)
    decreases |files|
  {
    if files != [] {
      assert forall f :: f in files[1..] ==> f in files;
      assert forall f :: f in files && f != files[0] ==> f in files[1..];
      FilterComplete(files[1..], fs, withTags, withText);
    }
  }

  /** `Filter` keeps the log's order: its paths are a subsequence of the log. */
  lemma {:induction false} FilterKeepsOrder(files: seq<string>, fs: map<string, Lines>,
                                            withTags: Option<string>, withText: Option<string>)
    requires forall f :: f in files ==> f in fs
    ensures IsSubsequence(PathsOf(Filter(files, fs, withTags, withText)), files)
    decreases |files|
  {
    if files != [] {
      assert forall f :: f in files[1..] ==> f in files;
      FilterKeepsOrder(files[1..], fs, withTags, withText);
      var rest := Filter(files[1..], fs, withTags, withText);
      if Passes(fs[files[0]], withTags, withText) {
        var r := [Match(files[0], fs[files[0]])] + rest;
        assert PathsOf(r)[1..] == PathsOf(rest);
      }
    }
  }

  /** The first matches up to the bound. */
  function Take(ms: seq<Match>, limit: Option<nat>): (r: seq<Match>)
    ensures r <= ms
    ensures limit.None? ==> r == ms
    ensures limit.Some? ==> |r| == if |ms| <= limit.value then |ms| else limit.value
  {
    if limit.None? || |ms| <= limit.value then ms else ms[..limit.value]
  }

  /** Bounding a listing that starts with `m` keeps `m` and bounds the rest
      by one less. */
  lemma TakeCons(m: Match, all: seq<Match>, limit: Option<nat>)
    requires limit != Some(0)
    ensures Take([m] + all, limit) == [m] + Take(all, Less(limit, 1))
  {
    if limit.Some? && |all| + 1 > limit.value {
      assert ([m] + all)[..limit.value] == [m] + all[..limit.value - 1];
    }
  }

  /** When every logged file is on disk, the listing is the first matches:
      `Take(Filter(files), limit)`. */
  lemma {:induction false} SelectIsTakeOfFilter(files: seq<string>, fs: map<string, Lines>,
                                                withTags: Option<string>, withText: Option<string>,
                                                limit: Option<nat>)
    requires forall f :: f in files ==> f in fs
    ensures Select(files, fs, withTags, withText, limit) == Success(Take(Filter(files, fs, withTags, withText), limit))
    decreases |files|
  {
    if files != [] {
      assert forall f :: f in files[1..] ==> f in files;
      var rest := files[1..];
      if !Passes(fs[files[0]], withTags, withText) {
        SelectIsTakeOfFilter(rest, fs, withTags, withText, limit);
      } else if limit != Some(0) {
        SelectIsTakeOfFilter(rest, fs, withTags, withText, Less(limit, 1));
        var m := Match(files[0], fs[files[0]]);
        var all := Filter(rest, fs, withTags, withText);
        assert Filter(files, fs, withTags, withText) == [m] + all;
        assert Select(files, fs, withTags, withText, limit)
            == Prepend([m], Select(rest, fs, withTags, withText, Less(limit, 1)));
        TakeCons(m, all, limit);
      }
    }
  }

  /** A listing never holds more than its bound, whatever else happens. */
  lemma {:induction false} SelectBounded(files: seq<string>, fs: map<string, Lines>,
                                         withTags: Option<string>, withText: Option<string>,
                                         limit: Option<nat>)
    requires Select(files, fs, withTags, withText, limit).Success? && limit.Some?
    ensures |Select(files, fs, withTags, withText, limit).value| <= limit.value
    decreases |files|
  {
    if files != [] && files[0] in fs {
      if !Passes(fs[files[0]], withTags, withText) {
        SelectBounded(files[1..], fs, withTags, withText, limit);
      } else if limit != Some(0) {
        SelectBounded(files[1..], fs, withTags, withText, Less(limit, 1));
      }
    }
  }

  /** The bound as `_get_matches` applies it, for a log whose files all
      exist: 0 or None returns every match, a positive n the first n (all of
      them when fewer match), a negative value nothing; the result is always
      a prefix of the matches, so no match is skipped before the bound. */
  lemma CapSemantics(files: seq<string>, fs: map<string, Lines>,
                     withTags: Option<string>, withText: Option<string>, maxEntries: Option<int>)
    requires forall f :: f in files ==> f in fs
    ensures var all := Filter(files, fs, withTags, withText);
            var r := Select(files, fs, withTags, withText, Limit(maxEntries));
            && r.Success?
            && r.value <= all
            && ((maxEntries.None? || maxEntries == Some(0)) ==> r.value == all)
            && (maxEntries.Some? && maxEntries.value > 0 ==>
                  |r.value| <= maxEntries.value && (|r.value| < maxEntries.value ==> r.value == all))
            && (maxEntries.Some? && maxEntries.value < 0 ==> r.value == [])
  {
    SelectIsTakeOfFilter(files, fs, withTags, withText, Limit(maxEntries));
  }

  /** The code neither sorts nor de-duplicates: a file the log names twice
      is listed twice. */
  lemma RepeatedFileListedTwice(f: string, fs: map<string, Lines>,
                                withTags: Option<string>, withText: Option<string>)
    requires f in fs && Passes(fs[f], withTags, withText)
    ensures Filter([f, f], fs, withTags, withText) == [Match(f, fs[f]), Match(f, fs[f])]
  {
    var m := Match(f, fs[f]);
    assert [f, f][1..] == [f];
    assert [f][1..] == [];
    assert Filter([f], fs, withTags, withText) == [m] + Filter([], fs, withTags, withText);
    assert Filter([f, f], fs, withTags, withText) == [m] + Filter([f], fs, withTags, withText);
  }

  /** A trailing comma in `with_tags` leaves an empty piece, which occurs in
      every text: such a tag filter keeps every entry. */
  lemma TrailingCommaKeepsEverything(lines: Lines, tags: string)
    ensures AnyTagIn(EntryText(lines), Split(tags + ",", ','))
  {
    SplitTrailingSeparator(tags, ',');
    var pieces := Split(tags + ",", ',');
    assert pieces[|pieces| - 1] == "";
    EmptyIsSubstring(EntryText(lines));
  }

  /** At a line that keeps its newline, `'\n'.join` adds a second one: the
      text is the lines up to it, `"\n"`, then the rest, and the first part
      already ends in `"\n"`, so the text has an empty line there. */
  lemma LineBreakDoubled(lines: Lines, k: nat)
    requires k + 1 < |lines| && EndsWith(lines[k], "\n")
    ensures EntryText(lines) == EntryText(lines[..k + 1]) + "\n" + EntryText(lines[k + 1..])
    ensures EndsWith(EntryText(lines[..k + 1]), "\n")
    ensures OccursAt("\n\n", EntryText(lines), |EntryText(lines[..k + 1])| - 1)
  {
    var head := lines[..k + 1];
    JoinAt(lines, "\n", k);
    JoinEndsWithLast(head, "\n");
    assert head[|head| - 1] == lines[k];
    var h := EntryText(head);
    var text := EntryText(lines);
    assert |h| >= 1 && h[|h| - 1] == '\n';
    assert text[|h| - 1] == '\n' && text[|h|] == '\n';
    assert text[|h| - 1..|h| + 1] == "\n\n";
  }

  /** An instance: lines keep their newline, so the joined text has a blank
      line between any two of them, and a needle spanning the break does not
      match. */
  lemma NeedleAcrossLineBreakMisses()
    ensures EntryText(["a\n", "b\n"]) == "a\n\nb\n"
    ensures !IsSubstring("a\nb", EntryText(["a\n", "b\n"]))
  {
    var text := EntryText(["a\n", "b\n"]);
    assert ["a\n", "b\n"][1..] == ["b\n"];
    assert text == "a\n\nb\n";
    ContainsIsSubstring(text, "a\nb");
    ContainsIsSubstring(text[1..], "a\nb");
    ContainsIsSubstring(text[2..], "a\nb");
    assert text[..3][2] != "a\nb"[2];
    assert text[1..][..3][0] != "a\nb"[0];
    assert text[2..][..3][0] != "a\nb"[0];
    assert |text[3..]| < 3;
  }

  // ----------------------------------------------------------- decrypt

  /** `possible_decrypt`: content of a file with the encrypted suffix is never
      handed on (decryption always raises); any other content is handed on
      untouched. */
  function PossibleDecrypt(path: string, lines: Lines): (r: Result<Lines, StoreError>)
    ensures r.Failure? <==> EndsWith(path, EncryptedSuffix)
    ensures r.Success? ==> r.value == lines
  {
    if EndsWith(path, EncryptedSuffix) then Failure(EncryptedNotSupported(path)) else Success(lines)
  }

  /** The comprehension in `list_entries`: the first encrypted file raises;
      without one, the listing is returned unchanged. */
  function DecryptAll(ms: seq<Match>): (r: Result<seq<Match>, StoreError>)
    ensures r.Success? <==> forall k :: 0 <= k < |ms| ==> !EndsWith(ms[k].path, EncryptedSuffix)
    ensures r.Success? ==> r.value == ms
    decreases |ms|
  {
    if ms == [] then Success([])
    else match PossibleDecrypt(ms[0].path, ms[0].lines)
      case Failure(e) => Failure(e)
      case Success(lines) =>
        match DecryptAll(ms[1..])
        case Failure(e) => Failure(e)
        case Success(rest) =>
          assert ms == [Match(ms[0].path, lines)] + rest;
          Success([Match(ms[0].path, lines)] + rest)
  }

  /** What `list_entries` hands back: the matches, each passed through
      `possible_decrypt`; the first error raised ends it. */
  ghost function Listing(files: seq<string>, fs: map<string, Lines>,
                         withTags: Option<string>, withText: Option<string>,
                         limit: Option<nat>): Result<seq<Match>, StoreError>
  {
    var s := Select(files, fs, withTags, withText, limit);
    if s.Failure? then s else DecryptAll(s.value)
  }

  /** With every logged file on disk and none of them encrypted, the
      listing is the first matches, undecrypted. */
  lemma ListingIsTakeOfFilter(files: seq<string>, fs: map<string, Lines>,
                              withTags: Option<string>, withText: Option<string>, limit: Option<nat>)
    requires forall f :: f in files ==> f in fs && !EndsWith(f, EncryptedSuffix)
    ensures Listing(files, fs, withTags, withText, limit) == Success(Take(Filter(files, fs, withTags, withText), limit))
  {
    SelectIsTakeOfFilter(files, fs, withTags, withText, limit);
    var taken := Take(Filter(files, fs, withTags, withText), limit);
    FilterSound(files, fs, withTags, withText);
    forall k | 0 <= k < |taken|
      ensures !EndsWith(taken[k].path, EncryptedSuffix)
    {
      assert taken[k] in Filter(files, fs, withTags, withText);
    }
  }

  // -------------------------------------------------------------- tags

  /** The tokens of a listing, entry after entry. */
  function AllTags(ms: seq<Match>): (tags: seq<string>)
    ensures forall k :: 0 <= k < |tags| ==> IsTag(tags[k])
    decreases |ms|
  {
    if ms == [] then []
    else
      var last := EntryText(ms[|ms| - 1].lines);
      FindTagsWellFormed(last);
      AllTags(ms[..|ms| - 1]) + FindTags(last)
  }

  // ------------------------------------------------------- git log names

  /** `[f for f in raw if f]`. */
  function NonEmpty(raw: seq<string>): seq<string>
    decreases |raw|
  {
    if raw == [] then []
    else if raw[0] == "" then NonEmpty(raw[1..])
    else [raw[0]] + NonEmpty(raw[1..])
  }

  /** Dropping the blank lines of the log keeps every other line, in order,
      and as often as the log names it. */
  lemma {:induction false} NonEmptyKeepsNames(raw: seq<string>)
    ensures var names := NonEmpty(raw);
            && (forall k :: 0 <= k < |names| ==> names[k] != "")
            && (forall x :: x in raw && x != "" ==> x in names)
            && IsSubsequence(names, raw)
            && multiset(names) == multiset(raw)["" := 0]
    decreases |raw|
  {
    if raw != [] {
      NonEmptyKeepsNames(raw[1..]);
      var rest := NonEmpty(raw[1..]);
      assert forall x :: x in raw && x != raw[0] ==> x in raw[1..];
      if raw[0] != "" {
        assert ([raw[0]] + rest)[1..] == rest;
      }
    }
    NonEmptyCounts(raw);
  }

  /** Dropping the blank lines changes no other line's count. */
  lemma {:induction false} NonEmptyCounts(raw: seq<string>)
    ensures multiset(NonEmpty(raw)) == multiset(raw)["" := 0]
    decreases |raw|
  {
    if raw != [] {
      NonEmptyCounts(raw[1..]);
      assert raw == [raw[0]] + raw[1..];
      assert multiset(raw) == multiset([raw[0]]) + multiset(raw[1..]);
    }
  }

  // ---------------------------------------------------------- the store

  class Daybook {
    const bookName: string
    const baseDir: string
    const projectDir: string
    /** The files on disk, by path. */
    const fs: map<string, Lines>

    /** `Daybook(book_name, base_dir)`: the project directory is the book's
        name inside the base directory. */
    constructor (bookName: string, baseDir: string, fs: map<string, Lines>)
      ensures this.bookName == bookName && this.baseDir == baseDir
      ensures projectDir == PathJoin(baseDir, bookName)
      ensures this.fs == fs
    {
      this.bookName := bookName;
      this.baseDir := baseDir;
      this.projectDir := PathJoin(baseDir, bookName);
      this.fs := fs;
    }

    /** `execute_cmd`: a failing git command reads as empty output. */
    function ExecuteCmd(run: GitRun): (output: seq<string>)
      ensures run.Failed? ==> output == []
      ensures run.Completed? ==> output == run.output
    {
      match run
      case Completed(lines) => lines
      case Failed(_) => []
    }

    /** `_get_entry_filename`: `<project_dir>/<MM_DD_YYYY>/<str(time)><ext>`,
        the extension recording whether the entry is encrypted. */
    function EntryFilename(date: Date, stamp: string, isEncrypted: bool): (path: string)
      requires ValidDate(date)
      ensures EndsWith(path, if isEncrypted then EncryptedSuffix else PlainSuffix)
    {
      var ext := if isEncrypted then EncryptedSuffix else PlainSuffix;
      var path := PathJoin(PathJoin(projectDir, FormatDate(date)), stamp + ext);
      EndsWithPart(path, stamp, ext);
      path
    }

    /** `_get_files_matching_dates`: the non-empty names git printed, in the
        order printed, each joined to the parent of the project directory. */
    function FilesMatchingDates(log: seq<string>): (files: seq<string>)
      ensures |files| == |NonEmpty(log)|
      ensures forall k :: 0 <= k < |files| ==> files[k] == PathJoin(Dirname(projectDir), NonEmpty(log)[k])
    {
      var names := NonEmpty(log);
      seq(|names|, k requires 0 <= k < |names| => PathJoin(Dirname(projectDir), names[k]))
    }

    /** `_found_any_tag_in_entry`: some tag of the list occurs in the joined lines. */
    method FoundAnyTagInEntry(lines: Lines, tagList: seq<string>) returns (found: bool)
      ensures found <==> AnyTagIn(EntryText(lines), tagList)
    {
      var text := EntryText(lines);
      for i := 0 to |tagList|
        invariant forall j :: 0 <= j < i ==> !IsSubstring(tagList[j], text)
      {
        ContainsIsSubstring(text, tagList[i]);
        if Contains(text, tagList[i]) {
          return true;
        }
      }
      return false;
    }

    /** `_found_any_text_in_entry`: the text occurs in the joined lines. */
    function FoundAnyTextInEntry(lines: Lines, text: string): (found: bool)
      ensures found <==> IsSubstring(text, EntryText(lines))
    {
      ContainsIsSubstring(EntryText(lines), text);
      Contains(EntryText(lines), text)
    }

    /** The two filter tests of `_get_matches`'s loop body: false exactly
        where the loop would `continue` past the file. */
    method PassesFilters(entry: Lines, withTags: Option<string>, withText: Option<string>) returns (keep: bool)
      ensures keep == Passes(entry, withTags, withText)
    {
      if IsSet(withTags) {
        var tagFound := FoundAnyTagInEntry(entry, Split(withTags.value, ','));
        if !tagFound {
          return false;
        }
      }
      if IsSet(withText) {
        if !FoundAnyTextInEntry(entry, withText.value) {
          return false;
        }
      }
      return true;
    }

    /** The loop of `_get_matches` over the logged files: keeps the matches
        in order, returning as soon as one match more than `max_entries` is
        found. */
    method MatchFiles(files: seq<string>, maxEntries: Option<int>,
                      withTags: Option<string>, withText: Option<string>)
      returns (r: Result<seq<Match>, StoreError>)
      ensures r == Select(files, fs, withTags, withText, Limit(maxEntries))
    {
      ghost var limit := Limit(maxEntries);
      var found: seq<Match> := [];
      var numFound := 0;
      PrependNothing(Select(files, fs, withTags, withText, limit));
      for i := 0 to |files|
        invariant numFound == |found|
        invariant limit.Some? ==> |found| <= limit.value
        invariant Select(files, fs, withTags, withText, limit)
               == Prepend(found, Select(files[i..], fs, withTags, withText, Less(limit, |found|)))
      {
        var f := files[i];
        if f !in fs {
          MissingFile(files, i, found, fs, withTags, withText, limit);
          return Failure(FileNotFound(f));
        }
        var entry := fs[f];
        var keep := PassesFilters(entry, withTags, withText);
        if !keep {
          SkipFile(files, i, found, fs, withTags, withText, limit);
          continue;
        }
        numFound := numFound + 1;
        if maxEntries.Some? && maxEntries.value != 0 && numFound > maxEntries.value {
          StopAtBound(files, i, found, fs, withTags, withText, limit);
          return Success(found);
        }
        KeepFile(files, i, found, fs, withTags, withText, limit);
        found := found + [Match(f, entry)];
      }
      EndOfLog(files, found, fs, withTags, withText, limit);
      return Success(found);
    }

    /** `_get_matches`: the files the log names, filtered and bounded. */
    method GetMatches(log: seq<string>, maxEntries: Option<int>,
                      withTags: Option<string>, withText: Option<string>)
      returns (r: Result<seq<Match>, StoreError>)
      ensures r == Select(FilesMatchingDates(log), fs, withTags, withText, Limit(maxEntries))
    {
      var files := FilesMatchingDates(log);
      r := MatchFiles(files, maxEntries, withTags, withText);
    }

    /** `list_entries`: the matches, each passed through `possible_decrypt`.
        (The Python prints this listing; here it is returned.) */
    method ListEntries(log: seq<string>, maxEntries: Option<int>,
                       withTags: Option<string>, withText: Option<string>)
      returns (r: Result<seq<Match>, StoreError>)
      ensures r == Listing(FilesMatchingDates(log), fs, withTags, withText, Limit(maxEntries))
    {
      var matches := GetMatches(log, maxEntries, withTags, withText);
      if matches.Failure? {
        return matches;
      }
      r := DecryptAll(matches.value);
    }

    /** The accumulation loop of `list_tags`: `tags += ...` entry by entry. */
    method CollectTags(entries: seq<Match>) returns (tags: seq<string>)
      ensures tags == AllTags(entries)
    {
      tags := [];
      for i := 0 to |entries|
        invariant tags == AllTags(entries[..i])
      {
        assert entries[..i + 1][..i] == entries[..i];
        tags := tags + FindTags(EntryText(entries[i].lines));
      }
      assert entries[..|entries|] == entries;
    }

    /** `list_tags`: the distinct tokens of the default listing (at most ten
        entries, no filter). */
    method ListTags(log: seq<string>) returns (r: Result<set<string>, StoreError>)
      ensures var s := Select(FilesMatchingDates(log), fs, None, None, Some(10));
              && (s.Failure? ==> r == Failure(s.error))
              && (s.Success? ==> r == Success(set t | t in AllTags(s.value)))
    {
      var matches := GetMatches(log, Some(10), None, None);
      if matches.Failure? {
        return Failure(matches.error);
      }
      var tags := CollectTags(matches.value);
      return Success(set t | t in tags);
    }
  }

  // ------------------------------------------------ properties of the store

  /** `list_tags` looks at no more than the ten most recent log matches, and
      everything it reports is a well-formed token. */
  lemma ListTagsScope(book: Daybook, log: seq<string>)
    requires Select(book.FilesMatchingDates(log), book.fs, None, None, Some(10)).Success?
    ensures var s := Select(book.FilesMatchingDates(log), book.fs, None, None, Some(10));
            |s.value| <= 10 && forall t :: t in AllTags(s.value) ==> IsTag(t)
  {
    SelectBounded(book.FilesMatchingDates(log), book.fs, None, None, Some(10));
  }

  /** git prints names relative to the repository root, which is the base
      directory: each such name becomes `<base_dir>/<name>`. */
  lemma LoggedNamesUnderBaseDir(book: Daybook, log: seq<string>, k: nat)
    requires book.projectDir == PathJoin(book.baseDir, book.bookName)
    requires book.baseDir != "" && book.baseDir[|book.baseDir| - 1] != '/'
    requires '/' !in book.bookName
    requires k < |NonEmpty(log)| && (NonEmpty(log)[k] == "" || NonEmpty(log)[k][0] != '/')
    ensures book.FilesMatchingDates(log)[k] == book.baseDir + "/" + NonEmpty(log)[k]
  {
    DirnameOfJoin(book.baseDir, book.bookName);
  }

  /** The file name of a new entry: `<project_dir>/<MM_DD_YYYY>/<stamp><ext>`. */
  lemma EntryFilenameShape(book: Daybook, date: Date, stamp: string, isEncrypted: bool)
    requires ValidDate(date)
    requires book.projectDir != "" && book.projectDir[|book.projectDir| - 1] != '/'
    requires stamp == "" || stamp[0] != '/'
    ensures var ext := if isEncrypted then EncryptedSuffix else PlainSuffix;
            book.EntryFilename(date, stamp, isEncrypted) == book.projectDir + "/" + FormatDate(date) + "/" + (stamp + ext)
  {
    var ext := if isEncrypted then EncryptedSuffix else PlainSuffix;
    var folder := FormatDate(date);
    assert IsDigit(folder[0]) && IsDigit(folder[|folder| - 1]);
    JoinRelative(book.projectDir, folder);
    var dir := book.projectDir + "/" + folder;
    assert dir[|dir| - 1] == folder[|folder| - 1];
    var name := stamp + ext;
    assert name[0] != '/' by {
      if stamp == "" { assert name == ext; } else { assert name[0] == stamp[0]; }
    }
    JoinRelative(dir, name);
    assert book.EntryFilename(date, stamp, isEncrypted) == PathJoin(dir, name);
  }

  /** A new entry's name ends in `.txt.encrypted` exactly when the entry is encrypted. */
  lemma EntryFilenameEncrypted(book: Daybook, date: Date, stamp: string, isEncrypted: bool)
    requires ValidDate(date)
    ensures EndsWith(book.EntryFilename(date, stamp, isEncrypted), EncryptedSuffix) <==> isEncrypted
  {
    SuffixDecidesEncryption(book.EntryFilename(date, stamp, isEncrypted), isEncrypted);
  }

  /** Joining a relative name to a directory without a trailing slash puts one slash between. */
  lemma JoinRelative(dir: string, name: string)
    requires dir != "" && dir[|dir| - 1] != '/'
    requires name == "" || name[0] != '/'
    ensures PathJoin(dir, name) == dir + "/" + name
  {
  }

  /** A name ending in `.txt` does not end in `.txt.encrypted`. */
  lemma SuffixDecidesEncryption(path: string, isEncrypted: bool)
    requires EndsWith(path, if isEncrypted then EncryptedSuffix else PlainSuffix)
    ensures EndsWith(path, EncryptedSuffix) <==> isEncrypted
  {
    if !isEncrypted {
      assert path[|path| - 1] == 't';
    }
  }

  /** An entry created unencrypted is listed as written; one created
      encrypted can never be listed. */
  lemma CreatedEntryDecrypt(book: Daybook, date: Date, stamp: string, isEncrypted: bool, lines: Lines)
    requires ValidDate(date)
    ensures var r := PossibleDecrypt(book.EntryFilename(date, stamp, isEncrypted), lines);
            (r.Failure? <==> isEncrypted) && (r.Success? ==> r.value == lines)
  {
    EntryFilenameEncrypted(book, date, stamp, isEncrypted);
  }

  /** A failed git command and one that printed nothing cannot be told apart. */
  lemma FailureLooksLikeNoOutput(book: Daybook, code: int)
    ensures book.ExecuteCmd(Failed(code)) == book.ExecuteCmd(Completed([]))
  {
  }
}
