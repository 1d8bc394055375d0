/** commands.py: the pieces of the command layer that decide rather than
    print: an entry's title, the configuration update of `install` and its
    lookups, which entry `edit_entry` opens and whether it commits, and the
    cap and labels of `list_entries`. The terminal, the editor, git and
    `sys.exit` are not part of this model; an exit is an error value. */
module Commands {
  import opened Wrappers
  import opened Text
  import opened Utils
  import opened Store
  import opened FileIo

  // ------------------------------------------------------ _get_entry_title

  /** How far `_get_entry_title`'s loop gets: the position of the first line
      that is neither empty nor whitespace only, or the number of lines when
      every line is blank. */
  function FirstNonBlankIndex(lines: seq<string>): (i: nat)
    ensures i <= |lines|
    ensures forall j :: 0 <= j < i ==> IsBlank(lines[j])
    ensures i < |lines| ==> !IsBlank(lines[i])
    decreases |lines|
  {
    if lines == [] then 0
    else if IsBlank(lines[0]) then 1 + FirstNonBlankIndex(lines[1..])
    else 0
  }

  /** The first non-blank line, or None when there is none. */
  function FirstNonBlank(lines: seq<string>): (title: Option<string>)
    ensures title.None? <==> forall line :: line in lines ==> IsBlank(line)
    ensures title.Some? ==> title.value in lines && !IsBlank(title.value)
  {
    var i := FirstNonBlankIndex(lines);
    if i < |lines| then Some(lines[i]) else None
  }

  /** `_get_entry_title`: the first line of the entry, split on `"\n"`,
      that is not blank; None when every line is blank. */
  function EntryTitle(entry: string): (title: Option<string>)
    ensures title.None? <==> forall line :: line in Split(entry, '\n') ==> IsBlank(line)
    ensures title.Some? ==> !IsBlank(title.value) && '\n' !in title.value
  {
    FirstNonBlank(Split(entry, '\n'))
  }

  /** The title is the line at `k` exactly when every earlier line is blank
      and line `k` is not. */
  lemma FirstNonBlankAt(lines: seq<string>, k: nat)
    requires k < |lines| && !IsBlank(lines[k])
    requires forall j :: 0 <= j < k ==> IsBlank(lines[j])
    ensures FirstNonBlank(lines) == Some(lines[k])
  {
    var i := FirstNonBlankIndex(lines);
  }

  /** The title given to a new entry is what `_get_entry_title` reads back
      from the text the editor starts with, when it is one non-blank line. */
  lemma SeedTitleRecovered(title: string, tags: string)
    requires '\n' !in title && !IsBlank(title)
    ensures EntryTitle(Seed("", Some(title), tags)) == Some(title)
  {
    var seed := Seed("", Some(title), tags);
    if tags == "" {
      assert seed == title;
      SplitWithoutSeparator(title, '\n');
    } else {
      var rendered := RenderTags(tags);
      assert seed == title + ['\n'] + ("\n" + rendered);
      SplitAtFirst(title, '\n', "\n" + rendered);
    }
    FirstNonBlankAt(Split(seed, '\n'), 0);
  }

  // ------------------------------------------------------------ the config

  /** The settings `_add_project_to_cfg` stores for one project. */
  function ProjectSettings(baseDir: string, remoteUrl: string, template: Option<string>): (settings: map<string, string>)
    ensures "base_dir" in settings && settings["base_dir"] == baseDir
    ensures "remote_url" in settings && settings["remote_url"] == remoteUrl
    ensures "default_template" in settings <==> IsSet(template)
    ensures IsSet(template) ==> settings["default_template"] == template.value
    ensures settings.Keys <= {"base_dir", "remote_url", "default_template"}
  {
    var settings := map["base_dir" := baseDir, "remote_url" := remoteUrl];
    if IsSet(template) then settings["default_template" := template.value] else settings
  }

  /** The `daybooks` section after installing `name`: created when absent,
      with `name` bound to its new settings and every other project kept. */
  function Installed(section: Option<map<string, map<string, string>>>, name: string,
                     baseDir: string, remoteUrl: string, template: Option<string>)
    : (after: map<string, map<string, string>>)
    ensures name in after && after[name] == ProjectSettings(baseDir, remoteUrl, template)
    ensures section.Some? ==> after.Keys == section.value.Keys + {name}
    ensures section.None? ==> after.Keys == {name}
    ensures section.Some? ==> forall p :: p in section.value && p != name ==> after[p] == section.value[p]
  {
    var projects := if section.Some? then section.value else map[];
    projects[name := ProjectSettings(baseDir, remoteUrl, template)]
  }

  datatype ConfigError =
    | NoDaybooksSection                        // `cfg['daybooks']` raises KeyError
    | NotInstalled(name: string)               // "You must install your diary first", exit 1
    | MissingSetting(name: string, key: string)  // `cfg['daybooks'][d][key]` raises KeyError

  /** The setting `key` of the installed project `name`, as
      `_get_base_dir_for_diary` and `_get_remote_url_for_diary` look it up. */
  function LookupIn(section: Option<map<string, map<string, string>>>, name: string, key: string)
    : (r: Result<string, ConfigError>)
    ensures section.None? ==> r == Failure(NoDaybooksSection)
    ensures section.Some? && name !in section.value ==> r == Failure(NotInstalled(name))
    ensures r.Success? <==> section.Some? && name in section.value && key in section.value[name]
    ensures r.Success? ==> r.value == section.value[name][key]
  {
    if section.None? then Failure(NoDaybooksSection)
    else if name !in section.value then Failure(NotInstalled(name))
    else if key !in section.value[name] then Failure(MissingSetting(name, key))
    else Success(section.value[name][key])
  }

  /** The configuration file's content, of which the model keeps the
      `daybooks` section (None when the file has none). */
  class Config {
    var daybooks: Option<map<string, map<string, string>>>

    constructor(daybooks: Option<map<string, map<string, string>>>)
      ensures this.daybooks == daybooks
    {
      this.daybooks := daybooks;
    }

    /** `_add_project_to_cfg`, updating the configuration in place (writing
        it back to disk is not modelled). */
    method AddProject(name: string, baseDir: string, remoteUrl: string, template: Option<string>)
      modifies this
      ensures daybooks == Some(Installed(old(daybooks), name, baseDir, remoteUrl, template))
    {
      if daybooks.None? {
        daybooks := Some(map[]);
      }
      var settings := map["base_dir" := baseDir, "remote_url" := remoteUrl];
      if IsSet(template) {
        settings := settings["default_template" := template.value];
      }
      daybooks := Some(daybooks.value[name := settings]);
    }

    /** `_get_base_dir_for_diary`. */
    function BaseDirFor(name: string): (r: Result<string, ConfigError>)
      reads this
      ensures r.Success? <==> daybooks.Some? && name in daybooks.value && "base_dir" in daybooks.value[name]
      ensures r.Success? ==> r.value == daybooks.value[name]["base_dir"]
    {
      LookupIn(daybooks, name, "base_dir")
    }

    /** `_get_remote_url_for_diary`. */
    function RemoteUrlFor(name: string): (r: Result<string, ConfigError>)
      reads this
      ensures r.Success? <==> daybooks.Some? && name in daybooks.value && "remote_url" in daybooks.value[name]
      ensures r.Success? ==> r.value == daybooks.value[name]["remote_url"]
    {
      LookupIn(daybooks, name, "remote_url")
    }
  }

  /** After installing a project its lookups give what was installed. */
  lemma LookupAfterInstall(section: Option<map<string, map<string, string>>>, name: string,
                           baseDir: string, remoteUrl: string, template: Option<string>)
    ensures var after := Some(Installed(section, name, baseDir, remoteUrl, template));
            && LookupIn(after, name, "base_dir") == Success(baseDir)
            && LookupIn(after, name, "remote_url") == Success(remoteUrl)
            && (LookupIn(after, name, "default_template").Success? <==> IsSet(template))
  {
  }

  /** Installing one project changes no lookup of another. */
  lemma InstallKeepsOtherLookups(section: Option<map<string, map<string, string>>>, name: string,
                                 baseDir: string, remoteUrl: string, template: Option<string>,
                                 other: string, key: string)
    requires section.Some? && other != name
    ensures LookupIn(Some(Installed(section, name, baseDir, remoteUrl, template)), other, key)
         == LookupIn(section, other, key)
  {
    var after := Installed(section, name, baseDir, remoteUrl, template);
    assert other in after <==> other in section.value;
  }

  // ------------------------------------------------------------ edit_entry

  /** What `edit_entry` ends up doing. */
  datatype EditAction =
    | InvalidEncryptionFlag(input: string)   // "is_encrypted must only be True or False", exit 1
    | ListingFailed(error: StoreError)       // `list_entries` raised
    | NoEntryFound                           // nothing matched and nothing is to be created
    | EncryptionFlagRequired                 // create requested without --is-encrypted
    | CreateEntry(encrypted: bool)           // hands over to `create_entry`
    | EmptyEdit(path: string)                // "No entry.  Nothing committed."
    | NoChanges(path: string)                // "No changes.  Nothing committed."
    | CommitEdit(path: string, title: Option<string>, text: string)

  /** How many entries `edit_entry` asks for: one more than the number back. */
  function EditLimit(entriesBackNum: int): (maxEntries: Option<int>)
    ensures maxEntries.Some? && maxEntries.value - 1 == entriesBackNum
  {
    Some(entriesBackNum + 1)
  }

  /** The text of an entry as `edit_entry` hands it to the editor: its lines
      concatenated, each keeping its terminator. */
  function OriginalText(m: Match): string {
    Join(m.lines, "")
  }

  /** `edit_entry` once the diary is resolved: `flag` is the raw
      `is_encrypted_on_create`, `listing` what `list_entries` gave, and
      `edited` what the editor returned for the chosen entry. */
  function EditDecision(flag: PyValue, createIfMissing: bool,
                        listing: Result<seq<Match>, StoreError>, edited: string): (a: EditAction)
    ensures StrToBool(flag).Failure? ==> a == InvalidEncryptionFlag(flag.s)
    ensures a.CommitEdit? <==>
              && StrToBool(flag).Success? && listing.Success? && listing.value != []
              && edited != "" && edited != OriginalText(listing.value[|listing.value| - 1])
    ensures a.CommitEdit? ==>
              var chosen := listing.value[|listing.value| - 1];
              a.path == chosen.path && a.title == EntryTitle(OriginalText(chosen)) && a.text == edited
    ensures a.CreateEntry? <==>
              StrToBool(flag).Success? && listing == Success([]) && createIfMissing && StrToBool(flag).value.Some?
  {
    match StrToBool(flag)
    case Failure(_) => InvalidEncryptionFlag(flag.s)
    case Success(encrypted) =>
      match listing
      case Failure(e) => ListingFailed(e)
      case Success(entries) =>
        if entries == [] then
          if !createIfMissing then NoEntryFound
          else if encrypted.None? then EncryptionFlagRequired
          else CreateEntry(encrypted.value)
        else
          var chosen := entries[|entries| - 1];
          var original := OriginalText(chosen);
          if edited == "" then EmptyEdit(chosen.path)
          else if edited == original then NoChanges(chosen.path)
          else CommitEdit(chosen.path, EntryTitle(original), edited)
  }

  /** Asking for `n + 1` entries and taking the last one opens the match
      `n` places back when there are that many, and the oldest match
      otherwise; with every logged file on disk and unencrypted the listing
      cannot fail. */
  lemma EditTargetIsNthMatch(files: seq<string>, fs: map<string, Lines>, withTags: Option<string>, n: nat)
    requires forall f :: f in files ==> f in fs && !EndsWith(f, EncryptedSuffix)
    requires Filter(files, fs, withTags, None) != []
    ensures var all := Filter(files, fs, withTags, None);
            var listing := Listing(files, fs, withTags, None, Limit(EditLimit(n)));
            && listing.Success? && listing.value != []
            && listing.value[|listing.value| - 1] == all[if n < |all| then n else |all| - 1]
  {
    assert Limit(EditLimit(n)) == Some(n + 1);
    ListingIsTakeOfFilter(files, fs, withTags, None, Some(n + 1));
  }

  /** With a changed, non-empty edit, `edit_entry` commits the match `n`
      places back (or the oldest one), titled after its original text. */
  lemma EditCommitsNthMatch(files: seq<string>, fs: map<string, Lines>, withTags: Option<string>, n: nat,
                            flag: PyValue, createIfMissing: bool, edited: string)
    requires forall f :: f in files ==> f in fs && !EndsWith(f, EncryptedSuffix)
    requires Filter(files, fs, withTags, None) != []
    requires StrToBool(flag).Success?
    requires var all := Filter(files, fs, withTags, None);
             edited != "" && edited != OriginalText(all[if n < |all| then n else |all| - 1])
    ensures var all := Filter(files, fs, withTags, None);
            var chosen := all[if n < |all| then n else |all| - 1];
            EditDecision(flag, createIfMissing, Listing(files, fs, withTags, None, Limit(EditLimit(n))), edited)
              == CommitEdit(chosen.path, EntryTitle(OriginalText(chosen)), edited)
  {
    EditTargetIsNthMatch(files, fs, withTags, n);
  }

  // ---------------------------------------------------------- list_entries

  /** `int(max_entries or '1000')`: no cap, or a cap of 0, becomes 1000. */
  function ListCap(maxEntries: Option<int>): (cap: int)
    ensures cap != 0
    ensures maxEntries.None? || maxEntries.value == 0 ==> cap == 1000
    ensures maxEntries.Some? && maxEntries.value != 0 ==> cap == maxEntries.value
  {
    if maxEntries.None? || maxEntries.value == 0 then 1000 else maxEntries.value
  }

  /** Left to itself, `list_entries` shows at most a thousand entries. */
  lemma DefaultListingHoldsAThousand(files: seq<string>, fs: map<string, Lines>,
                                     withTags: Option<string>, withText: Option<string>)
    requires Listing(files, fs, withTags, withText, Limit(Some(ListCap(None)))).Success?
    ensures |Listing(files, fs, withTags, withText, Limit(Some(ListCap(None)))).value| <= 1000
  {
    SelectBounded(files, fs, withTags, withText, Some(1000));
  }

  /** The label of the `n`th entry shown, counting from the most recent. */
  function OrderLabel(n: nat): (tag: string)
    ensures n == 0 <==> tag == "(most recent)"
  {
    if n == 0 then "(most recent)"
    else
      var tag := "(" + NatToString(n) + " back)";
      assert tag[|tag| - 5] == 'b' != "(most recent)"[8];
      tag
  }

  /** Different positions get different labels. */
  lemma OrderLabelInjective(m: nat, n: nat)
    requires OrderLabel(m) == OrderLabel(n)
    ensures m == n
  {
    if m != 0 && n != 0 {
      var a, b := OrderLabel(m), OrderLabel(n);
      assert a[1..|a| - 6] == NatToString(m);
      assert b[1..|b| - 6] == NatToString(n);
      NatToStringInjective(m, n);
    }
  }

  /** The heading printed above an entry. */
  function Header(path: string, n: nat): string {
    "----- " + path + " " + OrderLabel(n) + " -----"
  }

  /** One line of an entry as printed: stripped and indented by four spaces. */
  function IndentedLine(line: string): (out: string)
  {
    "    " + Strip(line)
  }

  /** An entry's lines as printed. */
  function Indented(lines: Lines): (out: seq<string>)
    ensures |out| == |lines|
    ensures forall j :: 0 <= j < |lines| ==> out[j] == IndentedLine(lines[j])
    decreases |lines|
  {
    if lines == [] then []
    else
      var init := lines[..|lines| - 1];
      assert forall j :: 0 <= j < |init| ==> init[j] == lines[j];
      Indented(init) + [IndentedLine(lines[|lines| - 1])]
  }

  /** What `list_entries` prints for the entry `n` places back: its
      heading, then its lines. */
  function Block(e: Match, n: nat): (out: seq<string>)
    ensures |out| == 1 + |e.lines| && out[0] == Header(e.path, n)
    ensures out[1..] == Indented(e.lines)
  {
    [Header(e.path, n)] + Indented(e.lines)
  }

  /** The blocks of a listing, in the order they are printed. */
  function Blocks(entries: seq<Match>): (bs: seq<seq<string>>)
    ensures |bs| == |entries|
    ensures forall k :: 0 <= k < |entries| ==> bs[k] == Block(entries[k], k)
  {
    seq(|entries|, k requires 0 <= k < |entries| => Block(entries[k], k))
  }

  /** The blocks one after the other. */
  function Concat(bs: seq<seq<string>>): seq<string>
    decreases |bs|
  {
    if bs == [] then [] else Concat(bs[..|bs| - 1]) + bs[|bs| - 1]
  }

  /** What `list_entries` prints for a listing. */
  function Printed(entries: seq<Match>): seq<string> {
    Concat(Blocks(entries))
  }

  /** `Concat` grows block by block. */
  lemma ConcatStep(bs: seq<seq<string>>, n: nat)
    requires n < |bs|
    ensures Concat(bs[..n + 1]) == Concat(bs[..n]) + bs[n]
  {
    assert bs[..n + 1][..n] == bs[..n];
  }

  /** `Indented` grows line by line. */
  lemma IndentedStep(lines: Lines, j: nat)
    requires j < |lines|
    ensures Indented(lines[..j + 1]) == Indented(lines[..j]) + [IndentedLine(lines[j])]
  {
    assert lines[..j + 1][..j] == lines[..j];
  }

  /** The printing loop of `list_entries`, with the counter `n`. */
  method PrintListing(entries: seq<Match>) returns (out: seq<string>)
    ensures out == Printed(entries)
  {
    ghost var bs := Blocks(entries);
    out := [];
    for n := 0 to |entries|
      invariant out == Concat(bs[..n])
    {
      var e := entries[n];
      var block: seq<string> := [];
      for j := 0 to |e.lines|
        invariant block == Indented(e.lines[..j])
      {
        IndentedStep(e.lines, j);
        block := block + [IndentedLine(e.lines[j])];
      }
      assert e.lines[..|e.lines|] == e.lines;
      ConcatStep(bs, n);
      out := out + ([Header(e.path, n)] + block);
    }
    assert bs[..|entries|] == bs;
  }

  /** `list_entries` of the command layer: the store's listing under the
      default cap, printed block by block; an error the store raises ends it. */
  method ListEntriesCommand(book: Daybook, log: seq<string>, maxEntries: Option<int>,
                            withTags: Option<string>, withText: Option<string>)
    returns (r: Result<seq<string>, StoreError>)
    ensures var listing := Listing(book.FilesMatchingDates(log), book.fs, withTags, withText, Limit(Some(ListCap(maxEntries))));
            && (listing.Failure? ==> r == Failure(listing.error))
            && (listing.Success? ==> r == Success(Printed(listing.value)))
  {
    var entries := book.ListEntries(log, Some(ListCap(maxEntries)), withTags, withText);
    if entries.Failure? {
      return Failure(entries.error);
    }
    var out := PrintListing(entries.value);
    return Success(out);
  }

  /** The first line of every block is printed. */
  lemma {:induction false} ConcatShowsEveryBlock(bs: seq<seq<string>>, k: nat)
    requires k < |bs| && bs[k] != []
    ensures bs[k][0] in Concat(bs)
    decreases |bs|
  {
    var last := |bs| - 1;
    if k < last {
      ConcatShowsEveryBlock(bs[..last], k);
      assert bs[..last][k] == bs[k];
    } else {
      assert Concat(bs)[|Concat(bs[..last])|] == bs[k][0];
    }
  }

  /** Every entry's heading is printed, and each carries its own position. */
  lemma HeadersPrinted(entries: seq<Match>, k: nat)
    requires k < |entries|
    ensures Header(entries[k].path, k) in Printed(entries)
  {
    ConcatShowsEveryBlock(Blocks(entries), k);
  }
}
