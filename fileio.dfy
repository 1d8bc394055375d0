/** fileio.py: the text the editor is opened on. Running the editor, the
    temporary file and the YAML configuration files are input/output and
    are not part of this model. */
module FileIo {
  import opened Wrappers
  import opened Text
  import opened Tags
  import opened Utils

  /** `'@@' + t.strip()` for every comma-separated piece of `tags`. */
  function TagTokens(tags: string): (ts: seq<string>)
    ensures |ts| == |Split(tags, ',')|
    ensures forall k :: 0 <= k < |ts| ==> ts[k] == "@@" + Strip(Split(tags, ',')[k])
  {
    var pieces := Split(tags, ',');
    seq(|pieces|, k requires 0 <= k < |pieces| => "@@" + Strip(pieces[k]))
  }

  /** The rendered tag line: the tokens separated by single spaces. */
  function RenderTags(tags: string): (line: string)
    ensures |line| >= 2 && line[0] == '@' && line[1] == '@'
  {
    var ts := TagTokens(tags);
    assert ts[0] == "@@" + Strip(Split(tags, ',')[0]);
    JoinStartsWithFirst(ts, " ");
    Join(ts, " ")
  }

  /** `editor_create_entry`'s initial message: earlier content verbatim;
      otherwise the title, a blank line and the rendered tags, either of
      them alone, or nothing. */
  function Seed(previous: string, title: Option<string>, tags: string): (seed: string)
    ensures previous != "" ==> seed == previous
    ensures previous == "" ==> (seed == "" <==> !IsSet(title) && tags == "")
    ensures previous == "" && IsSet(title) ==> |title.value| <= |seed| && seed[..|title.value|] == title.value
    ensures previous == "" && tags != "" ==> EndsWith(seed, RenderTags(tags))
  {
    if previous != "" then previous
    else
      var rendered := if tags != "" then RenderTags(tags) else tags;
      if !(IsSet(title) || rendered != "") then ""
      else if IsSet(title) && rendered != "" then title.value + "\n\n" + rendered
      else if IsSet(title) then title.value
      else rendered
  }

  /** A joined sequence begins with its first element. */
  lemma JoinStartsWithFirst(xs: seq<string>, sep: string)
    requires |xs| > 0
    ensures |xs[0]| <= |Join(xs, sep)| && Join(xs, sep)[..|xs[0]|] == xs[0]
  {
    if |xs| > 1 {
      assert Join(xs, sep) == xs[0] + (sep + Join(xs[1..], sep));
    }
  }

  /** A whitespace-free token that is one of the joined elements is found
      by the scanner in the space-joined text, whatever the other elements
      are: the separating space keeps every token inside its own element. */
  lemma {:induction false} TokenInSpaceJoin(xs: seq<string>, j: nat, q: string)
    requires j < |xs| && xs[j] == "@@" + q
    requires q != "" && forall k :: 0 <= k < |q| ==> !IsSpace(q[k])
    ensures "@@" + q in FindTags(Join(xs, " "))
    decreases |xs|
  {
    if |xs| == 1 {
      TokenThen(q, "");
      assert "@@" + q + "" == "@@" + q;
    } else {
      var a := xs[0] + " ";
      var b := Join(xs[1..], " ");
      assert Join(xs, " ") == a + b;
      FindTagsAppend(a, b);
      if j == 0 {
        TokenThen(q, " ");
        assert a == "@@" + q + " ";
        assert FindTags(a)[0] == "@@" + q;
      } else {
        TokenInSpaceJoin(xs[1..], j - 1, q);
        assert "@@" + q in FindTags(b);
      }
    }
  }

  /** A piece of `tags` that is one word once stripped is scanned back out
      of the rendered tag line. */
  lemma RenderedTagFound(tags: string, k: nat)
    requires k < |Split(tags, ',')|
    requires var p := Strip(Split(tags, ',')[k]);
             p != "" && forall i :: 0 <= i < |p| ==> !IsSpace(p[i])
    ensures "@@" + Strip(Split(tags, ',')[k]) in FindTags(RenderTags(tags))
  {
    TokenInSpaceJoin(TagTokens(tags), k, Strip(Split(tags, ',')[k]));
  }

  /** Every tag piece that is a single word once stripped comes back out of
      the scanner, with its `@@`, from the text a new entry starts with. */
  lemma SeedTagsRecovered(title: Option<string>, tags: string, k: nat)
    requires k < |Split(tags, ',')|
    requires var p := Strip(Split(tags, ',')[k]);
             p != "" && forall i :: 0 <= i < |p| ==> !IsSpace(p[i])
    ensures "@@" + Strip(Split(tags, ',')[k]) in FindTags(Seed("", title, tags))
  {
    var rendered := RenderTags(tags);
    RenderedTagFound(tags, k);
    if IsSet(title) {
      var a := title.value + "\n\n";
      assert Seed("", title, tags) == a + rendered;
      FindTagsAppend(a, rendered);
    } else {
      assert Seed("", title, tags) == rendered;
    }
  }
}
