/** The inline tag scanner of daybook/__init__.py: `re.findall(r'@@\S+', text)`.
    The scan goes left to right; at each position it either takes the
    longest run `@@` + one or more non-whitespace characters and resumes
    after it, or moves on by one character. */
module Tags {
  import opened Text

  /** A token the scanner can produce: `@@` and at least one more
      character, none of them whitespace. */
  predicate IsTag(t: string) {
    |t| >= 3 && t[0] == '@' && t[1] == '@' && forall k :: 0 <= k < |t| ==> !IsSpace(t[k])
  }

  /** The length of the whitespace-free run at the start of `s` (the greedy `\S+`). */
  function NonSpaceRun(s: string): (n: nat)
    ensures n <= |s|
    ensures forall k :: 0 <= k < n ==> !IsSpace(s[k])
    ensures n < |s| ==> IsSpace(s[n])
    decreases |s|
  {
    if |s| == 0 || IsSpace(s[0]) then 0 else 1 + NonSpaceRun(s[1..])
  }

  /** True when a token starts at the very beginning of `s`. */
  predicate TagStartsHere(s: string) {
    |s| >= 3 && s[0] == '@' && s[1] == '@' && !IsSpace(s[2])
  }

  /** Where the token that starts at the beginning of `s` ends. */
  function TokenEnd(s: string): (n: nat)
    requires TagStartsHere(s)
    ensures 3 <= n <= |s|
    ensures n < |s| ==> IsSpace(s[n])
  {
    var run := NonSpaceRun(s[2..]);
    assert run < |s[2..]| ==> s[2..][run] == s[2 + run];
    2 + run
  }

  /** `_find_tags_in_entry`: every token, in order of appearance, with its `@@`. */
  function FindTags(s: string): seq<string>
    decreases |s|
  {
    if |s| < 3 then []
    else if TagStartsHere(s) then [s[..TokenEnd(s)]] + FindTags(s[TokenEnd(s)..])
    else FindTags(s[1..])
  }

  /** Every token found is `@@` and at least one more character, none of
      them whitespace. */
  lemma {:induction false} FindTagsWellFormed(s: string)
    ensures forall k :: 0 <= k < |FindTags(s)| ==> IsTag(FindTags(s)[k])
    decreases |s|
  {
    if |s| >= 3 {
      if TagStartsHere(s) {
        var n := TokenEnd(s);
        FindTagsWellFormed(s[n..]);
        var t := s[..n];
        forall k | 0 <= k < |t|
          ensures !IsSpace(t[k])
        {
          if k >= 2 {
            assert t[k] == s[2..][k - 2];
          }
        }
      } else {
        FindTagsWellFormed(s[1..]);
      }
    }
  }

  /** One step of the scan where no token starts. */
  lemma FindTagsSkip(s: string)
    requires |s| >= 1 && !TagStartsHere(s)
    ensures FindTags(s) == FindTags(s[1..])
  {
  }

  /** One step of the scan where a token starts. */
  lemma FindTagsTake(s: string)
    requires TagStartsHere(s)
    ensures FindTags(s) == [s[..TokenEnd(s)]] + FindTags(s[TokenEnd(s)..])
  {
  }

  /** `t` occurs in `s` at `i` and cannot be extended: the next character is
      whitespace or the text ends there. */
  predicate MaximalAt(t: string, s: string, i: int) {
    OccursAt(t, s, i) && (i + |t| == |s| || IsSpace(s[i + |t|]))
  }

  /** Every token found is taken from the text, and greedily: the text does
      not go on with another non-whitespace character after it. */
  lemma {:induction false} FoundTagsAreMaximal(s: string, k: nat)
    requires k < |FindTags(s)|
    ensures exists i :: MaximalAt(FindTags(s)[k], s, i)
    decreases |s|
  {
    if TagStartsHere(s) {
      var n := TokenEnd(s);
      FindTagsTake(s);
      if k == 0 {
        assert FindTags(s)[k] == s[..n];
        assert OccursAt(s[..n], s, 0);
        assert MaximalAt(s[..n], s, 0);
      } else {
        FoundTagsAreMaximal(s[n..], k - 1);
        assert FindTags(s)[k] == FindTags(s[n..])[k - 1];
        ShiftMaximal(FindTags(s[n..])[k - 1], s, n);
      }
    } else {
      FindTagsSkip(s);
      FoundTagsAreMaximal(s[1..], k);
      ShiftMaximal(FindTags(s[1..])[k], s, 1);
    }
  }

  /** An occurrence in a suffix of `s` is an occurrence in `s`. */
  lemma ShiftMaximal(t: string, s: string, n: nat)
    requires n <= |s|
    requires exists j :: MaximalAt(t, s[n..], j)
    ensures exists i :: MaximalAt(t, s, i)
  {
    var j :| MaximalAt(t, s[n..], j);
    MaximalShift(t, s, n, j);
  }

  /** The occurrence at `j` in `s[n..]` is the occurrence at `n + j` in `s`. */
  lemma MaximalShift(t: string, s: string, n: nat, j: int)
    requires n <= |s| && MaximalAt(t, s[n..], j)
    ensures MaximalAt(t, s, n + j)
  {
    assert s[n + j..n + j + |t|] == s[n..][j..j + |t|];
  }

  // ------------------------------------------------- where the tokens are

  /** Every position moved right by `d`. */
  function Shifted(ps: seq<nat>, d: nat): (qs: seq<nat>)
    ensures |qs| == |ps| && forall k :: 0 <= k < |ps| ==> qs[k] == ps[k] + d
  {
    seq(|ps|, k requires 0 <= k < |ps| => ps[k] + d)
  }

  /** Where in `s` each token of `FindTags(s)` starts, following the same scan. */
  function TagStarts(s: string): (ps: seq<nat>)
    ensures |ps| == |FindTags(s)|
    decreases |s|
  {
    if |s| < 3 then []
    else if TagStartsHere(s) then [0] + Shifted(TagStarts(s[TokenEnd(s)..]), TokenEnd(s))
    else Shifted(TagStarts(s[1..]), 1)
  }

  /** One step of `TagStarts` where a token starts. */
  lemma TagStartsTake(s: string)
    requires TagStartsHere(s)
    ensures TagStarts(s) == [0] + Shifted(TagStarts(s[TokenEnd(s)..]), TokenEnd(s))
  {
  }

  /** One step of `TagStarts` where no token starts. */
  lemma TagStartsSkip(s: string)
    requires |s| >= 1 && !TagStartsHere(s)
    ensures TagStarts(s) == Shifted(TagStarts(s[1..]), 1)
  {
  }

  /** Token `k` is the maximal run found at its start position. */
  lemma {:induction false} SpanMaximalAt(s: string, k: nat)
    requires k < |FindTags(s)|
    ensures MaximalAt(FindTags(s)[k], s, TagStarts(s)[k])
    decreases |s|, 1
  {
    if TagStartsHere(s) {
      MaximalAtToken(s, k);
    } else {
      MaximalPastCharacter(s, k);
    }
  }

  /** `SpanMaximalAt` where a token starts the text. */
  lemma {:induction false} MaximalAtToken(s: string, k: nat)
    requires k < |FindTags(s)| && TagStartsHere(s)
    ensures MaximalAt(FindTags(s)[k], s, TagStarts(s)[k])
    decreases |s|, 0
  {
    var n := TokenEnd(s);
    FindTagsTake(s);
    TagStartsTake(s);
    if k == 0 {
      assert OccursAt(s[..n], s, 0);
    } else {
      SpanMaximalAt(s[n..], k - 1);
      assert FindTags(s)[k] == FindTags(s[n..])[k - 1];
      MaximalShift(FindTags(s)[k], s, n, TagStarts(s[n..])[k - 1]);
    }
  }

  /** `SpanMaximalAt` where no token starts the text. */
  lemma {:induction false} MaximalPastCharacter(s: string, k: nat)
    requires k < |FindTags(s)| && !TagStartsHere(s)
    ensures MaximalAt(FindTags(s)[k], s, TagStarts(s)[k])
    decreases |s|, 0
  {
    FindTagsSkip(s);
    TagStartsSkip(s);
    SpanMaximalAt(s[1..], k);
    MaximalShift(FindTags(s)[k], s, 1, TagStarts(s[1..])[k]);
  }

  /** Token `k` ends before token `k + 1` starts. */
  lemma {:induction false} SpanOrderedAt(s: string, k: nat)
    requires k + 1 < |FindTags(s)|
    ensures TagStarts(s)[k] + |FindTags(s)[k]| <= TagStarts(s)[k + 1]
    decreases |s|
  {
    if TagStartsHere(s) {
      var n := TokenEnd(s);
      FindTagsTake(s);
      TagStartsTake(s);
      if k > 0 {
        SpanOrderedAt(s[n..], k - 1);
        assert FindTags(s)[k] == FindTags(s[n..])[k - 1];
      }
    } else {
      FindTagsSkip(s);
      TagStartsSkip(s);
      SpanOrderedAt(s[1..], k);
    }
  }

  /** A position where a token could start lies inside token `k`. */
  lemma {:induction false} SpanCoverAt(s: string, i: nat) returns (k: nat)
    requires i < |s| && TagStartsHere(s[i..])
    ensures k < |FindTags(s)| && TagStarts(s)[k] <= i < TagStarts(s)[k] + |FindTags(s)[k]|
    decreases |s|, 1
  {
    if TagStartsHere(s) {
      k := CoverAtToken(s, i);
    } else {
      k := CoverPastCharacter(s, i);
    }
  }

  /** `SpanCoverAt` where a token starts the text. */
  lemma {:induction false} CoverAtToken(s: string, i: nat) returns (k: nat)
    requires i < |s| && TagStartsHere(s[i..]) && TagStartsHere(s)
    ensures k < |FindTags(s)| && TagStarts(s)[k] <= i < TagStarts(s)[k] + |FindTags(s)[k]|
    decreases |s|, 0
  {
    FindTagsTake(s);
    TagStartsTake(s);
    if i < TokenEnd(s) {
      k := 0;
    } else {
      var n := TokenEnd(s);
      SuffixOfSuffix(s, n, i);
      var j := SpanCoverAt(s[n..], i - n);
      k := CoverAfterToken(s, i, j);
    }
  }

  /** Inside the text after the first token, position `i - n` lies in
      token `j`; in the whole text that is token `j + 1`. */
  lemma CoverAfterToken(s: string, i: nat, j: nat) returns (k: nat)
    requires TagStartsHere(s) && TokenEnd(s) <= i < |s|
    requires j < |FindTags(s[TokenEnd(s)..])|
    requires TagStarts(s[TokenEnd(s)..])[j] <= i - TokenEnd(s) < TagStarts(s[TokenEnd(s)..])[j] + |FindTags(s[TokenEnd(s)..])[j]|
    ensures k < |FindTags(s)| && TagStarts(s)[k] <= i < TagStarts(s)[k] + |FindTags(s)[k]|
  {
    var n := TokenEnd(s);
    FindTagsTake(s);
    TagStartsTake(s);
    assert FindTags(s)[j + 1] == FindTags(s[n..])[j];
    k := j + 1;
  }

  /** Dropping `n` characters and then `i - n` more drops `i`. */
  lemma SuffixOfSuffix(s: string, n: nat, i: nat)
    requires n <= i <= |s|
    ensures s[i..] == s[n..][i - n..]
  {
  }

  /** `SpanCoverAt` where no token starts the text: the position is past
      its first character. */
  lemma {:induction false} CoverPastCharacter(s: string, i: nat) returns (k: nat)
    requires i < |s| && TagStartsHere(s[i..]) && !TagStartsHere(s)
    ensures k < |FindTags(s)| && TagStarts(s)[k] <= i < TagStarts(s)[k] + |FindTags(s)[k]|
    decreases |s|, 0
  {
    FindTagsSkip(s);
    TagStartsSkip(s);
    assert s[0..] == s;
    SuffixOfSuffix(s, 1, i);
    k := SpanCoverAt(s[1..], i - 1);
  }

  /** `re.findall` scans left to right without overlaps: token `k` is the
      maximal run at its start `TagStarts(s)[k]`, it ends before token
      `k + 1` starts, and every position where a token could start lies
      inside one of the tokens found. */
  lemma FindTagsScan(s: string)
    ensures |TagStarts(s)| == |FindTags(s)|
    ensures forall k :: 0 <= k < |FindTags(s)| ==> MaximalAt(FindTags(s)[k], s, TagStarts(s)[k])
    ensures forall k :: 0 <= k < |FindTags(s)| - 1 ==> TagStarts(s)[k] + |FindTags(s)[k]| <= TagStarts(s)[k + 1]
    ensures forall i :: 0 <= i < |s| && TagStartsHere(s[i..]) ==>
              exists k :: 0 <= k < |FindTags(s)| && TagStarts(s)[k] <= i < TagStarts(s)[k] + |FindTags(s)[k]|
  {
    forall k | 0 <= k < |FindTags(s)|
      ensures MaximalAt(FindTags(s)[k], s, TagStarts(s)[k])
    {
      SpanMaximalAt(s, k);
    }
    forall k | 0 <= k < |FindTags(s)| - 1
      ensures TagStarts(s)[k] + |FindTags(s)[k]| <= TagStarts(s)[k + 1]
    {
      SpanOrderedAt(s, k);
    }
    forall i | 0 <= i < |s| && TagStartsHere(s[i..])
      ensures exists k :: 0 <= k < |FindTags(s)| && TagStarts(s)[k] <= i < TagStarts(s)[k] + |FindTags(s)[k]|
    {
      var k := SpanCoverAt(s, i);
    }
  }

  /** A run that meets whitespace inside `x` is not lengthened by what follows `x`. */
  lemma {:induction false} RunStopsInside(x: string, y: string)
    requires exists k :: 0 <= k < |x| && IsSpace(x[k])
    ensures NonSpaceRun(x + y) == NonSpaceRun(x)
    decreases |x|
  {
    if !IsSpace(x[0]) {
      assert (x + y)[1..] == x[1..] + y;
      RunStopsInside(x[1..], y);
    }
  }

  /** Text that ends in whitespace is scanned on its own: no token crosses
      the boundary, so the tokens of `a + b` are those of `a` then those of `b`. */
  lemma {:induction false} FindTagsAppend(a: string, b: string)
    requires |a| > 0 && IsSpace(a[|a| - 1])
    ensures FindTags(a + b) == FindTags(a) + FindTags(b)
    decreases |a|, 1
  {
    if b == [] {
      assert a + b == a;
    } else if TagStartsHere(a + b) {
      AppendAtToken(a, b);
    } else {
      AppendPastCharacter(a, b);
    }
  }

  /** `FindTagsAppend` where a token starts the text: it lies inside `a`. */
  lemma {:induction false} AppendAtToken(a: string, b: string)
    requires |a| > 0 && IsSpace(a[|a| - 1])
    requires TagStartsHere(a + b)
    ensures FindTags(a + b) == FindTags(a) + FindTags(b)
    decreases |a|, 0
  {
    TokenInsidePrefix(a, b);
    var n := TokenEnd(a);
    var t := a[..n];
    FindTagsTake(a + b);
    FindTagsTake(a);
    assert a[n..][|a[n..]| - 1] == a[|a| - 1];
    FindTagsAppend(a[n..], b);
    calc {
      FindTags(a + b);
      [t] + FindTags(a[n..] + b);
      [t] + (FindTags(a[n..]) + FindTags(b));
      ([t] + FindTags(a[n..])) + FindTags(b);
    }
  }

  /** `FindTagsAppend` where no token starts the text: the scan moves on by one. */
  lemma {:induction false} AppendPastCharacter(a: string, b: string)
    requires |a| > 0 && IsSpace(a[|a| - 1])
    requires !TagStartsHere(a + b)
    ensures FindTags(a + b) == FindTags(a) + FindTags(b)
    decreases |a|, 0
  {
    NoTokenInPrefix(a, b);
    FindTagsSkip(a + b);
    if |a| > 1 {
      FindTagsSkip(a);
      assert a[1..][|a[1..]| - 1] == a[|a| - 1];
      FindTagsAppend(a[1..], b);
    } else {
      assert FindTags(a) == [];
    }
  }

  /** A token that starts `a + b`, where `a` ends in whitespace, lies inside `a`. */
  lemma TokenInsidePrefix(a: string, b: string)
    requires |a| > 0 && IsSpace(a[|a| - 1])
    requires TagStartsHere(a + b)
    ensures TagStartsHere(a)
    ensures TokenEnd(a + b) == TokenEnd(a) < |a|
    ensures (a + b)[..TokenEnd(a)] == a[..TokenEnd(a)]
    ensures (a + b)[TokenEnd(a)..] == a[TokenEnd(a)..] + b
  {
    var s := a + b;
    assert |a| >= 3 && s[..3] == a[..3];
    assert s[2..] == a[2..] + b;
    assert a[2..][|a| - 3] == a[|a| - 1];
    RunStopsInside(a[2..], b);
  }

  /** Where no token starts `a + b`, none starts `a`, and one step of the
      scan leaves `a[1..] + b`. */
  lemma NoTokenInPrefix(a: string, b: string)
    requires |a| > 0 && IsSpace(a[|a| - 1])
    requires !TagStartsHere(a + b)
    ensures !TagStartsHere(a)
    ensures (a + b)[1..] == a[1..] + b
    ensures |a| == 1 ==> FindTags(a[1..]) == [] && (a + b)[1..] == b
  {
    var s := a + b;
    if |a| >= 3 {
      assert a[..3] == s[..3];
    }
  }

  /** A whitespace-free name behind `@@`, followed by whitespace or by
      nothing, is scanned as exactly one token. */
  lemma TokenThen(q: string, b: string)
    requires q != "" && forall k :: 0 <= k < |q| ==> !IsSpace(q[k])
    requires b == "" || IsSpace(b[0])
    ensures FindTags("@@" + q + b) == ["@@" + q] + FindTags(b)
  {
    var at := "@@";
    var s := at + q + b;
    Regroup(at, q, b);
    DropPrefix(at, q + b);
    assert s[2..] == q + b;
    assert s[0] == '@' && s[1] == '@' && s[2] == q[0];
    assert TagStartsHere(s);
    QRun(q, b);
    var n := TokenEnd(s);
    assert n == 2 + |q|;
    FindTagsTake(s);
    TakePrefix(at + q, b);
    DropPrefix(at + q, b);
    assert s[..n] == "@@" + q;
    assert s[n..] == b;
  }

  /** The greedy run over a whitespace-free `q` stops at its end when
      whitespace or nothing follows. */
  lemma {:induction false} QRun(q: string, b: string)
    requires forall k :: 0 <= k < |q| ==> !IsSpace(q[k])
    requires b == "" || IsSpace(b[0])
    ensures NonSpaceRun(q + b) == |q|
    decreases |q|
  {
    if q == "" {
      assert q + b == b;
    } else {
      assert (q + b)[1..] == q[1..] + b;
      QRun(q[1..], b);
    }
  }
}
