/** The parts of Python's `str` that the journal code leans on: `isspace`
    (which is also what the regular-expression classes `\s`/`\S` test on
    text), `sep.join`, `split`, the substring operator `in`, `strip`,
    `endswith`, and decimal rendering of naturals. */
module Text {

  /** Python's `str.isspace` for one character. */
  predicate IsSpace(c: char) {
    || c == ' ' || c == '\t' || c == '\n' || c == '\r'
    || c == '\U{0B}' || c == '\U{0C}'
    || ('\U{1C}' <= c <= '\U{1F}')
    || c == '\U{85}' || c == '\U{A0}' || c == '\U{1680}'
    || ('\U{2000}' <= c <= '\U{200A}')
    || c == '\U{2028}' || c == '\U{2029}' || c == '\U{202F}' || c == '\U{205F}'
    || c == '\U{3000}'
  }

  /** A line made only of whitespace (or empty). */
  predicate IsBlank(s: string) {
    forall k :: 0 <= k < |s| ==> IsSpace(s[k])
  }

  // ------------------------------------------------------- concatenation

  /** Concatenation regrouped to the right. */
  lemma Regroup(x: string, y: string, z: string)
    ensures x + y + z == x + (y + z)
  {
  }

  /** Dropping the first part of a concatenation leaves the second. */
  lemma DropPrefix(x: string, y: string)
    ensures (x + y)[|x|..] == y
  {
  }

  /** Taking the length of the first part of a concatenation gives it back. */
  lemma TakePrefix(x: string, y: string)
    ensures (x + y)[..|x|] == x
  {
  }

  // ---------------------------------------------------------------- join

  /** `sep.join(xs)`. */
  function Join(xs: seq<string>, sep: string): string
    decreases |xs|
  {
    if |xs| == 0 then ""
    else if |xs| == 1 then xs[0]
    else xs[0] + sep + Join(xs[1..], sep)
  }

  /** Joining splits at every boundary: the first `k + 1` pieces, the
      separator, then the rest. */
  lemma {:induction false} JoinAt(xs: seq<string>, sep: string, k: nat)
    requires k + 1 < |xs|
    ensures Join(xs, sep) == Join(xs[..k + 1], sep) + sep + Join(xs[k + 1..], sep)
    decreases k
  {
    if k == 0 {
      assert xs[..1] == [xs[0]];
    } else {
      var head := xs[..k + 1];
      JoinAt(xs[1..], sep, k - 1);
      assert xs[1..][..k] == head[1..];
      assert xs[1..][k..] == xs[k + 1..];
      assert Join(head, sep) == xs[0] + sep + Join(head[1..], sep);
    }
  }

  /** A non-empty join ends with its last piece. */
  lemma {:induction false} JoinEndsWithLast(xs: seq<string>, sep: string)
    requires |xs| > 0
    ensures EndsWith(Join(xs, sep), xs[|xs| - 1])
    decreases |xs|
  {
    if |xs| > 1 {
      JoinEndsWithLast(xs[1..], sep);
      var j := Join(xs, sep);
      var rest := Join(xs[1..], sep);
      assert j == xs[0] + sep + rest;
      assert j[|j| - |rest|..] == rest;
    }
  }

  // --------------------------------------------------------------- split

  /** `s.split(c)` for a one-character separator: the pieces between the
      separators, always one more piece than there are separators. */
  function Split(s: string, c: char): (pieces: seq<string>)
    ensures |pieces| >= 1
    ensures forall k :: 0 <= k < |pieces| ==> c !in pieces[k]
    decreases |s|
  {
    if |s| == 0 then [""]
    else if s[0] == c then [""] + Split(s[1..], c)
    else
      var rest := Split(s[1..], c);
      [[s[0]] + rest[0]] + rest[1..]
  }

  /** Splitting and joining back with the same separator gives the input. */
  lemma {:induction false} JoinSplit(s: string, c: char)
    ensures Join(Split(s, c), [c]) == s
    decreases |s|
  {
    if |s| == 0 {
    } else if s[0] == c {
      JoinSplit(s[1..], c);
      var rest := Split(s[1..], c);
      assert Split(s, c) == [""] + rest;
      assert ([""] + rest)[1..] == rest;
      assert s == [c] + s[1..];
    } else {
      JoinSplit(s[1..], c);
      var rest := Split(s[1..], c);
      var r := [[s[0]] + rest[0]] + rest[1..];
      assert Split(s, c) == r;
      if |rest| == 1 {
        assert r == [[s[0]] + rest[0]];
      } else {
        assert r[1..] == rest[1..];
        assert Join(rest, [c]) == rest[0] + [c] + Join(rest[1..], [c]);
      }
      assert s == [s[0]] + s[1..];
    }
  }

  /** A text without the separator is a single piece. */
  lemma {:induction false} SplitWithoutSeparator(s: string, c: char)
    requires c !in s
    ensures Split(s, c) == [s]
    decreases |s|
  {
    if |s| > 0 {
      SplitWithoutSeparator(s[1..], c);
      assert s == [s[0]] + s[1..];
    }
  }

  /** The first separator ends the first piece. */
  lemma {:induction false} SplitAtFirst(a: string, c: char, b: string)
    requires c !in a
    ensures Split(a + [c] + b, c) == [a] + Split(b, c)
    decreases |a|
  {
    var s := a + [c] + b;
    if |a| == 0 {
      assert s == [c] + b;
      assert s[1..] == b;
    } else {
      SplitAtFirst(a[1..], c, b);
      assert s[1..] == a[1..] + [c] + b;
      assert [a[0]] + a[1..] == a;
    }
  }

  /** A trailing separator adds one empty piece at the end. */
  lemma {:induction false} SplitTrailingSeparator(s: string, c: char)
    ensures Split(s + [c], c) == Split(s, c) + [""]
    decreases |s|
  {
    if |s| == 0 {
      assert [c][1..] == "";
    } else {
      SplitTrailingSeparator(s[1..], c);
      assert (s + [c])[1..] == s[1..] + [c];
    }
  }

  // ----------------------------------------------------------- substring

  /** `needle` occurs in `hay` starting at position `i`. */
  predicate OccursAt(needle: string, hay: string, i: int) {
    0 <= i && i + |needle| <= |hay| && hay[i..i + |needle|] == needle
  }

  /** `needle in hay` for strings, spelled out as a quantifier. */
  ghost predicate IsSubstring(needle: string, hay: string) {
    exists i :: OccursAt(needle, hay, i)
  }

  /** `needle in hay`, computed by trying every start position in turn. */
  function Contains(hay: string, needle: string): bool
    decreases |hay|
  {
    if |needle| > |hay| then false
    else if hay[..|needle|] == needle then true
    else Contains(hay[1..], needle)
  }

  lemma {:induction false} ContainsIsSubstring(hay: string, needle: string)
    ensures Contains(hay, needle) <==> IsSubstring(needle, hay)
    decreases |hay|
  {
    var n := |needle|;
    if n > |hay| {
    } else if hay[..n] == needle {
      assert OccursAt(needle, hay, 0);
    } else {
      ContainsIsSubstring(hay[1..], needle);
      if Contains(hay[1..], needle) {
        var j :| OccursAt(needle, hay[1..], j);
        OccursAfterFirst(needle, hay, j + 1);
      }
      if IsSubstring(needle, hay) {
        var i :| OccursAt(needle, hay, i);
        assert i != 0;
        OccursAfterFirst(needle, hay, i);
      }
    }
  }

  /** Past the first character, an occurrence in `hay` is one in `hay[1..]`,
      one place earlier, and the other way round. */
  lemma OccursAfterFirst(needle: string, hay: string, i: int)
    requires 0 < i && |hay| > 0
    ensures OccursAt(needle, hay, i) <==> OccursAt(needle, hay[1..], i - 1)
  {
    if i + |needle| <= |hay| {
      assert hay[1..][i - 1..i - 1 + |needle|] == hay[i..i + |needle|];
    }
  }

  /** The empty string is found in every text. */
  lemma EmptyIsSubstring(hay: string)
    ensures IsSubstring("", hay)
  {
    assert OccursAt("", hay, 0);
  }

  // --------------------------------------------------------------- strip

  function StripLeft(s: string): (r: string)
    ensures |r| <= |s| && r == s[|s| - |r|..]
    ensures r == "" || !IsSpace(r[0])
    ensures forall k :: 0 <= k < |s| - |r| ==> IsSpace(s[k])
    decreases |s|
  {
    if |s| > 0 && IsSpace(s[0]) then StripLeft(s[1..]) else s
  }

  function StripRight(s: string): (r: string)
    ensures |r| <= |s| && r == s[..|r|]
    ensures r == "" || !IsSpace(r[|r| - 1])
    ensures forall k :: |r| <= k < |s| ==> IsSpace(s[k])
    decreases |s|
  {
    if |s| > 0 && IsSpace(s[|s| - 1]) then StripRight(s[..|s| - 1]) else s
  }

  /** `s.strip()`: the text between the leading and the trailing whitespace. */
  function Strip(s: string): (r: string)
    ensures r == "" || (!IsSpace(r[0]) && !IsSpace(r[|r| - 1]))
    ensures IsBlank(s) <==> r == ""
  {
    StripRight(StripLeft(s))
  }

  // ------------------------------------------------------------ endswith

  /** `s.endswith(suffix)`. */
  predicate EndsWith(s: string, suffix: string) {
    |suffix| <= |s| && s[|s| - |suffix|..] == suffix
  }

  /** A text ending in `a + b` ends in `b`. */
  lemma EndsWithPart(s: string, a: string, b: string)
    requires |a + b| <= |s| && s[|s| - |a + b|..] == a + b
    ensures EndsWith(s, b)
  {
    assert s[|s| - |b|..] == (a + b)[|a|..];
  }

  // ------------------------------------------------------------- decimal

  predicate IsDigit(c: char) {
    '0' <= c <= '9'
  }

  function DigitChar(d: nat): (c: char)
    requires d < 10
    ensures IsDigit(c)
  {
    (48 + d) as char
  }

  function DigitValue(c: char): (d: nat)
    requires IsDigit(c)
    ensures d < 10
  {
    (c as int - 48) as nat
  }

  /** `str(n)` for a natural number: its decimal digits, without leading zeros. */
  function NatToString(n: nat): (s: string)
    ensures |s| >= 1
    ensures forall k :: 0 <= k < |s| ==> IsDigit(s[k])
    decreases n
  {
    if n < 10 then [DigitChar(n)] else NatToString(n / 10) + [DigitChar(n % 10)]
  }

  /** `int(s)` for a string of decimal digits. */
  function DigitsValue(s: string): nat
    requires forall k :: 0 <= k < |s| ==> IsDigit(s[k])
    decreases |s|
  {
    if |s| == 0 then 0 else DigitsValue(s[..|s| - 1]) * 10 + DigitValue(s[|s| - 1])
  }

  /** Reading the rendered digits back gives the number. */
  lemma {:induction false} NatToStringRoundTrip(n: nat)
    ensures DigitsValue(NatToString(n)) == n
    decreases n
  {
    var s := NatToString(n);
    if n >= 10 {
      NatToStringRoundTrip(n / 10);
      assert s[..|s| - 1] == NatToString(n / 10);
    }
  }

  /** Two numbers with the same rendering are the same number. */
  lemma NatToStringInjective(m: nat, n: nat)
    requires NatToString(m) == NatToString(n)
    ensures m == n
  {
    NatToStringRoundTrip(m);
    NatToStringRoundTrip(n);
  }

  /** Four-digit numbers render as exactly four characters. */
  lemma NatToStringFourDigits(n: nat)
    requires 1000 <= n <= 9999
    ensures |NatToString(n)| == 4
  {
    var a, b, c := n / 10, n / 10 / 10, n / 10 / 10 / 10;
    assert 100 <= a <= 999 && 10 <= b <= 99 && 1 <= c <= 9;
    assert |NatToString(c)| == 1;
    assert |NatToString(b)| == |NatToString(c)| + 1;
    assert |NatToString(a)| == |NatToString(b)| + 1;
    assert |NatToString(n)| == |NatToString(a)| + 1;
  }
}
