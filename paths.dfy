/** The two POSIX path operations the store uses, `os.path.join` and
    `os.path.dirname`, as Python's `posixpath` defines them. */
module Paths {

  /** `os.path.join(a, b)`: an absolute `b` replaces `a`; otherwise one `/`
      is put between them unless `a` is empty or already ends with one. */
  function PathJoin(a: string, b: string): (p: string)
    ensures |b| <= |p| && p[|p| - |b|..] == b
    ensures |b| > 0 && b[0] == '/' ==> p == b
    ensures (b == "" || b[0] != '/') && (a == "" || a[|a| - 1] == '/') ==> p[..|p| - |b|] == a
    ensures (b == "" || b[0] != '/') && a != "" && a[|a| - 1] != '/' ==> p[..|p| - |b|] == a + "/"
  {
    if |b| > 0 && b[0] == '/' then b
    else if a == "" || a[|a| - 1] == '/' then a + b
    else a + "/" + b
  }

  /** `p.rfind('/') + 1`: the length of the part of `p` up to and including
      its last slash, 0 when it has none. */
  function SlashEnd(p: string): (i: nat)
    ensures i <= |p|
    ensures i > 0 ==> p[i - 1] == '/'
    ensures forall k :: i <= k < |p| ==> p[k] != '/'
    decreases |p|
  {
    if p == "" then 0
    else if p[|p| - 1] == '/' then |p|
    else SlashEnd(p[..|p| - 1])
  }

  predicate AllSlashes(s: string) {
    forall k :: 0 <= k < |s| ==> s[k] == '/'
  }

  /** `s.rstrip('/')`. */
  function RStripSlashes(s: string): (r: string)
    ensures |r| <= |s| && r == s[..|r|]
    ensures r == "" || r[|r| - 1] != '/'
    ensures forall k :: |r| <= k < |s| ==> s[k] == '/'
    decreases |s|
  {
    if |s| > 0 && s[|s| - 1] == '/' then RStripSlashes(s[..|s| - 1]) else s
  }

  /** `os.path.dirname(p)`: everything before the last slash, with the
      trailing slashes of that head removed unless the head is only slashes. */
  function Dirname(p: string): string {
    var head := p[..SlashEnd(p)];
    if head != "" && !AllSlashes(head) then RStripSlashes(head) else head
  }

  /** The directory holding `join(base, name)` is `base` again, for a base
      without a trailing slash and a single path component `name`. */
  lemma DirnameOfJoin(base: string, name: string)
    requires base != "" && base[|base| - 1] != '/'
    requires '/' !in name
    ensures Dirname(PathJoin(base, name)) == base
  {
    var p := PathJoin(base, name);
    assert p == base + "/" + name;
    var i := SlashEnd(p);
    assert p[|base|] == '/';
    assert i == |base| + 1;
    var head := p[..i];
    assert head == base + "/";
    assert !AllSlashes(head) by {
      assert head[|base| - 1] != '/';
    }
    var r := RStripSlashes(head);
    assert |r| == |base|;
  }
}
