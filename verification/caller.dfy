/** `getPackageName` (caller.go:65-77): reduces a qualified Go function name
    such as "github.com/yeqown/log.(*entry).output" to its package path
    "github.com/yeqown/log" by cutting at the last '.' while that '.' comes
    after the last '/'. */
module Caller {
  import opened Text

  /** The first index at or after `i` holding `c`, or `|s|` when none does. */
  function IndexFrom(s: string, c: char, i: nat): (j: nat)
    requires i <= |s|
    ensures i <= j <= |s|
    ensures j < |s| ==> s[j] == c
    ensures forall k | i <= k < j :: s[k] != c
    decreases |s| - i
  {
    if i == |s| || s[i] == c then i else IndexFrom(s, c, i + 1)
  }

  /** The reference: `f` up to the first '.' after its last '/'. */
  function PackagePrefix(f: string): (r: string) {
    f[..IndexFrom(f, '.', LastIndex(f, '/') + 1)]
  }

  /** A result is reduced when it has no '.' after its last '/'. */
  predicate Reduced(r: string) {
    LastIndex(r, '.') <= LastIndex(r, '/')
  }

  /** The loop of `getPackageName`: while the last '.' follows the last '/',
      drop everything from that '.' on. */
  method GetPackageName(f: string) returns (r: string)
    ensures r == PackagePrefix(f)
    ensures |r| <= |f| && r == f[..|r|]
    ensures Reduced(r)
    ensures Reduced(f) ==> r == f
  {
    ghost var s := LastIndex(f, '/');
    ghost var j := IndexFrom(f, '.', s + 1);
    r := f;
    while LastIndex(r, '.') > LastIndex(r, '/')
      invariant j <= |r| <= |f| && r == f[..|r|]
      invariant LastIndex(r, '/') == s
      decreases |r|
    {
      var k := LastIndex(r, '.');
      CutStaysPast(f, s, j, |r|);
      r := r[..k];
      PrefixKeepsLastSlash(f, s, j, |r|);
    }
    ReducedPrefixEnds(f, s, j, |r|);
  }

  /** The last '.' of a prefix that reaches past the first '.' after the
      last '/' lies at or after that first '.'. */
  lemma CutStaysPast(f: string, s: int, j: nat, n: nat)
    requires s == LastIndex(f, '/') && j == IndexFrom(f, '.', s + 1)
    requires j <= n <= |f|
    requires LastIndex(f[..n], '.') > s
    ensures j <= LastIndex(f[..n], '.')
  {
    var k := LastIndex(f[..n], '.');
    assert f[..n][k] == f[k];
  }

  /** A reduced prefix that reaches the first '.' after the last '/' ends
      exactly there. */
  lemma ReducedPrefixEnds(f: string, s: int, j: nat, n: nat)
    requires s == LastIndex(f, '/') && j == IndexFrom(f, '.', s + 1)
    requires j <= n <= |f|
    requires LastIndex(f[..n], '/') == s
    requires LastIndex(f[..n], '.') <= s
    ensures n == j
    ensures Reduced(f) ==> n == |f|
  {
    DotAtFirst(f, s, j, n);
    DotAtFirst(f, s, j, |f|);
    assert f[..|f|] == f;
  }

  /** A prefix longer than `j` holds the '.' at `j`. */
  lemma DotAtFirst(f: string, s: int, j: nat, n: nat)
    requires s == LastIndex(f, '/') && j == IndexFrom(f, '.', s + 1)
    requires j <= n <= |f|
    ensures j < n ==> j <= LastIndex(f[..n], '.')
  {
    if j < n {
      assert f[..n][j] == f[j];
    }
  }

  /** Cutting `f` anywhere at or after the first '.' past its last '/'
      leaves that '/' the last one. */
  lemma PrefixKeepsLastSlash(f: string, s: int, j: nat, n: nat)
    requires s == LastIndex(f, '/') && j == IndexFrom(f, '.', s + 1)
    requires j <= n <= |f|
    ensures LastIndex(f[..n], '/') == s
  {
    LastIndexIs(f[..n], '/', s);
  }

  /** The result is a prefix of the name, has no '.' after its last '/',
      and is the name itself when there is none to cut. */
  lemma PackagePrefixProperties(f: string)
    ensures var r := PackagePrefix(f);
      |r| <= |f| && r == f[..|r|] && Reduced(r) && (Reduced(f) ==> r == f)
  {
    var s := LastIndex(f, '/');
    var j := IndexFrom(f, '.', s + 1);
    var r := f[..j];
    PrefixKeepsLastSlash(f, s, j, j);
    forall i | s < i < |r|
      ensures r[i] != '.'
    {
      assert r[i] == f[i];
    }
  }

  /** Reducing a package path again changes nothing. */
  lemma PackagePrefixIdempotent(f: string)
    ensures PackagePrefix(PackagePrefix(f)) == PackagePrefix(f)
  {
    PackagePrefixProperties(f);
    PackagePrefixProperties(PackagePrefix(f));
    var r := PackagePrefix(f);
    var s := LastIndex(r, '/');
    var j := IndexFrom(r, '.', s + 1);
  }
}
