/**
 * POSIX `os.path.dirname` and `os.path.join` (two arguments), used to turn a
 * pytest node path into a file name relative to the coverage data file.
 */
module Paths {

  predicate AllSlashes(h: string) {
    forall k | 0 <= k < |h| :: h[k] == '/'
  }

  /** Index just past the last '/' of p (`p.rfind('/') + 1`), 0 when p has none. */
  function AfterLastSlash(p: string): (i: nat)
    ensures i <= |p|
    ensures i > 0 ==> p[i - 1] == '/'
    ensures forall k | i <= k < |p| :: p[k] != '/'
  {
    if p == [] then 0
    else if p[|p| - 1] == '/' then |p|
    else AfterLastSlash(p[..|p| - 1])
  }

  /** `h.rstrip('/')`. */
  function StripTrailingSlashes(h: string): (r: string)
    ensures |r| <= |h| && r == h[..|r|]
    ensures r == [] || r[|r| - 1] != '/'
    ensures forall k | |r| <= k < |h| :: h[k] == '/'
  {
    if h != [] && h[|h| - 1] == '/' then StripTrailingSlashes(h[..|h| - 1]) else h
  }

  /** `os.path.dirname`: the head before the last '/', without trailing slashes unless it is all slashes. */
  function Dirname(p: string): (r: string)
    ensures |r| <= |p| && r == p[..|r|]
    ensures r == [] <==> forall k | 0 <= k < |p| :: p[k] != '/'
  {
    var head := p[..AfterLastSlash(p)];
    if head != [] && !AllSlashes(head) then StripTrailingSlashes(head) else head
  }

  /** `os.path.join(a, b)`: an absolute b replaces a; otherwise one '/' separates them. */
  function Join(a: string, b: string): (r: string)
    ensures |b| <= |r| && r[|r| - |b|..] == b
    ensures (b == [] || b[0] != '/') ==> |a| <= |r| && r[..|a|] == a
  {
    if |b| > 0 && b[0] == '/' then b
    else if a == [] || a[|a| - 1] == '/' then a + b
    else a + "/" + b
  }

  /** A directory without trailing slash, or the root. */
  predicate IsDirectory(d: string) {
    d == "/" || (d != [] && d[|d| - 1] != '/')
  }

  /** Joining a directory and a plain name, then taking the dirname, gives the directory back. */
  lemma DirnameOfJoin(d: string, name: string)
    requires IsDirectory(d)
    requires name != [] && forall k | 0 <= k < |name| :: name[k] != '/'
    ensures Dirname(Join(d, name)) == d
  {
    var p := Join(d, name);
    if d == "/" {
      assert p == "/" + name;
      assert AfterLastSlash(p) == 1 by {
        assert forall k | 1 <= k < |p| :: p[k] == name[k - 1];
        assert p[0] == '/';
      }
      assert p[..1] == "/";
      assert AllSlashes("/");
    } else {
      assert p == d + "/" + name;
      var n := |d| + 1;
      assert AfterLastSlash(p) == n by {
        assert forall k | n <= k < |p| :: p[k] == name[k - n];
        assert p[n - 1] == '/';
      }
      var head := p[..n];
      assert head == d + "/";
      assert !AllSlashes(head) by { assert head[|d| - 1] == d[|d| - 1]; }
      var r := StripTrailingSlashes(head);
      assert |r| == |d|;
      assert r == head[..|d|] == d;
    }
  }
}
