/**
  `os.path.join` of two parts, as the probe builds its remote file name. The
  exporter never calls `os.path.basename`; it is here so that the round trip of
  `Join` can be stated.
*/
module Paths {

  predicate Absolute(p: string)
  {
    |p| > 0 && p[0] == '/'
  }

  /**
    `posixpath.join(a, b)`: an absolute b replaces a; otherwise b is appended
    to a, with a `/` in between unless a is empty or already ends in one.
  */
  function Join(a: string, b: string): (r: string)
    ensures |b| <= |r| && r[|r| - |b|..] == b
    ensures Absolute(b) ==> r == b
    ensures !Absolute(b) ==> a <= r && |a| + |b| <= |r| && r[|a|..|r| - |b|] in {"", "/"}
    ensures !Absolute(b) ==> (r[|a|..|r| - |b|] == "/" <==> a != [] && a[|a| - 1] != '/')
  {
    if Absolute(b) then b
    else if a == [] || a[|a| - 1] == '/' then
      assert (a + b)[|a|..|a|] == "";
      a + b
    else
      assert (a + "/" + b)[|a|..|a| + 1] == "/";
      a + "/" + b
  }

  /** `posixpath.basename(p)`: everything after the last `/`. */
  function Basename(p: string): string
    decreases |p|
  {
    if p == [] || p[|p| - 1] == '/' then []
    else Basename(p[..|p| - 1]) + [p[|p| - 1]]
  }

  lemma {:induction false} BasenameAfterSlash(d: string, b: string)
    requires '/' !in b
    requires d == [] || d[|d| - 1] == '/'
    ensures Basename(d + b) == b
    decreases |b|
  {
    if b == [] {
      assert d + b == d;
    } else {
      var n := |b| - 1;
      assert (d + b)[..|d + b| - 1] == d + b[..n];
      assert b[n] in b;
      BasenameAfterSlash(d, b[..n]);
      assert b == b[..n] + [b[n]];
    }
  }

  /** A probe file name without `/` is recovered from the joined path. */
  lemma BasenameOfJoin(a: string, b: string)
    requires '/' !in b
    ensures Basename(Join(a, b)) == b
  {
    if b != [] {
      assert b[0] in b;
    }
    if a == [] || a[|a| - 1] == '/' {
      BasenameAfterSlash(a, b);
    } else {
      assert a + "/" + b == (a + "/") + b;
      BasenameAfterSlash(a + "/", b);
    }
  }
}
