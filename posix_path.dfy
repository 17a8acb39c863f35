/**
 * The `os.path` functions the loader uses to name and move its files, as
 * POSIX `posixpath` defines them: `dirname`, `basename` and `join` of two
 * components.
 */
module PosixPath {
  import opened Strings

  /** The position just after the last '/', or 0 when there is none (`p.rfind('/') + 1`). */
  function SplitIndex(p: string): (i: nat)
    ensures i <= |p|
    ensures i > 0 ==> p[i - 1] == '/'
    ensures forall k :: i <= k < |p| ==> p[k] != '/'
  {
    if p == [] then 0
    else if p[|p| - 1] == '/' then |p|
    else SplitIndex(p[..|p| - 1])
  }

  predicate AllSlashes(s: string) {
    forall k :: 0 <= k < |s| ==> s[k] == '/'
  }

  /** `s.rstrip('/')`. */
  function RStripSlashes(s: string): (r: string)
    ensures |r| <= |s| && r == s[..|r|]
    ensures r == [] || r[|r| - 1] != '/'
  {
    if s != [] && s[|s| - 1] == '/' then RStripSlashes(s[..|s| - 1]) else s
  }

  /** `os.path.dirname(p)`: the head up to the last '/', without trailing slashes unless it is all slashes. */
  function Dirname(p: string): string {
    var head := p[..SplitIndex(p)];
    if head != [] && !AllSlashes(head) then RStripSlashes(head) else head
  }

  /** `os.path.basename(p)`: what follows the last '/'. */
  function Basename(p: string): (b: string)
    ensures !Contains(b, '/')
  {
    p[SplitIndex(p)..]
  }

  /** `os.path.join(a, b)`. */
  function Join(a: string, b: string): string {
    if StartsWith(b, "/") then b
    else if a == [] || EndsWith(a, "/") then a + b
    else a + "/" + b
  }

  /** The path `process_file` moves a file to: `join(join(dirname(p), "processed"), basename(p))`. */
  function ProcessedPath(filepath: string): string {
    Join(Join(Dirname(filepath), "processed"), Basename(filepath))
  }

  /** Appending a component without '/' after a '/' (or to nothing) moves the split point to the join. */
  lemma {:induction false} SplitAfterSlash(a: string, b: string)
    requires (a == [] || a[|a| - 1] == '/') && !Contains(b, '/')
    ensures SplitIndex(a + b) == |a|
  {
    if b != [] {
      var n := |b| - 1;
      assert (a + b)[|a + b| - 1] == b[n];
      assert (a + b)[..|a + b| - 1] == a + b[..n];
      assert !Contains(b[..n], '/') by {
        forall k | 0 <= k < n ensures b[..n][k] != '/' {
          assert b[..n][k] == b[k];
        }
      }
      SplitAfterSlash(a, b[..n]);
    } else {
      assert a + b == a;
    }
  }

  /** Joining a plain file name onto any directory gives back that name as the base name. */
  lemma BasenameOfJoin(a: string, b: string)
    requires !Contains(b, '/')
    ensures Basename(Join(a, b)) == b
  {
    if b != [] {
      assert b[0] != '/';
    }
    if a == [] {
      SplitAfterSlash([], b);
      assert [] + b == b;
    } else if EndsWith(a, "/") {
      assert a[|a| - 1] == '/';
      SplitAfterSlash(a, b);
    } else {
      assert (a + "/")[|a|] == '/';
      SplitAfterSlash(a + "/", b);
    }
  }

  /** A moved file keeps its name. */
  lemma ProcessedKeepsName(filepath: string)
    ensures Basename(ProcessedPath(filepath)) == Basename(filepath)
  {
    BasenameOfJoin(Join(Dirname(filepath), "processed"), Basename(filepath));
  }

  /** The directory of a file joined onto a directory not ending in '/' is that directory. */
  lemma DirnameOfJoin(d: string, n: string)
    requires d != [] && d[|d| - 1] != '/' && !Contains(n, '/')
    ensures Join(d, n) == d + "/" + n
    ensures Dirname(Join(d, n)) == d
  {
    if n != [] {
      assert n[0] != '/';
    }
    assert !EndsWith(d, "/");
    var p := d + "/" + n;
    SplitAfterSlash(d + "/", n);
    assert p[..|d| + 1] == d + "/";
    var head := d + "/";
    assert head[|d| - 1] != '/';
    assert !AllSlashes(head);
    assert head[..|d|] == d;
    assert RStripSlashes(head) == RStripSlashes(d);
  }

  /** Joining a name that does not start with '/' onto a directory not ending in '/' inserts one '/'. */
  lemma JoinPlain(d: string, n: string)
    requires d != [] && d[|d| - 1] != '/' && !Contains(n, '/')
    ensures Join(d, n) == d + "/" + n
  {
    if n != [] {
      assert n[0] != '/';
    }
    assert !EndsWith(d, "/");
  }

  /**
   * A file `n` of a directory `d` (not ending in '/') is moved into the
   * sub-directory `processed` of `d`.
   */
  lemma ProcessedPathOf(d: string, n: string)
    requires d != [] && d[|d| - 1] != '/' && !Contains(n, '/')
    ensures ProcessedPath(Join(d, n)) == d + "/processed/" + n
  {
    DirnameOfJoin(d, n);
    BasenameOfJoin(d, n);
    JoinPlain(d, "processed");
    var dir := d + "/processed";
    assert dir[|dir| - 1] == 'd';
    JoinPlain(dir, n);
    assert dir + "/" + n == d + "/processed/" + n;
  }
}
