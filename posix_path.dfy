/**
 * The two POSIX path operations the scheduler relies on: `os.path.basename`
 * (the run ID of a run directory) and `os.path.join` (the marker, output and
 * work-directory paths). Paths are plain strings with '/' as the separator.
 */
module PosixPath {

  const Sep: char := '/'

  /** A path component is absolute when it starts with the separator. */
  predicate IsAbsolute(p: string) {
    |p| > 0 && p[0] == Sep
  }

  /** Index of the last occurrence of `c` in `s`, or -1 (Python's `str.rfind`). */
  function RFind(s: string, c: char): (i: int)
    ensures -1 <= i < |s|
    ensures i == -1 <==> c !in s
    ensures 0 <= i ==> s[i] == c
    ensures forall k :: i < k < |s| ==> s[k] != c
  {
    if s == [] then -1
    else if s[|s| - 1] == c then |s| - 1
    else RFind(s[..|s| - 1], c)
  }

  /**
   * `os.path.basename`: everything after the last separator. The result is the
   * longest suffix of `p` free of separators, so it is empty when `p` ends in '/'.
   */
  function Basename(p: string): (name: string)
    ensures |name| <= |p| && name == p[|p| - |name|..]
    ensures Sep !in name
    ensures |name| < |p| ==> p[|p| - |name| - 1] == Sep
  {
    p[RFind(p, Sep) + 1..]
  }

  /**
   * `os.path.join(a, b)` for two components: an absolute `b` replaces `a`;
   * otherwise `b` is appended, with a separator inserted only when `a` is
   * non-empty and does not already end in one.
   */
  function Join(a: string, b: string): (r: string)
    ensures IsAbsolute(b) ==> r == b
    ensures !IsAbsolute(b) ==> |a| + |b| <= |r| && a <= r && r[|r| - |b|..] == b
    ensures !IsAbsolute(b) ==>
      if a != [] && a[|a| - 1] != Sep then |r| == |a| + |b| + 1 && r[|a|] == Sep
      else |r| == |a| + |b|
  {
    if IsAbsolute(b) then b
    else if a == [] || a[|a| - 1] == Sep then a + b
    else a + [Sep] + b
  }

  /**
   * A relative component joined onto a fixed directory determines the result:
   * different components give different paths.
   */
  lemma JoinInjective(a: string, b1: string, b2: string)
    requires !IsAbsolute(b1) && !IsAbsolute(b2)
    ensures Join(a, b1) == Join(a, b2) <==> b1 == b2
  {
    if Join(a, b1) == Join(a, b2) {
      var n := |Join(a, b1)| - |b1|;
      assert n == |Join(a, b2)| - |b2|;
      assert b1 == Join(a, b1)[n..] == Join(a, b2)[n..] == b2;
    }
  }

  /** The last component of a joined path is the component joined on. */
  lemma BasenameOfJoin(a: string, b: string)
    requires Sep !in b
    ensures Basename(Join(a, b)) == b
  {
    var r := Join(a, b);
    var i := RFind(r, Sep);
    if a != [] && a[|a| - 1] != Sep {
      assert r[|a|] == Sep;
    } else if a != [] {
      assert r[|a| - 1] == Sep;
    }
    assert r[|r| - |b|..] == b;
  }
}
