/** The parts of Python's `posixpath` the mapper relies on. */
module PosixPath {

  /** A path is absolute when it starts with a slash. */
  predicate IsAbs(p: string) {
    |p| > 0 && p[0] == '/'
  }

  /**
   * `os.path.join(a, b)` on POSIX: an absolute `b` replaces `a`; otherwise `b` is
   * appended to `a`, with one slash in between unless `a` is empty or already ends in one.
   */
  function Join(a: string, b: string): (r: string)
    ensures |b| <= |r| && r[|r| - |b|..] == b
    ensures IsAbs(b) ==> r == b
    ensures !IsAbs(b) ==> |a| <= |r| && r[..|a|] == a
    ensures !IsAbs(b) && a != [] ==> |r| > |b| && r[|r| - |b| - 1] == '/'
    ensures !IsAbs(b) && (a == [] || a[|a| - 1] == '/') ==> |r| == |a| + |b|
    ensures !IsAbs(b) && a != [] && a[|a| - 1] != '/' ==> |r| == |a| + 1 + |b|
  {
    if IsAbs(b) then b
    else if a == "" || a[|a| - 1] == '/' then a + b
    else a + "/" + b
  }

  /** `os.path.basename(p)`: the text after the last slash. */
  function Basename(p: string): (r: string)
    ensures '/' !in r
    ensures |r| <= |p| && r == p[|p| - |r|..]
  {
    if |p| == 0 || p[|p| - 1] == '/' then ""
    else Basename(p[..|p| - 1]) + [p[|p| - 1]]
  }

  /** Appending slash-free text extends the basename by that text. */
  lemma {:induction false} BasenameAppend(p: string, q: string)
    requires '/' !in q
    ensures Basename(p + q) == Basename(p) + q
    decreases |q|
  {
    if |q| > 0 {
      var q' := q[..|q| - 1];
      assert q == q' + [q[|q| - 1]];
      assert (p + q)[..|p + q| - 1] == p + q';
      assert (p + q)[|p + q| - 1] == q[|q| - 1] != '/';
      BasenameAppend(p, q');
      calc {
        Basename(p + q);
        Basename(p + q') + [q[|q| - 1]];
        Basename(p) + q' + [q[|q| - 1]];
        { assert Basename(p) + q' + [q[|q| - 1]] == Basename(p) + (q' + [q[|q| - 1]]); }
        Basename(p) + q;
      }
    } else {
      assert p + q == p;
    }
  }

  /** Joining a slash-free name onto any directory gives a path whose basename is that name. */
  lemma BasenameOfJoin(a: string, b: string)
    requires '/' !in b
    ensures Basename(Join(a, b)) == b
  {
    if a == "" {
      BasenameAppend("", b);
    } else if a[|a| - 1] == '/' {
      BasenameAppend(a, b);
    } else {
      BasenameAppend(a + "/", b);
    }
  }
}
