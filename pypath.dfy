/**
 * The two POSIX path operations the upload handler relies on:
 * `os.path.splitext` and `os.path.join` with two arguments, as Python's
 * posixpath module defines them (separator '/', extension separator '.').
 */
module PyPath {

  /** `s.rfind(c)`: the last index holding `c`, or -1 when there is none. */
  function RFind(s: string, c: char): (r: int)
    ensures -1 <= r < |s|
    ensures r >= 0 ==> s[r] == c
    ensures forall k :: r < k < |s| ==> s[k] != c
    decreases |s|
  {
    if s == [] then -1
    else if s[|s| - 1] == c then |s| - 1
    else RFind(s[..|s| - 1], c)
  }

  /** The postcondition of RFind pins its result down. */
  lemma RFindAt(s: string, c: char, i: int)
    requires 0 <= i < |s| && s[i] == c
    requires forall k :: i < k < |s| ==> s[k] != c
    ensures RFind(s, c) == i
  {
  }

  /** Some character of `p[lo..hi]` is not a dot. */
  predicate HasNonDot(p: string, lo: int, hi: int)
    requires 0 <= lo && hi <= |p|
  {
    exists k :: lo <= k < hi && p[k] != '.'
  }

  /** A character that does not occur at all is not found. */
  lemma RFindAbsent(s: string, c: char)
    requires forall k :: 0 <= k < |s| ==> s[k] != c
    ensures RFind(s, c) == -1
  {
  }

  /**
   * `os.path.splitext(p)`: the extension runs from the last dot of the last
   * path component to the end, provided that dot is preceded by a non-dot
   * character of that component (so ".bashrc" and "a/..." have none).
   */
  function SplitExt(p: string): (r: (string, string))
    ensures r.0 + r.1 == p
    ensures r.1 == [] || (r.1[0] == '.' && forall k :: 1 <= k < |r.1| ==> r.1[k] != '.')
    ensures forall k :: 0 <= k < |r.1| ==> r.1[k] != '/'
  {
    var sepIndex := RFind(p, '/');
    var dotIndex := RFind(p, '.');
    if dotIndex > sepIndex && HasNonDot(p, sepIndex + 1, dotIndex) then
      assert p[..dotIndex] + p[dotIndex..] == p;
      (p[..dotIndex], p[dotIndex..])
    else
      assert p + [] == p;
      (p, [])
  }

  /** In a plain file name, the extension starts at the last dot, provided the name does not start with that dot. */
  lemma SplitExtAtLastDot(name: string, i: int)
    requires 0 < i < |name| && name[i] == '.' && name[0] != '.'
    requires forall k :: i < k < |name| ==> name[k] != '.'
    requires forall k :: 0 <= k < |name| ==> name[k] != '/'
    ensures SplitExt(name) == (name[..i], name[i..])
  {
    RFindAt(name, '.', i);
    RFindAbsent(name, '/');
    assert HasNonDot(name, 0, i);
  }

  /** A name without a dot, or whose only dot is its first character, has no extension. */
  lemma NoExtension(name: string)
    requires forall k :: 0 < k < |name| ==> name[k] != '.'
    requires forall k :: 0 <= k < |name| ==> name[k] != '/'
    ensures SplitExt(name) == (name, [])
  {
    RFindAbsent(name, '/');
    if name != [] && name[0] == '.' {
      RFindAt(name, '.', 0);
    } else {
      RFindAbsent(name, '.');
    }
  }

  /** `os.path.join(a, b)`: an absolute `b` replaces `a`; otherwise one '/' separates them. */
  function JoinPath(a: string, b: string): (r: string)
    ensures |b| > 0 && b[0] == '/' ==> r == b
    ensures !(|b| > 0 && b[0] == '/') ==> exists d :: r == d + b && (d == [] || d[|d| - 1] == '/')
  {
    if |b| > 0 && b[0] == '/' then b
    else if a == [] || a[|a| - 1] == '/' then a + b
    else
      assert (a + "/")[|a|] == '/';
      a + "/" + b
  }

  lemma {:induction false} RFindAppend(a: string, b: string, c: char)
    ensures RFind(a + b, c) == if RFind(b, c) >= 0 then |a| + RFind(b, c) else RFind(a, c)
    decreases |b|
  {
    if b == [] {
      assert a + b == a;
    } else {
      var s := a + b;
      assert s[|s| - 1] == b[|b| - 1];
      assert s[..|s| - 1] == a + b[..|b| - 1];
      RFindAppend(a, b[..|b| - 1], c);
    }
  }

  /** Shifting a range by a prefix does not change whether it holds a non-dot. */
  lemma HasNonDotShift(d: string, f: string, lo: int, hi: int)
    requires 0 <= lo && hi <= |f|
    ensures HasNonDot(d + f, |d| + lo, |d| + hi) <==> HasNonDot(f, lo, hi)
  {
    var p := d + f;
    if HasNonDot(p, |d| + lo, |d| + hi) {
      var k :| |d| + lo <= k < |d| + hi && p[k] != '.';
      assert f[k - |d|] == p[k];
    }
    if HasNonDot(f, lo, hi) {
      var k :| lo <= k < hi && f[k] != '.';
      assert p[k + |d|] == f[k];
    }
  }

  /** Prefixing a directory that ends in '/' does not change the extension. */
  lemma SplitExtUnderDir(d: string, f: string)
    requires d != [] && d[|d| - 1] == '/'
    ensures SplitExt(d + f).1 == SplitExt(f).1
  {
    var p := d + f;
    RFindAppend(d, f, '/');
    RFindAppend(d, f, '.');
    assert RFind(d, '/') == |d| - 1;
    var sepF, dotF := RFind(f, '/'), RFind(f, '.');
    assert RFind(p, '/') == |d| + sepF;
    if dotF >= 0 {
      assert RFind(p, '.') == |d| + dotF;
      HasNonDotShift(d, f, sepF + 1, dotF);
      assert p[|d| + dotF..] == f[dotF..];
    } else {
      assert RFind(p, '.') < |d| - 1;
    }
  }

  /**
   * Staging a file under any directory keeps the extension of its name:
   * the file type is decided by the uploaded file name alone.
   */
  lemma JoinKeepsExtension(d: string, f: string)
    ensures SplitExt(JoinPath(d, f)).1 == SplitExt(f).1
  {
    if |f| > 0 && f[0] == '/' {
    } else if d == [] {
      assert JoinPath(d, f) == f;
    } else if d[|d| - 1] == '/' {
      SplitExtUnderDir(d, f);
    } else {
      var d' := d + "/";
      assert JoinPath(d, f) == d' + f;
      SplitExtUnderDir(d', f);
    }
  }
}
