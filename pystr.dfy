/**
 * The few Python string operations the pipeline relies on, over `string`
 * (a sequence of Unicode scalar values, as Python's `str` is a sequence of
 * code points): `str.strip()`, `"\n".join(...)`, `str.split("\n")` and
 * `str.lower()` restricted to ASCII letters.
 */
module PyStr {

  /** The characters for which Python's `str.isspace()` holds. */
  predicate IsSpace(c: char) {
    || c == ' '
    || ('\t' <= c <= '\r')
    || ('\U{1C}' <= c <= '\U{1F}')
    || c == '\U{85}' || c == '\U{A0}' || c == '\U{1680}'
    || ('\U{2000}' <= c <= '\U{200A}')
    || c == '\U{2028}' || c == '\U{2029}' || c == '\U{202F}' || c == '\U{205F}' || c == '\U{3000}'
  }

  /** `r` is `s` without its leading whitespace. */
  predicate LeftStripOf(s: string, r: string)
  {
    && |r| <= |s| && r == s[|s| - |r|..]
    && (forall k :: 0 <= k < |s| - |r| ==> IsSpace(s[k]))
    && (r == [] || !IsSpace(r[0]))
  }

  /** `r` is `s` without its trailing whitespace. */
  predicate RightStripOf(s: string, r: string)
  {
    && |r| <= |s| && r == s[..|r|]
    && (forall k :: |r| <= k < |s| ==> IsSpace(s[k]))
    && (r == [] || !IsSpace(r[|r| - 1]))
  }

  /** `s.lstrip()`: drops the leading whitespace and nothing else. */
  function StripLeft(s: string): (r: string)
    ensures LeftStripOf(s, r)
    decreases |s|
  {
    if s != [] && IsSpace(s[0]) then
      var r := StripLeft(s[1..]);
      assert s[1..][|s| - 1 - |r|..] == s[|s| - |r|..];
      assert forall k :: 1 <= k < |s| - |r| ==> s[k] == s[1..][k - 1];
      r
    else s
  }

  /** `s.rstrip()`: drops the trailing whitespace and nothing else. */
  function StripRight(s: string): (r: string)
    ensures RightStripOf(s, r)
    decreases |s|
  {
    if s != [] && IsSpace(s[|s| - 1]) then
      var r := StripRight(s[..|s| - 1]);
      assert s[..|s| - 1][..|r|] == s[..|r|];
      assert forall k :: |r| <= k < |s| - 1 ==> s[k] == s[..|s| - 1][k];
      r
    else s
  }

  /** `s.strip()`. */
  function Strip(s: string): string
  {
    StripRight(StripLeft(s))
  }

  /**
   * `s.strip()` is the slice of `s` between a whitespace-only prefix and a
   * whitespace-only suffix, and starts and ends with a non-whitespace
   * character.
   */
  lemma StripsOnlySpace(s: string)
    ensures var r, i := Strip(s), |s| - |StripLeft(s)|;
      && i + |r| <= |s|
      && r == s[i..i + |r|]
      && (forall k :: 0 <= k < i ==> IsSpace(s[k]))
      && (forall k :: i + |r| <= k < |s| ==> IsSpace(s[k]))
      && (r == [] || (!IsSpace(r[0]) && !IsSpace(r[|r| - 1])))
  {
    BetweenSpaces(s, StripLeft(s), Strip(s));
  }

  /** A prefix `r` of a suffix `l` of `s`, each cut off at whitespace, lies between whitespace in `s`. */
  lemma BetweenSpaces(s: string, l: string, r: string)
    requires LeftStripOf(s, l) && RightStripOf(l, r)
    ensures var i := |s| - |l|;
      && i + |r| <= |s|
      && r == s[i..i + |r|]
      && (forall k :: 0 <= k < i ==> IsSpace(s[k]))
      && (forall k :: i + |r| <= k < |s| ==> IsSpace(s[k]))
      && (r == [] || (!IsSpace(r[0]) && !IsSpace(r[|r| - 1])))
  {
    var i := |s| - |l|;
    assert r == s[i..i + |r|] by {
      assert s[i..][..|r|] == s[i..i + |r|];
    }
    forall k | i + |r| <= k < |s| ensures IsSpace(s[k]) {
      assert s[k] == l[k - i];
    }
    assert r == [] || r[0] == l[0];
  }

  /** Stripping twice is stripping once. */
  lemma StripIdempotent(s: string)
    ensures Strip(Strip(s)) == Strip(s)
  {
    var r := Strip(s);
    StripsOnlySpace(s);
    assert StripLeft(r) == r;
    assert StripRight(r) == r;
  }

  /** `c.join(xs)` for a one-character separator. */
  function Join(xs: seq<string>, sep: char): (r: string)
    ensures xs == [] ==> r == []
    decreases |xs|
  {
    if xs == [] then []
    else if |xs| == 1 then xs[0]
    else xs[0] + [sep] + Join(xs[1..], sep)
  }

  /** `s.split(c)` for a one-character separator: always at least one field. */
  function Split(s: string, sep: char): (r: seq<string>)
    ensures |r| >= 1
    decreases |s|
  {
    if s == [] then [[]]
    else
      var rest := Split(s[1..], sep);
      if s[0] == sep then [[]] + rest
      else [[s[0]] + rest[0]] + rest[1..]
  }

  lemma {:induction false} SplitNoSep(a: string, sep: char)
    requires sep !in a
    ensures Split(a, sep) == [a]
    decreases |a|
  {
    if a != [] {
      assert sep !in a[1..];
      SplitNoSep(a[1..], sep);
      assert [a[0]] + a[1..] == a;
    }
  }

  lemma {:induction false} SplitAtFirstSep(a: string, sep: char, t: string)
    requires sep !in a
    ensures Split(a + [sep] + t, sep) == [a] + Split(t, sep)
    decreases |a|
  {
    if a == [] {
      assert a + [sep] + t == [sep] + t;
      assert ([sep] + t)[1..] == t;
    } else {
      var s := a + [sep] + t;
      assert s[0] == a[0] && s[1..] == a[1..] + [sep] + t;
      assert sep !in a[1..];
      SplitAtFirstSep(a[1..], sep, t);
      assert [a[0]] + a[1..] == a;
    }
  }

  /**
   * Splitting a join on its separator gives back the pieces, as long as
   * there is at least one piece and no piece contains the separator.
   */
  lemma {:induction false} SplitJoin(xs: seq<string>, sep: char)
    requires xs != []
    requires forall i :: 0 <= i < |xs| ==> sep !in xs[i]
    ensures Split(Join(xs, sep), sep) == xs
    decreases |xs|
  {
    if |xs| == 1 {
      SplitNoSep(xs[0], sep);
    } else {
      SplitJoin(xs[1..], sep);
      SplitAtFirstSep(xs[0], sep, Join(xs[1..], sep));
    }
  }

  /** The separator count: a join of n pieces is their total length plus n - 1. */
  function TotalLength(xs: seq<string>): nat
  {
    if xs == [] then 0 else |xs[0]| + TotalLength(xs[1..])
  }

  lemma {:induction false} JoinLength(xs: seq<string>, sep: char)
    requires xs != []
    ensures |Join(xs, sep)| == TotalLength(xs) + |xs| - 1
    decreases |xs|
  {
    if |xs| > 1 {
      JoinLength(xs[1..], sep);
    }
  }

  /** Python's `str.lower()` on ASCII letters; every other character is kept. */
  function LowerChar(c: char): (r: char)
    ensures 'A' <= c <= 'Z' ==> 'a' <= r <= 'z' && r as int == c as int + 32
    ensures !('A' <= c <= 'Z') ==> r == c
  {
    if 'A' <= c <= 'Z' then (c as int + 32) as char else c
  }

  function Lower(s: string): (r: string)
    ensures |r| == |s|
    ensures forall i :: 0 <= i < |s| ==> r[i] == LowerChar(s[i])
  {
    seq(|s|, i requires 0 <= i < |s| => LowerChar(s[i]))
  }
}
