/**
 * Python's `str.strip()` with no argument: it removes leading and trailing
 * characters for which `str.isspace()` holds.
 */
module Text {

  /** The characters Python's `str.isspace()` accepts. */
  predicate IsSpace(c: char)
  {
    ('\t' <= c <= '\r') || ('\U{1c}' <= c <= ' ')
    || c == '\U{85}' || c == '\U{a0}' || c == '\U{1680}'
    || ('\U{2000}' <= c <= '\U{200a}') || c == '\U{2028}' || c == '\U{2029}'
    || c == '\U{202f}' || c == '\U{205f}' || c == '\U{3000}'
  }

  predicate AllSpace(s: string)
  {
    forall i :: 0 <= i < |s| ==> IsSpace(s[i])
  }

  /** Drops leading whitespace: the result is a suffix of `s` that does not start with whitespace. */
  function LStrip(s: string): (r: string)
    ensures |r| <= |s| && r == s[|s| - |r|..]
    ensures AllSpace(s[..|s| - |r|])
    ensures r == [] || !IsSpace(r[0])
  {
    if |s| > 0 && IsSpace(s[0]) then
      var r := LStrip(s[1..]);
      assert s[..|s| - |r|] == [s[0]] + s[1..][..|s| - 1 - |r|];
      r
    else s
  }

  /** Drops trailing whitespace: the result is a prefix of `s` that does not end with whitespace. */
  function RStrip(s: string): (r: string)
    ensures |r| <= |s| && r == s[..|r|]
    ensures AllSpace(s[|r|..])
    ensures r == [] || !IsSpace(r[|r| - 1])
  {
    if |s| > 0 && IsSpace(s[|s| - 1]) then
      var r := RStrip(s[..|s| - 1]);
      assert s[|r|..] == s[..|s| - 1][|r|..] + [s[|s| - 1]];
      r
    else s
  }

  /** `r` is what is left of `s` once an all-whitespace prefix and an all-whitespace suffix are cut off. */
  ghost predicate Trimmed(s: string, r: string)
  {
    exists i :: 0 <= i <= i + |r| <= |s| && r == s[i..i + |r|] && AllSpace(s[..i]) && AllSpace(s[i + |r|..])
  }

  /** Drops whitespace at both ends: what is left neither starts nor ends with whitespace. */
  function Strip(s: string): (r: string)
    ensures |r| <= |s|
    ensures r == [] || (!IsSpace(r[0]) && !IsSpace(r[|r| - 1]))
  {
    var l := LStrip(s);
    var r := RStrip(l);
    assert r != [] ==> r[0] == l[0];
    r
  }

  /** `s.strip()` is the part of `s` between an all-whitespace prefix and an all-whitespace suffix. */
  lemma StripTrimmed(s: string)
    ensures Trimmed(s, Strip(s))
  {
    TrimmedWindow(s, LStrip(s), RStrip(LStrip(s)));
  }

  /** Trimming a suffix `l` of `s` down to its prefix `r` leaves `r` as a window of `s`. */
  lemma TrimmedWindow(s: string, l: string, r: string)
    requires |l| <= |s| && l == s[|s| - |l|..] && AllSpace(s[..|s| - |l|])
    requires |r| <= |l| && r == l[..|r|] && AllSpace(l[|r|..])
    ensures Trimmed(s, r)
  {
    var i := |s| - |l|;
    assert r == s[i..i + |r|] && s[i + |r|..] == l[|r|..];
  }

  /**
   * The contract of `Strip` determines its result: two windows of `s` with
   * all-whitespace surroundings and no whitespace at their own ends are equal.
   */
  lemma TrimmedUnique(s: string, r1: string, r2: string)
    requires Trimmed(s, r1) && (r1 == [] || (!IsSpace(r1[0]) && !IsSpace(r1[|r1| - 1])))
    requires Trimmed(s, r2) && (r2 == [] || (!IsSpace(r2[0]) && !IsSpace(r2[|r2| - 1])))
    ensures r1 == r2
  {
    var i1 :| 0 <= i1 <= i1 + |r1| <= |s| && r1 == s[i1..i1 + |r1|] && AllSpace(s[..i1]) && AllSpace(s[i1 + |r1|..]);
    var i2 :| 0 <= i2 <= i2 + |r2| <= |s| && r2 == s[i2..i2 + |r2|] && AllSpace(s[..i2]) && AllSpace(s[i2 + |r2|..]);
    if r1 != [] && r2 != [] {
      WindowStart(s, r1, i1, r2, i2);
      WindowStart(s, r2, i2, r1, i1);
      WindowEnd(s, r1, i1, r2, i2);
      WindowEnd(s, r2, i2, r1, i1);
    } else if r1 != [] {
      SpaceOutside(s, r2, i2, i1);
    } else if r2 != [] {
      SpaceOutside(s, r1, i1, i2);
    }
  }

  /** Outside the window `s[i..i + |r|]` every character is whitespace. */
  lemma SpaceOutside(s: string, r: string, i: int, k: int)
    requires 0 <= i <= i + |r| <= |s| && AllSpace(s[..i]) && AllSpace(s[i + |r|..])
    requires 0 <= k < |s| && !(i <= k < i + |r|)
    ensures IsSpace(s[k])
  {
    if k < i {
      assert s[..i][k] == s[k];
    } else {
      assert s[i + |r|..][k - i - |r|] == s[k];
    }
  }

  /** A window that starts with a non-space character starts no later than any other such window. */
  lemma WindowStart(s: string, r1: string, i1: int, r2: string, i2: int)
    requires 0 <= i1 <= i1 + |r1| <= |s| && r1 == s[i1..i1 + |r1|] && r1 != [] && !IsSpace(r1[0])
    requires 0 <= i2 <= i2 + |r2| <= |s| && AllSpace(s[..i2]) && AllSpace(s[i2 + |r2|..]) && r2 != []
    ensures i2 <= i1
  {
    assert s[i1] == r1[0];
    if i1 < i2 {
      SpaceOutside(s, r2, i2, i1);
    }
  }

  /** A window that ends with a non-space character ends no earlier than any other such window. */
  lemma WindowEnd(s: string, r1: string, i1: int, r2: string, i2: int)
    requires 0 <= i1 <= i1 + |r1| <= |s| && r1 == s[i1..i1 + |r1|] && r1 != [] && !IsSpace(r1[|r1| - 1])
    requires 0 <= i2 <= i2 + |r2| <= |s| && AllSpace(s[..i2]) && AllSpace(s[i2 + |r2|..])
    requires i2 <= i1
    ensures i1 + |r1| <= i2 + |r2|
  {
    assert s[i1 + |r1| - 1] == r1[|r1| - 1];
    if i2 + |r2| < i1 + |r1| {
      SpaceOutside(s, r2, i2, i1 + |r1| - 1);
    }
  }

  /** `s.strip()` is the only window of `s` with all-whitespace surroundings and no whitespace at its ends. */
  lemma StripUnique(s: string, r: string)
    requires Trimmed(s, r) && (r == [] || (!IsSpace(r[0]) && !IsSpace(r[|r| - 1])))
    ensures r == Strip(s)
  {
    StripTrimmed(s);
    TrimmedUnique(s, r, Strip(s));
  }

  /** A string strips to "" exactly when every character in it is whitespace. */
  lemma StripEmptyIff(s: string)
    ensures Strip(s) == [] <==> AllSpace(s)
  {
    var l := LStrip(s);
    if !AllSpace(s) {
      var i :| 0 <= i < |s| && !IsSpace(s[i]);
      assert i >= |s| - |l| && l[i - (|s| - |l|)] == s[i];
    }
  }
}
