/**
 * The few pieces of Python string semantics the plugin relies on:
 * truthiness, `startswith`, the `in` substring test, `replace` and `strip`.
 * A string is a sequence of Unicode scalar values; the lone surrogates a
 * Python 3 `str` may also hold are not modelled.
 */
module PyStrings {
  import opened Wrappers

  /** Python truthiness of an optional string: present and non-empty. */
  predicate Truthy(s: Option<string>) {
    s.Some? && s.value != ""
  }

  /** `s.startswith(prefix)` */
  predicate StartsWith(s: string, prefix: string) {
    |prefix| <= |s| && s[..|prefix|] == prefix
  }

  /** `sub in s`: `sub` occurs in `s` at some position (the empty string occurs everywhere). */
  predicate Contains(s: string, sub: string)
    decreases |s|
  {
    StartsWith(s, sub) || (s != [] && Contains(s[1..], sub))
  }

  /** `sub` occurs in `s` starting at index `i`. */
  predicate OccursAt(s: string, sub: string, i: int) {
    0 <= i <= |s| - |sub| && s[i..i + |sub|] == sub
  }

  /** `Contains` holds exactly when `sub` occurs at some index of `s`. */
  lemma {:induction false} ContainsAt(s: string, sub: string)
    ensures Contains(s, sub) <==> exists i :: OccursAt(s, sub, i)
  {
    if StartsWith(s, sub) {
      assert OccursAt(s, sub, 0);
    } else if s != [] {
      var t := s[1..];
      ContainsAt(t, sub);
      forall i | OccursAt(t, sub, i) ensures OccursAt(s, sub, i + 1) {
        assert t[i..i + |sub|] == s[i + 1..i + 1 + |sub|];
      }
      forall i | OccursAt(s, sub, i) ensures i > 0 && OccursAt(t, sub, i - 1) {
        assert i != 0;
        assert t[i - 1..i - 1 + |sub|] == s[i..i + |sub|];
      }
    }
  }

  /**
   * `s.replace(pat, rep)` for a non-empty `pat`: occurrences are found from
   * left to right and never overlap.
   */
  function ReplaceAll(s: string, pat: string, rep: string): string
    requires pat != []
    decreases |s|
  {
    if |s| < |pat| then s
    else if s[..|pat|] == pat then rep + ReplaceAll(s[|pat|..], pat, rep)
    else [s[0]] + ReplaceAll(s[1..], pat, rep)
  }

  /** Replacing a pattern that does not occur changes nothing. */
  lemma {:induction false} ReplaceAllAbsent(s: string, pat: string, rep: string)
    requires pat != [] && !Contains(s, pat)
    ensures ReplaceAll(s, pat, rep) == s
  {
    if |s| >= |pat| {
      assert !StartsWith(s, pat);
      ReplaceAllAbsent(s[1..], pat, rep);
    }
  }

  /** A leading occurrence of the pattern is replaced and the scan resumes after it. */
  lemma ReplaceAllLeading(s: string, pat: string, rep: string)
    requires pat != []
    ensures ReplaceAll(pat + s, pat, rep) == rep + ReplaceAll(s, pat, rep)
  {
    var t := pat + s;
    assert t[..|pat|] == pat;
    assert t[|pat|..] == s;
  }

  /** A leading character that cannot start the pattern is kept as it is. */
  lemma ReplaceAllSkip(c: char, s: string, pat: string, rep: string)
    requires pat != [] && c != pat[0]
    ensures ReplaceAll([c] + s, pat, rep) == [c] + ReplaceAll(s, pat, rep)
  {
    var t := [c] + s;
    assert t[1..] == s;
    if |t| >= |pat| {
      assert t[..|pat|][0] != pat[0];
    }
  }

  /**
   * Python's `str.isspace` for one code point: the characters that
   * `str.strip()` with no argument removes.
   */
  predicate IsSpace(c: char) {
    var n := c as int;
    (0x09 <= n <= 0x0D) || (0x1C <= n <= 0x20) || n == 0x85 || n == 0xA0 ||
    n == 0x1680 || (0x2000 <= n <= 0x200A) || n == 0x2028 || n == 0x2029 ||
    n == 0x202F || n == 0x205F || n == 0x3000
  }

  /** Every character of `t` is whitespace. */
  predicate AllSpace(t: string) {
    forall k :: 0 <= k < |t| ==> IsSpace(t[k])
  }

  /** `s.lstrip()`: the longest suffix of `s` that does not start with whitespace. */
  function LStrip(s: string): (r: string)
    ensures |r| <= |s| && r == s[|s| - |r|..]
    ensures r == [] || !IsSpace(r[0])
    decreases |s|
  {
    if s != [] && IsSpace(s[0]) then LStrip(s[1..]) else s
  }

  /** What `lstrip` cuts off is whitespace. */
  lemma {:induction false} LStripCutsSpace(s: string)
    ensures AllSpace(s[..|s| - |LStrip(s)|])
    decreases |s|
  {
    if s != [] && IsSpace(s[0]) {
      var t := s[1..];
      LStripCutsSpace(t);
      var cut := s[..|s| - |LStrip(t)|];
      forall k | 0 <= k < |cut| ensures IsSpace(cut[k]) {
        if k > 0 {
          assert cut[k] == t[..|t| - |LStrip(t)|][k - 1];
        }
      }
    }
  }

  /** `s.rstrip()`: the longest prefix of `s` that does not end with whitespace. */
  function RStrip(s: string): (r: string)
    ensures |r| <= |s| && r == s[..|r|]
    ensures r == [] || !IsSpace(r[|r| - 1])
    decreases |s|
  {
    if s != [] && IsSpace(s[|s| - 1]) then RStrip(s[..|s| - 1]) else s
  }

  /** What `rstrip` cuts off is whitespace. */
  lemma {:induction false} RStripCutsSpace(s: string)
    ensures AllSpace(s[|RStrip(s)|..])
    decreases |s|
  {
    if s != [] && IsSpace(s[|s| - 1]) {
      var t := s[..|s| - 1];
      RStripCutsSpace(t);
      var cut := s[|RStrip(t)|..];
      forall k | 0 <= k < |cut| ensures IsSpace(cut[k]) {
        if k < |cut| - 1 {
          assert cut[k] == t[|RStrip(t)|..][k];
        }
      }
    }
  }

  /** `r` is the slice of `s` at index `i` and everything around it is whitespace. */
  predicate TrimmedSliceAt(s: string, r: string, i: int) {
    && 0 <= i <= |s| - |r|
    && r == s[i..i + |r|]
    && AllSpace(s[..i])
    && AllSpace(s[i + |r|..])
  }

  /** `s.strip()`: `s` without its leading and trailing whitespace. */
  function Strip(s: string): (r: string)
    ensures |r| <= |s|
    ensures r == [] || (!IsSpace(r[0]) && !IsSpace(r[|r| - 1]))
  {
    RStrip(LStrip(s))
  }

  /**
   * What `strip` returns is a slice of `s`, at the index `i` returned, and
   * everything cut off on either side of it is whitespace.
   */
  lemma StripIsTrimmedSlice(s: string) returns (i: int)
    ensures TrimmedSliceAt(s, Strip(s), i)
  {
    var l := LStrip(s);
    var r := RStrip(l);
    assert Strip(s) == r;
    i := |s| - |l|;
    LStripCutsSpace(s);
    RStripCutsSpace(l);
    TrimmedSliceOf(s, l, r);
  }

  /**
   * A suffix `l` of `s` with only whitespace before it, and a prefix `r` of
   * `l` with only whitespace after it: `r` is a slice of `s` with only
   * whitespace around it.
   */
  lemma TrimmedSliceOf(s: string, l: string, r: string)
    requires |l| <= |s| && l == s[|s| - |l|..] && AllSpace(s[..|s| - |l|])
    requires |r| <= |l| && r == l[..|r|] && AllSpace(l[|r|..])
    ensures TrimmedSliceAt(s, r, |s| - |l|)
  {
    SlicesOfSuffix(s, |s| - |l|, |r|);
  }

  /** The slices of `s[i..]` at `n` are the slices of `s` at `i + n`. */
  lemma SlicesOfSuffix(s: string, i: int, n: int)
    requires 0 <= i <= |s| && 0 <= n <= |s| - i
    ensures s[i..][..n] == s[i..i + n]
    ensures s[i..][n..] == s[i + n..]
  {
  }

  /** A string already free of surrounding whitespace is its own strip. */
  lemma StripTrimmed(s: string)
    requires s == [] || (!IsSpace(s[0]) && !IsSpace(s[|s| - 1]))
    ensures Strip(s) == s
  {
  }

  /** Leading whitespace makes no difference to `strip`. */
  lemma StripLeadingSpace(c: char, s: string)
    requires IsSpace(c)
    ensures Strip([c] + s) == Strip(s)
  {
    assert ([c] + s)[1..] == s;
  }
}
