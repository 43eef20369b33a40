/**
 * The class list of a field's statistics in `GetLabelFieldsStatistics`:
 * the distinct class values with `None` dropped, sorted the way Python
 * sorts strings (lexicographically by code point).
 */
module Statistics {
  import opened Wrappers

  /** Python's `a <= b` on strings. */
  predicate LessEq(a: string, b: string)
    decreases |a|
  {
    a == [] || (b != [] && (a[0] < b[0] || (a[0] == b[0] && LessEq(a[1..], b[1..]))))
  }

  lemma {:induction false} LessEqTotal(a: string, b: string)
    ensures LessEq(a, b) || LessEq(b, a)
    decreases |a|
  {
    if a != [] && b != [] && a[0] == b[0] {
      LessEqTotal(a[1..], b[1..]);
    }
  }

  lemma {:induction false} LessEqTransitive(a: string, b: string, c: string)
    requires LessEq(a, b) && LessEq(b, c)
    ensures LessEq(a, c)
    decreases |a|
  {
    if a != [] && a[0] == b[0] && b[0] == c[0] {
      LessEqTransitive(a[1..], b[1..], c[1..]);
    }
  }

  predicate Sorted(s: seq<string>) {
    forall i, j :: 0 <= i < j < |s| ==> LessEq(s[i], s[j])
  }

  /** `[c for c in classes if c is not None]` */
  function Present(classes: seq<Option<string>>): (r: seq<string>)
    ensures forall c :: c in r <==> Some(c) in classes
    ensures |r| <= |classes|
  {
    if classes == [] then []
    else (if classes[0].Some? then [classes[0].value] else []) + Present(classes[1..])
  }

  /** Puts `x` before the first element it is not greater than. */
  function Insert(x: string, s: seq<string>): seq<string>
    decreases |s|
  {
    if s == [] then [x]
    else if LessEq(x, s[0]) then [x] + s
    else [s[0]] + Insert(x, s[1..])
  }

  /** Python's `sorted` on a list of strings. */
  function Sort(s: seq<string>): seq<string>
    decreases |s|
  {
    if s == [] then [] else Insert(s[0], Sort(s[1..]))
  }

  /** `sorted([c for c in classes if c is not None])` */
  function ClassList(classes: seq<Option<string>>): seq<string> {
    Sort(Present(classes))
  }

  /** A sorted list stays sorted with an element in front that is not greater than any of its elements. */
  lemma PrependSorted(y: string, r: seq<string>)
    requires Sorted(r)
    requires forall z :: z in r ==> LessEq(y, z)
    ensures Sorted([y] + r)
  {
    var t := [y] + r;
    forall i, j | 0 <= i < j < |t| ensures LessEq(t[i], t[j]) {
      assert t[j] == r[j - 1];
      if i > 0 {
        assert t[i] == r[i - 1];
      } else {
        assert r[j - 1] in r;
      }
    }
  }

  /** Inserting adds `x` and keeps every element. */
  lemma {:induction false} InsertMembers(x: string, s: seq<string>)
    ensures forall y :: y in Insert(x, s) <==> y == x || y in s
    decreases |s|
  {
    if s != [] && !LessEq(x, s[0]) {
      InsertMembers(x, s[1..]);
      assert s == [s[0]] + s[1..];
    }
  }

  /** Inserting adds exactly one occurrence of `x`. */
  lemma {:induction false} InsertPermutes(x: string, s: seq<string>)
    ensures multiset(Insert(x, s)) == multiset(s) + multiset{x}
    decreases |s|
  {
    if s != [] && !LessEq(x, s[0]) {
      InsertPermutes(x, s[1..]);
      assert s == [s[0]] + s[1..];
    }
  }

  /** Inserting into a sorted list keeps it sorted. */
  lemma {:induction false} InsertSorted(x: string, s: seq<string>)
    requires Sorted(s)
    ensures Sorted(Insert(x, s))
    decreases |s|
  {
    if s == [] {
    } else if LessEq(x, s[0]) {
      forall z | z in s ensures LessEq(x, z) {
        var j :| 0 <= j < |s| && s[j] == z;
        if j > 0 {
          LessEqTransitive(x, s[0], s[j]);
        }
      }
      PrependSorted(x, s);
    } else {
      var tail := s[1..];
      assert Sorted(tail) by {
        forall i, j | 0 <= i < j < |tail| ensures LessEq(tail[i], tail[j]) {
          assert tail[i] == s[i + 1] && tail[j] == s[j + 1];
        }
      }
      InsertSorted(x, tail);
      InsertMembers(x, tail);
      LessEqTotal(x, s[0]);
      forall z | z in Insert(x, tail) ensures LessEq(s[0], z) {
        if z != x {
          var k :| 0 <= k < |tail| && tail[k] == z;
          assert s[k + 1] == z;
        }
      }
      PrependSorted(s[0], Insert(x, tail));
    }
  }

  /** `Sort` returns a sorted list. */
  lemma {:induction false} SortSorted(s: seq<string>)
    ensures Sorted(Sort(s))
    decreases |s|
  {
    if s != [] {
      SortSorted(s[1..]);
      InsertSorted(s[0], Sort(s[1..]));
    }
  }

  /** `Sort` returns a permutation of its input. */
  lemma {:induction false} SortPermutes(s: seq<string>)
    ensures multiset(Sort(s)) == multiset(s)
    decreases |s|
  {
    if s != [] {
      SortPermutes(s[1..]);
      InsertPermutes(s[0], Sort(s[1..]));
      assert s == [s[0]] + s[1..];
    }
  }

  /**
   * The class list is sorted, holds every non-`None` class value as often as
   * the input does, and nothing else.
   */
  lemma ClassListCorrect(classes: seq<Option<string>>)
    ensures Sorted(ClassList(classes))
    ensures multiset(ClassList(classes)) == multiset(Present(classes))
    ensures forall c :: c in ClassList(classes) <==> Some(c) in classes
  {
    SortSorted(Present(classes));
    SortPermutes(Present(classes));
    forall c ensures c in ClassList(classes) <==> c in Present(classes) {
      assert c in ClassList(classes) <==> c in multiset(ClassList(classes));
      assert c in Present(classes) <==> c in multiset(Present(classes));
    }
  }
}
