/**
 * The string operations the reports use: `str.startswith`, the `in`
 * substring test, Python's code-point ordering of `str` (what `sorted`
 * uses), `sorted` itself, and `"\n".join`.
 */
module Text {

  /** `s.startswith(prefix)`. */
  predicate StartsWith(s: string, prefix: string)
  {
    |prefix| <= |s| && s[..|prefix|] == prefix
  }

  /** `sub in s` for two strings. */
  predicate Contains(s: string, sub: string)
    decreases |s|
  {
    StartsWith(s, sub) || (|s| > 0 && Contains(s[1..], sub))
  }

  /** `sub` occurs in `s` starting at index `i`. */
  ghost predicate OccursAt(s: string, sub: string, i: int)
  {
    0 <= i && i + |sub| <= |s| && s[i..i + |sub|] == sub
  }

  /** The recursive substring test agrees with "occurs at some index". */
  lemma {:induction false} ContainsIffOccurs(s: string, sub: string)
    ensures Contains(s, sub) <==> exists i :: OccursAt(s, sub, i)
    decreases |s|
  {
    if StartsWith(s, sub) {
      assert OccursAt(s, sub, 0);
    } else if |s| > 0 {
      ContainsIffOccurs(s[1..], sub);
      if Contains(s[1..], sub) {
        var j :| OccursAt(s[1..], sub, j);
        assert s[j + 1..j + 1 + |sub|] == s[1..][j..j + |sub|];
        assert OccursAt(s, sub, j + 1);
      }
      if i :| OccursAt(s, sub, i) {
        assert i != 0;
        assert s[1..][i - 1..i - 1 + |sub|] == s[i..i + |sub|];
        assert OccursAt(s[1..], sub, i - 1);
      }
    }
  }

  // ---------------------------------------------------------------------
  // Ordering of strings

  /** Python's `a < b` on `str`: lexicographic by code point, a proper prefix first. */
  predicate Less(a: string, b: string)
    decreases |a|
  {
    |b| > 0 && (|a| == 0 || a[0] < b[0] || (a[0] == b[0] && Less(a[1..], b[1..])))
  }

  lemma {:induction false} LessIrreflexive(a: string)
    ensures !Less(a, a)
    decreases |a|
  {
    if |a| > 0 {
      LessIrreflexive(a[1..]);
    }
  }

  lemma {:induction false} LessTransitive(a: string, b: string, c: string)
    requires Less(a, b) && Less(b, c)
    ensures Less(a, c)
    decreases |a|
  {
    if |a| > 0 && a[0] == b[0] && b[0] == c[0] {
      LessTransitive(a[1..], b[1..], c[1..]);
    }
  }

  lemma {:induction false} LessTotal(a: string, b: string)
    ensures a == b || Less(a, b) || Less(b, a)
    decreases |a|
  {
    if |a| > 0 && |b| > 0 && a[0] == b[0] {
      LessTotal(a[1..], b[1..]);
      if a[1..] == b[1..] {
        assert a == [a[0]] + a[1..] && b == [b[0]] + b[1..];
      }
    }
  }

  lemma LessAsymmetric(a: string, b: string)
    ensures !(Less(a, b) && Less(b, a))
  {
    if Less(a, b) && Less(b, a) {
      LessTransitive(a, b, a);
      LessIrreflexive(a);
    }
  }

  lemma LessAsymmetricAll()
    ensures forall a, b :: Less(a, b) ==> !Less(b, a)
  {
    forall a, b | Less(a, b) ensures !Less(b, a) {
      LessAsymmetric(a, b);
    }
  }

  /** Non-decreasing under `Less`, as `sorted` returns it. */
  predicate Sorted(s: seq<string>)
  {
    forall i, j :: 0 <= i < j < |s| ==> !Less(s[j], s[i])
  }

  /** Strictly increasing, so in particular free of duplicates. */
  predicate StrictlySorted(s: seq<string>)
  {
    forall i, j :: 0 <= i < j < |s| ==> Less(s[i], s[j])
  }

  // ---------------------------------------------------------------------
  // sorted(list)

  function Insert(x: string, s: seq<string>): seq<string>
  {
    if |s| == 0 then [x] else if Less(s[0], x) then [s[0]] + Insert(x, s[1..]) else [x] + s
  }

  /** `sorted(s)` for a list of strings (insertion sort; the order is Python's). */
  function Sort(s: seq<string>): seq<string>
  {
    if |s| == 0 then [] else Insert(s[0], Sort(s[1..]))
  }

  lemma {:induction false} InsertMembers(x: string, s: seq<string>)
    ensures multiset(Insert(x, s)) == multiset(s) + multiset{x}
    ensures forall y :: y in Insert(x, s) <==> y == x || y in s
  {
    if |s| > 0 {
      InsertMembers(x, s[1..]);
      assert s == [s[0]] + s[1..];
    }
  }

  /** `Insert` puts `x` in front of everything that is not below it. */
  lemma {:induction false} InsertFront(x: string, s: seq<string>)
    requires Sorted(s) && |s| > 0 && !Less(s[0], x)
    ensures Sorted([x] + s)
  {
    var t := [x] + s;
    forall i, j | 0 <= i < j < |t| ensures !Less(t[j], t[i]) {
      if i == 0 {
        var y := s[j - 1];
        if Less(y, x) {
          LessTotal(y, s[0]);
          if Less(s[0], y) {
            LessTransitive(s[0], y, x);
          }
        }
      } else {
        assert t[i] == s[i - 1] && t[j] == s[j - 1];
      }
    }
  }

  /** `Insert` keeps a sorted list sorted when `x` goes behind the head. */
  lemma {:induction false} InsertBehind(x: string, s: seq<string>)
    requires Sorted(s) && |s| > 0 && Less(s[0], x)
    requires Sorted(Insert(x, s[1..]))
    ensures Sorted([s[0]] + Insert(x, s[1..]))
  {
    var t := Insert(x, s[1..]);
    InsertMembers(x, s[1..]);
    forall y | y in t ensures !Less(y, s[0]) {
      if y == x {
        LessAsymmetric(s[0], x);
      } else {
        var m :| 0 <= m < |s[1..]| && s[1..][m] == y;
        assert s[m + 1] == y;
      }
    }
    var u := [s[0]] + t;
    forall i, j | 0 <= i < j < |u| ensures !Less(u[j], u[i]) {
      if i == 0 {
        assert u[j] == t[j - 1] && u[j] in t;
      } else {
        assert u[i] == t[i - 1] && u[j] == t[j - 1];
      }
    }
  }

  lemma {:induction false} InsertSorted(x: string, s: seq<string>)
    requires Sorted(s)
    ensures Sorted(Insert(x, s))
  {
    if |s| > 0 {
      if Less(s[0], x) {
        assert Sorted(s[1..]) by {
          forall i, j | 0 <= i < j < |s[1..]| ensures !Less(s[1..][j], s[1..][i]) {
            assert s[1..][j] == s[j + 1] && s[1..][i] == s[i + 1];
          }
        }
        InsertSorted(x, s[1..]);
        InsertBehind(x, s);
      } else {
        InsertFront(x, s);
      }
    }
  }

  /** `sorted(s)` is ordered and holds exactly the elements of `s`, duplicates included. */
  lemma {:induction false} SortCorrect(s: seq<string>)
    ensures Sorted(Sort(s))
    ensures multiset(Sort(s)) == multiset(s)
  {
    if |s| > 0 {
      SortCorrect(s[1..]);
      InsertSorted(s[0], Sort(s[1..]));
      InsertMembers(s[0], Sort(s[1..]));
      assert s == [s[0]] + s[1..];
    }
  }

  // ---------------------------------------------------------------------
  // sorted(set of keys)

  /** `m` is below every other element of `s`. */
  ghost predicate IsMin(m: string, s: set<string>)
  {
    m in s && forall x :: x in s && x != m ==> Less(m, x)
  }

  lemma MinOfAddition(y: string, m: string, s: set<string>)
    requires IsMin(m, s) && y !in s
    ensures IsMin(y, s + {y}) || IsMin(m, s + {y})
  {
    if Less(y, m) {
      forall x | x in s + {y} && x != y ensures Less(y, x) {
        if x != m {
          LessTransitive(y, m, x);
        }
      }
      assert IsMin(y, s + {y});
    } else {
      LessTotal(y, m);
      assert IsMin(m, s + {y});
    }
  }

  lemma {:induction false} MinExists(s: set<string>)
    requires s != {}
    ensures exists m :: IsMin(m, s)
    decreases |s|
  {
    var y :| y in s;
    if s == {y} {
      assert IsMin(y, s);
    } else {
      MinExists(s - {y});
      var m :| IsMin(m, s - {y});
      MinOfAddition(y, m, s - {y});
      assert s - {y} + {y} == s;
    }
  }

  /** The least string of a non-empty set. */
  function SetMin(s: set<string>): (m: string)
    requires s != {}
    ensures m in s && forall x :: x in s && x != m ==> Less(m, x)
  {
    MinExists(s);
    LessAsymmetricAll();
    var m :| m in s && forall x :: x in s && x != m ==> Less(m, x);
    m
  }

  /** `sorted(keys)` for a set of distinct keys. */
  function SortSet(s: set<string>): seq<string>
    decreases |s|
  {
    if s == {} then [] else var m := SetMin(s); [m] + SortSet(s - {m})
  }

  /** Every key appears exactly once, in strictly ascending order. */
  lemma {:induction false} SortSetCorrect(s: set<string>)
    ensures StrictlySorted(SortSet(s))
    ensures forall x :: x in SortSet(s) <==> x in s
    ensures |SortSet(s)| == |s|
    decreases |s|
  {
    if s != {} {
      var m := SetMin(s);
      SortSetCorrect(s - {m});
      var r := SortSet(s);
      assert r == [m] + SortSet(s - {m});
      forall i, j | 0 <= i < j < |r| ensures Less(r[i], r[j]) {
        if i == 0 {
          assert r[j] in SortSet(s - {m});
        } else {
          assert r[i] == SortSet(s - {m})[i - 1] && r[j] == SortSet(s - {m})[j - 1];
        }
      }
    }
  }

  // ---------------------------------------------------------------------
  // sep.join(list) and its inverse

  /** `sep.join(xs)`. */
  function Join(xs: seq<string>, sep: string): string
  {
    if |xs| == 0 then "" else if |xs| == 1 then xs[0] else xs[0] + sep + Join(xs[1..], sep)
  }

  /** `s.split(c)` for a one-character separator. */
  function Split(s: string, c: char): (parts: seq<string>)
    ensures |parts| >= 1
    decreases |s|
  {
    if |s| == 0 then [""]
    else
      var rest := Split(s[1..], c);
      if s[0] == c then [""] + rest else [[s[0]] + rest[0]] + rest[1..]
  }

  lemma {:induction false} SplitWithoutSeparator(a: string, c: char)
    requires c !in a
    ensures Split(a, c) == [a]
    decreases |a|
  {
    if |a| > 0 {
      assert c !in a[1..];
      SplitWithoutSeparator(a[1..], c);
      assert a == [a[0]] + a[1..];
    }
  }

  lemma {:induction false} SplitAfterPiece(a: string, c: char, t: string)
    requires c !in a
    ensures Split(a + [c] + t, c) == [a] + Split(t, c)
    decreases |a|
  {
    if |a| == 0 {
      assert a + [c] + t == [c] + t;
      assert ([c] + t)[1..] == t;
    } else {
      assert c !in a[1..];
      SplitAfterPiece(a[1..], c, t);
      assert (a + [c] + t)[1..] == a[1..] + [c] + t;
      assert a == [a[0]] + a[1..];
    }
  }

  /**
   * Joining pieces that do not contain the separator can be undone by
   * splitting: every piece comes back once, in order.
   */
  lemma {:induction false} SplitJoin(xs: seq<string>, c: char)
    requires |xs| >= 1
    requires forall i :: 0 <= i < |xs| ==> c !in xs[i]
    ensures Split(Join(xs, [c]), c) == xs
  {
    if |xs| == 1 {
      SplitWithoutSeparator(xs[0], c);
    } else {
      SplitJoin(xs[1..], c);
      SplitAfterPiece(xs[0], c, Join(xs[1..], [c]));
      assert xs == [xs[0]] + xs[1..];
    }
  }

  /** A join of a non-empty list starts with its first piece. */
  lemma {:induction false} JoinStartsWithFirst(xs: seq<string>, sep: string)
    requires |xs| >= 1
    ensures StartsWith(Join(xs, sep), xs[0])
  {
    if |xs| > 1 {
      assert Join(xs, sep)[..|xs[0]|] == xs[0];
    }
  }

  // ---------------------------------------------------------------------
  // "\n".join(sorted(...))

  /** `"\n".join(sorted(names))`. */
  function SortedLines(names: seq<string>): string
  {
    Join(Sort(names), "\n")
  }

  /** `"\n".join(sorted(d.keys()))`. */
  function SortedKeyLines(keys: set<string>): string
  {
    Join(SortSet(keys), "\n")
  }

  /**
   * An empty listing gives an empty cell, and splitting that cell gives one
   * empty line, not none: the recovery lemmas below need at least one name.
   */
  lemma SortedLinesEmpty()
    ensures SortedLines([]) == ""
    ensures SortedKeyLines({}) == ""
    ensures Split("", '\n') == [""]
  {
  }

  /** No name contains a line break. */
  predicate SingleLine(names: seq<string>)
  {
    forall i :: 0 <= i < |names| ==> '\n' !in names[i]
  }

  /**
   * The lines of `SortedLines(names)` are the names themselves, each as often
   * as it was given, in ascending order. An empty list gives the empty text.
   */
  lemma SortedLinesRecover(names: seq<string>)
    requires |names| >= 1 && SingleLine(names)
    ensures Sorted(Split(SortedLines(names), '\n'))
    ensures multiset(Split(SortedLines(names), '\n')) == multiset(names)
  {
    var sorted := Sort(names);
    SortCorrect(names);
    assert |multiset(sorted)| == |sorted| && |multiset(names)| == |names|;
    forall i | 0 <= i < |sorted| ensures '\n' !in sorted[i] {
      assert sorted[i] in multiset(sorted);
      var j :| 0 <= j < |names| && names[j] == sorted[i];
    }
    SplitJoin(sorted, '\n');
  }

  /** The lines of `SortedKeyLines(keys)` are the keys, each exactly once, in strictly ascending order. */
  lemma SortedKeyLinesRecover(keys: set<string>)
    requires keys != {} && forall k :: k in keys ==> '\n' !in k
    ensures StrictlySorted(Split(SortedKeyLines(keys), '\n'))
    ensures forall x :: x in Split(SortedKeyLines(keys), '\n') <==> x in keys
    ensures |Split(SortedKeyLines(keys), '\n')| == |keys|
  {
    var sorted := SortSet(keys);
    SortSetCorrect(keys);
    forall i | 0 <= i < |sorted| ensures '\n' !in sorted[i] {
      assert sorted[i] in sorted;
    }
    SplitJoin(sorted, '\n');
  }
}
