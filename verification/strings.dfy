/**
 String vocabulary used by the column-name handling: Python's ordering of
 `str` values (which `np.unique` sorts by), `str.split`, slicing prefixes and
 suffixes, and ASCII digit runs.
 */
module Strings {

  import opened Common

  /** Python's `a < b` on `str`: lexicographic order of code points. */
  predicate LexLess(a: string, b: string)
    decreases |a|
  {
    |b| > 0 && (|a| == 0 || a[0] < b[0] || (a[0] == b[0] && LexLess(a[1..], b[1..])))
  }

  lemma {:induction false} LexIrreflexive(a: string)
    ensures !LexLess(a, a)
    decreases |a|
  {
    if |a| > 0 {
      LexIrreflexive(a[1..]);
    }
  }

  lemma {:induction false} LexTransitive(a: string, b: string, c: string)
    requires LexLess(a, b) && LexLess(b, c)
    ensures LexLess(a, c)
    decreases |a|
  {
    if |a| > 0 && a[0] == b[0] && b[0] == c[0] {
      LexTransitive(a[1..], b[1..], c[1..]);
    }
  }

  lemma {:induction false} LexTotal(a: string, b: string)
    requires a != b
    ensures LexLess(a, b) || LexLess(b, a)
    decreases |a|
  {
    if |a| > 0 && |b| > 0 && a[0] == b[0] {
      assert a == [a[0]] + a[1..] && b == [b[0]] + b[1..];
      LexTotal(a[1..], b[1..]);
    }
  }

  ghost predicate StrictlySorted(s: seq<string>)
  {
    forall i, j :: 0 <= i < j < |s| ==> LexLess(s[i], s[j])
  }

  lemma StrictlySortedDistinct(s: seq<string>)
    requires StrictlySorted(s)
    ensures forall i, j :: 0 <= i < j < |s| ==> s[i] != s[j]
  {
    forall i, j | 0 <= i < j < |s|
      ensures s[i] != s[j]
    {
      LexIrreflexive(s[i]);
    }
  }

  /** In a strictly sorted sequence equal entries sit at the same index. */
  lemma SortedSameIndex(s: seq<string>, i: nat, j: nat)
    requires StrictlySorted(s) && i < |s| && j < |s| && s[i] == s[j]
    ensures i == j
  {
    LexIrreflexive(s[i]);
  }

  /** Adds `x` to a strictly sorted sequence unless it is already there. */
  function InsertUnique(x: string, s: seq<string>): (r: seq<string>)
    requires StrictlySorted(s)
    ensures StrictlySorted(r)
    ensures forall y :: y in r <==> y == x || y in s
  {
    if |s| == 0 then [x]
    else if x == s[0] then s
    else if LexLess(x, s[0]) then
      assert forall j :: 0 < j < |s| ==> LexLess(x, s[j]) by {
        forall j | 0 < j < |s| ensures LexLess(x, s[j]) {
          LexTransitive(x, s[0], s[j]);
        }
      }
      [x] + s
    else
      LexTotal(x, s[0]);
      var t := InsertUnique(x, s[1..]);
      assert forall i :: 0 <= i < |t| ==> LexLess(s[0], t[i]) by {
        forall i | 0 <= i < |t| ensures LexLess(s[0], t[i]) {
          assert t[i] in t;
          if t[i] != x {
            assert t[i] in s[1..];
            var k :| 0 <= k < |s[1..]| && s[1..][k] == t[i];
            assert s[k + 1] == t[i];
          }
        }
      }
      [s[0]] + t
  }

  /** `np.unique` on a list of strings: the distinct values, in ascending order. */
  function Unique(xs: seq<string>): (r: seq<string>)
    ensures StrictlySorted(r)
    ensures forall y :: y in r <==> y in xs
  {
    if |xs| == 0 then [] else InsertUnique(xs[0], Unique(xs[1..]))
  }

  lemma SameElementsBothEmpty<T>(a: seq<T>, b: seq<T>)
    requires forall y :: y in a <==> y in b
    ensures |a| == 0 ==> |b| == 0
  {
    if |b| > 0 {
      assert b[0] in b;
      assert b[0] in a;
    }
  }

  lemma SortedHeadsAgree(a: seq<string>, b: seq<string>)
    requires StrictlySorted(a) && StrictlySorted(b) && |a| > 0 && |b| > 0
    requires forall y :: y in a <==> y in b
    ensures !LexLess(b[0], a[0])
  {
    if LexLess(b[0], a[0]) {
      assert b[0] in b;
      var k :| 0 <= k < |a| && a[k] == b[0];
      if k > 0 {
        LexTransitive(b[0], a[0], a[k]);
      }
      LexIrreflexive(b[0]);
    }
  }

  /**
   A strictly sorted sequence is determined by its elements, so `Unique`'s
   contract characterises its result completely.
   */
  lemma {:induction false} StrictlySortedUnique(a: seq<string>, b: seq<string>)
    requires StrictlySorted(a) && StrictlySorted(b)
    requires forall y :: y in a <==> y in b
    ensures a == b
    decreases |a|
  {
    SameElementsBothEmpty(a, b);
    SameElementsBothEmpty(b, a);
    if |a| > 0 && |b| > 0 {
      SortedHeadsAgree(a, b);
      SortedHeadsAgree(b, a);
      if a[0] != b[0] {
        LexTotal(a[0], b[0]);
      }
      forall y ensures y in a[1..] <==> y in b[1..] {
        if y in a[1..] {
          var k :| 0 <= k < |a[1..]| && a[1..][k] == y;
          assert LexLess(a[0], y);
          LexIrreflexive(y);
          assert y in b;
        }
        if y in b[1..] {
          var k :| 0 <= k < |b[1..]| && b[1..][k] == y;
          assert LexLess(b[0], y);
          LexIrreflexive(y);
          assert y in a;
        }
      }
      StrictlySortedUnique(a[1..], b[1..]);
      assert a == [a[0]] + a[1..] && b == [b[0]] + b[1..];
    }
  }

  /** Python's `s.split(sep)` on a one-character separator. */
  function Split(s: string, sep: char): (r: seq<string>)
    ensures |r| >= 1
    ensures forall i :: 0 <= i < |r| ==> sep !in r[i]
    ensures Join(r, sep) == s
  {
    if |s| == 0 then [""]
    else
      var t := Split(s[1..], sep);
      if s[0] == sep then
        assert s == [sep] + s[1..];
        [""] + t
      else
        assert Join([[s[0]] + t[0]] + t[1..], sep) == [s[0]] + Join(t, sep) by {
          if |t| > 1 {
            assert ([[s[0]] + t[0]] + t[1..])[1..] == t[1..];
          }
        }
        assert s == [s[0]] + s[1..];
        [[s[0]] + t[0]] + t[1..]
  }

  /** A string holding the separator splits into at least two fields, so `split(sep)[1]` exists. */
  lemma {:induction false} SplitHasSecondField(s: string, sep: char)
    requires sep in s
    ensures |Split(s, sep)| >= 2
    decreases |s|
  {
    if s[0] != sep {
      assert sep in s[1..] by {
        var k :| 0 <= k < |s| && s[k] == sep;
        assert s[1..][k - 1] == sep;
      }
      SplitHasSecondField(s[1..], sep);
    }
  }

  /** `sep.join(parts)`. */
  function Join(parts: seq<string>, sep: char): string
    requires |parts| >= 1
  {
    if |parts| == 1 then parts[0] else parts[0] + [sep] + Join(parts[1..], sep)
  }

  /** Splitting undoes joining whenever no part contains the separator. */
  lemma {:induction false} SplitJoin(parts: seq<string>, sep: char)
    requires |parts| >= 1
    requires forall i :: 0 <= i < |parts| ==> sep !in parts[i]
    ensures Split(Join(parts, sep), sep) == parts
    decreases |parts|, |parts[0]|
  {
    if |parts[0]| > 0 {
      var p0 := parts[0];
      var rest := [p0[1..]] + parts[1..];
      SplitJoin(rest, sep);
      JoinHeadChar(parts, sep);
      assert p0[0] != sep by {
        assert p0[0] in parts[0];
      }
      SplitCons(p0[0], Join(rest, sep), sep);
      assert [p0[0]] + rest[0] == p0;
      assert parts == [p0] + rest[1..];
    } else if |parts| > 1 {
      SplitJoin(parts[1..], sep);
      assert Join(parts, sep) == [sep] + Join(parts[1..], sep);
      SplitCons(sep, Join(parts[1..], sep), sep);
      assert parts == [""] + parts[1..];
    }
  }

  /** Joining parts whose first part is non-empty starts with that part's first character. */
  lemma JoinHeadChar(parts: seq<string>, sep: char)
    requires |parts| >= 1 && |parts[0]| > 0
    ensures Join(parts, sep) == [parts[0][0]] + Join([parts[0][1..]] + parts[1..], sep)
  {
    var rest := [parts[0][1..]] + parts[1..];
    if |parts| > 1 {
      assert rest[1..] == parts[1..];
    }
  }

  /** One step of `split`: a separator opens a new field, any other character extends the first. */
  lemma SplitCons(c: char, s: string, sep: char)
    ensures c == sep ==> Split([c] + s, sep) == [""] + Split(s, sep)
    ensures c != sep ==> Split([c] + s, sep) == [[c] + Split(s, sep)[0]] + Split(s, sep)[1..]
  {
    assert ([c] + s)[1..] == s;
  }

  /** `s.split(sep)[k]`, or `None` when there are not that many fields (an IndexError). */
  function Field(s: string, sep: char, k: nat): (r: Option<string>)
  {
    var parts := Split(s, sep);
    if k < |parts| then Some(parts[k]) else None
  }

  /** `s[:n]` */
  function Take(s: string, n: nat): (r: string)
  {
    if |s| >= n then s[..n] else s
  }

  /** `s[-2:]` */
  function LastTwo(s: string): (r: string)
  {
    if |s| >= 2 then s[|s| - 2..] else s
  }

  predicate StartsWith(s: string, prefix: string)
  {
    |prefix| <= |s| && s[..|prefix|] == prefix
  }

  predicate IsDigit(c: char) { '0' <= c <= '9' }

  /** A non-empty run of ASCII digits, as the regular expression `[0-9]+` matches. */
  predicate IsDigits(s: string)
  {
    |s| > 0 && forall i :: 0 <= i < |s| ==> IsDigit(s[i])
  }

  /** The longest prefix of `s` made of ASCII digits: what a greedy `[0-9]+` consumes. */
  function DigitPrefix(s: string): (r: string)
    ensures |r| <= |s| && r == s[..|r|]
    ensures forall i :: 0 <= i < |r| ==> IsDigit(r[i])
    ensures |r| < |s| ==> !IsDigit(s[|r|])
  {
    if |s| == 0 || !IsDigit(s[0]) then [] else [s[0]] + DigitPrefix(s[1..])
  }

  /** A digit run followed by a non-digit (or the end) is exactly the greedy digit prefix. */
  lemma {:induction false} DigitPrefixOf(s: string, n: nat)
    requires n <= |s|
    requires forall i :: 0 <= i < n ==> IsDigit(s[i])
    requires n == |s| || !IsDigit(s[n])
    ensures DigitPrefix(s) == s[..n]
    decreases n
  {
    if n > 0 {
      DigitPrefixOf(s[1..], n - 1);
      assert s[..n] == [s[0]] + s[1..][..n - 1];
    }
  }
}
