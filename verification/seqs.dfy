/**
 Sequence vocabulary shared by the engine: order-preserving filters (every
 list comprehension with an `if` in the source), the first position of a
 minimum (`list.index(min(list))`), and the second entry of a descending sort.
 */
module Seqs {

  /** `a` is obtained from `b` by deleting some elements and keeping the rest in order. */
  ghost predicate IsSubseq<T>(a: seq<T>, b: seq<T>)
    decreases |b|
  {
    |a| == 0 || (|b| > 0 && ((a[0] == b[0] && IsSubseq(a[1..], b[1..])) || IsSubseq(a, b[1..])))
  }

  /** Number of entries of `s` that satisfy `p`. */
  function Count<T>(s: seq<T>, p: T -> bool): nat
  {
    if |s| == 0 then 0 else (if p(s[0]) then 1 else 0) + Count(s[1..], p)
  }

  /** `[x for x in s if p(x)]`. */
  function Filter<T>(s: seq<T>, p: T -> bool): (r: seq<T>)
    ensures IsSubseq(r, s)
    ensures forall i :: 0 <= i < |r| ==> p(r[i])
    ensures forall i :: 0 <= i < |s| && p(s[i]) ==> s[i] in r
    ensures forall i :: 0 <= i < |r| ==> r[i] in s
    ensures |r| == Count(s, p)
  {
    if |s| == 0 then []
    else if p(s[0]) then [s[0]] + Filter(s[1..], p)
    else Filter(s[1..], p)
  }

  lemma {:induction false} IsSubseqRefl<T>(s: seq<T>)
    ensures IsSubseq(s, s)
    decreases |s|
  {
    if |s| > 0 {
      IsSubseqRefl(s[1..]);
    }
  }

  lemma {:induction false} CountAll<T>(s: seq<T>, p: T -> bool)
    requires forall i :: 0 <= i < |s| ==> p(s[i])
    ensures Count(s, p) == |s|
    decreases |s|
  {
    if |s| > 0 {
      CountAll(s[1..], p);
    }
  }

  /** Entries satisfying `p` and entries satisfying its negation `q` together make up `s`. */
  lemma {:induction false} CountComplement<T>(s: seq<T>, p: T -> bool, q: T -> bool)
    requires forall x :: p(x) <==> !q(x)
    ensures Count(s, p) + Count(s, q) == |s|
    decreases |s|
  {
    if |s| > 0 {
      CountComplement(s[1..], p, q);
    }
  }

  /** A subsequence whose entries all satisfy `p` has at most `Count(s, p)` entries. */
  lemma {:induction false} SubseqCountBound<T>(r: seq<T>, s: seq<T>, p: T -> bool)
    requires IsSubseq(r, s)
    requires forall i :: 0 <= i < |r| ==> p(r[i])
    ensures |r| <= Count(s, p)
    decreases |s|
  {
    if |r| == 0 {
    } else if r[0] == s[0] && IsSubseq(r[1..], s[1..]) {
      SubseqCountBound(r[1..], s[1..], p);
    } else {
      SubseqCountBound(r, s[1..], p);
    }
  }

  /**
   The three properties every filter in the model states determine the result:
   an in-order subsequence of `s`, all of whose entries satisfy `p`, with as
   many entries as `s` has such elements, IS `Filter(s, p)`.
   */
  lemma {:induction false} FilterUnique<T>(r: seq<T>, s: seq<T>, p: T -> bool)
    requires IsSubseq(r, s)
    requires forall i :: 0 <= i < |r| ==> p(r[i])
    requires |r| == Count(s, p)
    ensures r == Filter(s, p)
    decreases |s|
  {
    if |s| == 0 {
    } else if |r| == 0 {
      assert |Filter(s, p)| == 0;
    } else if p(s[0]) {
      if !(r[0] == s[0] && IsSubseq(r[1..], s[1..])) {
        SubseqCountBound(r, s[1..], p);
        assert false;
      }
      FilterUnique(r[1..], s[1..], p);
      assert r == [r[0]] + r[1..];
    } else {
      assert !(r[0] == s[0]) by { assert p(r[0]); }
      FilterUnique(r, s[1..], p);
    }
  }

  /** The first position holding the minimum of a non-empty sequence. */
  function FirstArgMin(xs: seq<real>): (k: nat)
    requires |xs| > 0
    ensures k < |xs|
    ensures forall i :: 0 <= i < |xs| ==> xs[k] <= xs[i]
    ensures forall i :: 0 <= i < k ==> xs[i] > xs[k]
  {
    if |xs| == 1 then 0
    else
      var k := FirstArgMin(xs[1..]) + 1;
      if xs[0] <= xs[k] then 0 else k
  }

  /** Number of entries strictly above `v`. */
  function CountAbove(xs: seq<real>, v: real): nat
  {
    if |xs| == 0 then 0 else (if xs[0] > v then 1 else 0) + CountAbove(xs[1..], v)
  }

  /** Number of entries at or above `v`. */
  function CountAtLeast(xs: seq<real>, v: real): nat
  {
    if |xs| == 0 then 0 else (if xs[0] >= v then 1 else 0) + CountAtLeast(xs[1..], v)
  }

  lemma {:induction false} CountAboveAntitone(xs: seq<real>, v: real, w: real)
    requires v <= w
    ensures CountAbove(xs, w) <= CountAbove(xs, v)
    decreases |xs|
  {
    if |xs| > 0 {
      CountAboveAntitone(xs[1..], v, w);
    }
  }

  lemma {:induction false} CountAtLeastAntitone(xs: seq<real>, v: real, w: real)
    requires v <= w
    ensures CountAtLeast(xs, w) <= CountAtLeast(xs, v)
    decreases |xs|
  {
    if |xs| > 0 {
      CountAtLeastAntitone(xs[1..], v, w);
    }
  }

  /** Every entry at or above `w` is strictly above any `v < w`. */
  lemma {:induction false} CountAtLeastBelowAbove(xs: seq<real>, v: real, w: real)
    requires v < w
    ensures CountAtLeast(xs, w) <= CountAbove(xs, v)
    decreases |xs|
  {
    if |xs| > 0 {
      CountAtLeastBelowAbove(xs[1..], v, w);
    }
  }

  /**
   "At most one entry above it and at least two entries at or above it"
   pins down a single value: the second entry of the sequence sorted in
   descending order, duplicates counted.
   */
  ghost predicate IsSecondLargest(xs: seq<real>, v: real)
  {
    CountAbove(xs, v) <= 1 && CountAtLeast(xs, v) >= 2
  }

  lemma SecondLargestUnique(xs: seq<real>, v: real, w: real)
    requires IsSecondLargest(xs, v) && IsSecondLargest(xs, w)
    ensures v == w
  {
    if v < w {
      CountAtLeastBelowAbove(xs, v, w);
    } else if w < v {
      CountAtLeastBelowAbove(xs, w, v);
    }
  }

  ghost predicate SortedDescending(s: seq<real>)
  {
    forall i, j :: 0 <= i < j < |s| ==> s[i] >= s[j]
  }

  /** Inserts `x` into a descending sequence before the first entry not above it. */
  function InsertDescending(x: real, s: seq<real>): (r: seq<real>)
    requires SortedDescending(s)
    ensures SortedDescending(r)
    ensures |r| == |s| + 1
    ensures multiset(r) == multiset(s) + multiset{x}
    ensures forall i :: 0 <= i < |r| ==> r[i] == x || r[i] in s
  {
    if |s| == 0 then [x]
    else if x >= s[0] then
      ConsSorted(x, s);
      [x] + s
    else
      var t := InsertDescending(x, s[1..]);
      HeadDominates(s, x, t);
      ConsSorted(s[0], t);
      assert s == [s[0]] + s[1..];
      [s[0]] + t
  }

  /** The head of a descending sequence is at least `x` below it and every later entry. */
  lemma HeadDominates(s: seq<real>, x: real, t: seq<real>)
    requires SortedDescending(s) && |s| > 0 && x < s[0]
    requires forall i :: 0 <= i < |t| ==> t[i] == x || t[i] in s[1..]
    ensures forall i :: 0 <= i < |t| ==> s[0] >= t[i]
  {
    forall i | 0 <= i < |t|
      ensures s[0] >= t[i]
    {
      if t[i] != x {
        var k :| 0 <= k < |s[1..]| && s[1..][k] == t[i];
        assert s[k + 1] == t[i];
      }
    }
  }

  lemma ConsSorted(h: real, t: seq<real>)
    requires SortedDescending(t) && forall i :: 0 <= i < |t| ==> h >= t[i]
    ensures SortedDescending([h] + t)
  {
    var r := [h] + t;
    forall i, j | 0 <= i < j < |r|
      ensures r[i] >= r[j]
    {
      assert r[j] == t[j - 1];
      if i > 0 {
        assert r[i] == t[i - 1];
      }
    }
  }

  lemma {:induction false} InsertCounts(x: real, s: seq<real>, v: real)
    requires SortedDescending(s)
    ensures CountAbove(InsertDescending(x, s), v) == CountAbove(s, v) + (if x > v then 1 else 0)
    ensures CountAtLeast(InsertDescending(x, s), v) == CountAtLeast(s, v) + (if x >= v then 1 else 0)
    decreases |s|
  {
    if |s| > 0 && x < s[0] {
      InsertCounts(x, s[1..], v);
      var r := InsertDescending(x, s);
      assert r[1..] == InsertDescending(x, s[1..]);
    } else if |s| > 0 {
      var r := InsertDescending(x, s);
      assert r[1..] == s;
    }
  }

  /** `sorted(xs, reverse=True)`, as an insertion sort. */
  function SortDescending(xs: seq<real>): (r: seq<real>)
    ensures SortedDescending(r)
    ensures |r| == |xs|
    ensures multiset(r) == multiset(xs)
  {
    if |xs| == 0 then []
    else
      var t := SortDescending(xs[1..]);
      assert xs == [xs[0]] + xs[1..];
      InsertDescending(xs[0], t)
  }

  /** Sorting keeps how many entries lie above (or at or above) any value. */
  lemma {:induction false} SortCounts(xs: seq<real>, v: real)
    ensures CountAbove(SortDescending(xs), v) == CountAbove(xs, v)
    ensures CountAtLeast(SortDescending(xs), v) == CountAtLeast(xs, v)
    decreases |xs|
  {
    if |xs| > 0 {
      SortCounts(xs[1..], v);
      InsertCounts(xs[0], SortDescending(xs[1..]), v);
    }
  }

  lemma {:induction false} NoneAbove(s: seq<real>, v: real)
    requires forall i :: 0 <= i < |s| ==> s[i] <= v
    ensures CountAbove(s, v) == 0
    decreases |s|
  {
    if |s| > 0 {
      NoneAbove(s[1..], v);
    }
  }

  /** `sorted(xs, reverse=True)[1]`: the second-largest entry, duplicates counted. */
  function SecondLargest(xs: seq<real>): (r: real)
    requires |xs| >= 2
    ensures IsSecondLargest(xs, r)
    ensures r in xs
  {
    var s := SortDescending(xs);
    SortCounts(xs, s[1]);
    assert CountAbove(s, s[1]) <= 1 by {
      NoneAbove(s[2..], s[1]);
      assert s[1..][1..] == s[2..];
    }
    assert CountAtLeast(s, s[1]) >= 2 by {
      assert s[1..][0] == s[1];
    }
    assert s[1] in multiset(xs);
    s[1]
  }

  /**
   A one-pass reference for the two largest entries (largest first), written
   independently of the sort.
   */
  function TopTwo(xs: seq<real>): (r: (real, real))
    requires |xs| >= 2
    ensures r.0 >= r.1
    ensures CountAbove(xs, r.0) == 0 && CountAtLeast(xs, r.0) >= 1
    ensures IsSecondLargest(xs, r.1)
    decreases |xs|
  {
    if |xs| == 2 then
      assert xs[1..][1..] == [];
      assert CountAbove(xs[1..][1..], xs[0]) == 0 && CountAtLeast(xs[1..][1..], xs[0]) == 0;
      assert CountAbove(xs[1..][1..], xs[1]) == 0 && CountAtLeast(xs[1..][1..], xs[1]) == 0;
      if xs[0] >= xs[1] then (xs[0], xs[1]) else (xs[1], xs[0])
    else
      var ab := TopTwo(xs[1..]);
      var a := ab.0;
      var b := ab.1;
      var x := xs[0];
      if x > a then
        CountAboveAntitone(xs[1..], a, x);
        (x, a)
      else if x > b then
        CountAboveAntitone(xs[1..], b, x);
        CountAtLeastAntitone(xs[1..], x, a);
        (a, x)
      else
        (a, b)
  }

  /** The sort-based second-deepest value and the one-pass reference agree. */
  lemma SecondLargestMatchesTopTwo(xs: seq<real>)
    requires |xs| >= 2
    ensures SecondLargest(xs) == TopTwo(xs).1
  {
    SecondLargestUnique(xs, SecondLargest(xs), TopTwo(xs).1);
  }

  /** `s[::-1]`. */
  function Reverse<T>(s: seq<T>): (r: seq<T>)
    ensures |r| == |s|
    ensures forall i :: 0 <= i < |s| ==> r[i] == s[|s| - 1 - i]
  {
    if |s| == 0 then [] else Reverse(s[1..]) + [s[0]]
  }
}
