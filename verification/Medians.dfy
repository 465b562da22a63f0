/**
 The median of measured durations (src/core/calibration.ts, `median`), over reals.
 */
module Medians {

  predicate IsSorted(s: seq<real>) { forall i, j :: 0 <= i < j < |s| ==> s[i] <= s[j] }

  function Insert(s: seq<real>, x: real): (r: seq<real>)
    requires IsSorted(s)
    ensures IsSorted(r) && multiset(r) == multiset(s) + multiset{x} && |r| == |s| + 1
  {
    if |s| == 0 then [x]
    else
      var last := s[|s| - 1];
      assert s == s[..|s| - 1] + [last];
      if last <= x then s + [x]
      else
        var front := Insert(s[..|s| - 1], x);
        AllBelow(front, s[..|s| - 1], x, last);
        front + [last]
  }

  lemma AllBelow(front: seq<real>, s: seq<real>, x: real, bound: real)
    requires multiset(front) == multiset(s) + multiset{x} && x <= bound && forall i :: 0 <= i < |s| ==> s[i] <= bound
    ensures forall i :: 0 <= i < |front| ==> front[i] <= bound
  {
    forall i | 0 <= i < |front|
      ensures front[i] <= bound
    {
      assert front[i] in multiset(front);
      assert front[i] == x || front[i] in multiset(s);
    }
  }

  function Sort(xs: seq<real>): (r: seq<real>)
    ensures IsSorted(r) && multiset(r) == multiset(xs) && |r| == |xs|
  {
    if |xs| == 0 then []
    else
      assert xs == xs[..|xs| - 1] + [xs[|xs| - 1]];
      Insert(Sort(xs[..|xs| - 1]), xs[|xs| - 1])
  }

  function Middle(s: seq<real>): real {
    var n := |s|;
    if n == 0 then 0.0
    else if n % 2 == 1 then s[(n - 1) / 2]
    else (s[n / 2 - 1] + s[n / 2]) / 2.0
  }

  function Median(xs: seq<real>): real { Middle(Sort(xs)) }

  predicate In(x: real, lo: real, hi: real) { lo <= x <= hi }

  /** How many values lie in [lo, hi]. */
  function Count(xs: seq<real>, lo: real, hi: real): (c: nat)
    ensures c <= |xs|
  {
    if |xs| == 0 then 0 else Count(xs[..|xs| - 1], lo, hi) + if In(xs[|xs| - 1], lo, hi) then 1 else 0
  }

  lemma {:induction false} CountConcat(a: seq<real>, b: seq<real>, lo: real, hi: real)
    ensures Count(a + b, lo, hi) == Count(a, lo, hi) + Count(b, lo, hi)
  {
    if |b| == 0 {
      assert a + b == a;
    } else {
      CountConcat(a, b[..|b| - 1], lo, hi);
      assert (a + b)[..|a + b| - 1] == a + b[..|b| - 1];
    }
  }

  lemma {:induction false} CountNone(xs: seq<real>, lo: real, hi: real)
    requires forall i :: 0 <= i < |xs| ==> !In(xs[i], lo, hi)
    ensures Count(xs, lo, hi) == 0
  {
    if |xs| > 0 { CountNone(xs[..|xs| - 1], lo, hi); }
  }

  lemma {:induction false} CountAll(xs: seq<real>, lo: real, hi: real)
    requires forall i :: 0 <= i < |xs| ==> In(xs[i], lo, hi)
    ensures Count(xs, lo, hi) == |xs|
  {
    if |xs| > 0 { CountAll(xs[..|xs| - 1], lo, hi); }
  }

  lemma {:induction false} CountInsert(s: seq<real>, x: real, lo: real, hi: real)
    requires IsSorted(s)
    ensures Count(Insert(s, x), lo, hi) == Count(s, lo, hi) + if In(x, lo, hi) then 1 else 0
  {
    if |s| > 0 {
      var last := s[|s| - 1];
      if last <= x {
        assert (s + [x])[..|s|] == s;
      } else {
        var front := Insert(s[..|s| - 1], x);
        CountInsert(s[..|s| - 1], x, lo, hi);
        assert (front + [last])[..|front|] == front;
      }
    }
  }

  lemma {:induction false} CountSort(xs: seq<real>, lo: real, hi: real)
    ensures Count(Sort(xs), lo, hi) == Count(xs, lo, hi)
  {
    if |xs| > 0 {
      CountSort(xs[..|xs| - 1], lo, hi);
      CountInsert(Sort(xs[..|xs| - 1]), xs[|xs| - 1], lo, hi);
    }
  }

  /** When the k-th smallest value is below the range, so are the k before it. */
  lemma BelowCounts(s: seq<real>, k: nat, lo: real, hi: real)
    requires IsSorted(s) && k < |s| && s[k] < lo
    ensures Count(s, lo, hi) <= |s| - k - 1
  {
    assert s == s[..k + 1] + s[k + 1..];
    CountConcat(s[..k + 1], s[k + 1..], lo, hi);
    CountNone(s[..k + 1], lo, hi);
  }

  lemma AboveCounts(s: seq<real>, k: nat, lo: real, hi: real)
    requires IsSorted(s) && k < |s| && s[k] > hi
    ensures Count(s, lo, hi) <= k
  {
    assert s == s[..k] + s[k..];
    CountConcat(s[..k], s[k..], lo, hi);
    CountNone(s[k..], lo, hi);
  }

  lemma SortedMajority(s: seq<real>, lo: real, hi: real)
    requires IsSorted(s) && 2 * Count(s, lo, hi) > |s|
    ensures In(Middle(s), lo, hi)
  {
    hide Count;
    var n := |s|;
    var low, high := if n % 2 == 1 then (n - 1) / 2 else n / 2 - 1, n / 2;
    assert s[low] <= s[high];
    assert Middle(s) == (s[low] + s[high]) / 2.0;
    hide IsSorted, Middle;
    if s[low] < lo { BelowCounts(s, low, lo, hi); }
    if s[high] > hi { AboveCounts(s, high, lo, hi); }
  }

  /** The median's resistance: a majority inside a range keeps the median there. */
  lemma MajorityHolds(xs: seq<real>, lo: real, hi: real)
    requires 2 * Count(xs, lo, hi) > |xs|
    ensures In(Median(xs), lo, hi)
  {
    hide IsSorted, Sort, Count, Middle;
    CountSort(xs, lo, hi);
    SortedMajority(Sort(xs), lo, hi);
  }

  lemma MedianWithin(xs: seq<real>, lo: real, hi: real)
    requires |xs| > 0 && forall i :: 0 <= i < |xs| ==> In(xs[i], lo, hi)
    ensures In(Median(xs), lo, hi)
  {
    CountAll(xs, lo, hi);
    MajorityHolds(xs, lo, hi);
  }

  lemma {:induction false} Greatest(xs: seq<real>) returns (m: real)
    requires |xs| > 0
    ensures forall i :: 0 <= i < |xs| ==> xs[i] <= m
  {
    if |xs| == 1 {
      m := xs[0];
    } else {
      m := Greatest(xs[..|xs| - 1]);
      if xs[|xs| - 1] > m { m := xs[|xs| - 1]; }
    }
  }

  lemma MedianAtLeast(xs: seq<real>, lo: real)
    requires |xs| > 0 && forall i :: 0 <= i < |xs| ==> lo <= xs[i]
    ensures lo <= Median(xs)
  {
    hide Median;
    var hi := Greatest(xs);
    MedianWithin(xs, lo, hi);
  }

  /** Some value is at most the median. */
  lemma MedianReached(xs: seq<real>)
    requires |xs| > 0
    ensures exists i :: 0 <= i < |xs| && xs[i] <= Median(xs)
  {
    var s := Sort(xs);
    assert s[0] <= Middle(s);
    assert s[0] in multiset(s) && s[0] in multiset(xs);
  }

  lemma LastIsGreatest(s: seq<real>, x: real)
    requires IsSorted(s) && x in multiset(s)
    ensures |s| > 0 && x <= s[|s| - 1]
  {
    var i :| 0 <= i < |s| && s[i] == x;
  }

  lemma SplitLast(s: seq<real>)
    requires |s| > 0
    ensures multiset(s) == multiset(s[..|s| - 1]) + multiset{s[|s| - 1]}
    ensures s == s[..|s| - 1] + [s[|s| - 1]]
    ensures s[|s| - 1] in multiset(s)
  {
    assert s == s[..|s| - 1] + [s[|s| - 1]];
  }

  lemma Cancel(a: multiset<real>, b: multiset<real>, x: real)
    requires a + multiset{x} == b + multiset{x}
    ensures a == b
  {
    assert a == (a + multiset{x}) - multiset{x};
  }

  lemma SplitFirst(x: real, s: seq<real>)
    ensures multiset([x] + s) == multiset{x} + multiset(s)
  {
  }

  lemma SameSize(s: seq<real>, t: seq<real>)
    requires multiset(s) == multiset(t)
    ensures |s| == |t|
  {
    assert |s| == |multiset(s)| && |t| == |multiset(t)|;
  }

  lemma {:induction false} SortedIsUnique(s: seq<real>, t: seq<real>)
    requires IsSorted(s) && IsSorted(t) && multiset(s) == multiset(t)
    ensures s == t
  {
    SameSize(s, t);
    if |s| == 0 {
    } else {
      SplitLast(s);
      SplitLast(t);
      LastIsGreatest(s, t[|t| - 1]);
      LastIsGreatest(t, s[|s| - 1]);
      var front, back := s[..|s| - 1], t[..|t| - 1];
      assert IsSorted(front) && IsSorted(back);
      hide IsSorted;
      Cancel(multiset(front), multiset(back), s[|s| - 1]);
      SortedIsUnique(front, back);
    }
  }

  lemma MedianOfSorted(s: seq<real>)
    requires IsSorted(s)
    ensures Median(s) == Middle(s)
  {
    hide IsSorted, Sort;
    SortedIsUnique(s, Sort(s));
  }

  /** The order in which the values were measured does not matter. */
  lemma OrderDoesNotMatter(xs: seq<real>, ys: seq<real>)
    requires multiset(xs) == multiset(ys)
    ensures Median(xs) == Median(ys)
  {
    SortedIsUnique(Sort(xs), Sort(ys));
  }

  /** The values reflected about c/2, in reverse order. */
  function Mirror(s: seq<real>, c: real): (r: seq<real>)
    ensures |r| == |s|
  { if |s| == 0 then [] else [c - s[|s| - 1]] + Mirror(s[..|s| - 1], c) }

  lemma {:induction false} MirrorAt(s: seq<real>, c: real, i: nat)
    requires i < |s|
    ensures Mirror(s, c)[i] == c - s[|s| - 1 - i]
  {
    if i > 0 { MirrorAt(s[..|s| - 1], c, i - 1); }
  }

  lemma {:induction false} MirrorCounts(s: seq<real>, c: real, y: real)
    ensures multiset(Mirror(s, c))[y] == multiset(s)[c - y]
  {
    if |s| > 0 {
      var x, rest := s[|s| - 1], Mirror(s[..|s| - 1], c);
      assert Mirror(s, c) == [c - x] + rest;
      MirrorCounts(s[..|s| - 1], c, y);
      hide Mirror;
      SplitLast(s);
      SplitFirst(c - x, rest);
    }
  }

  lemma MirrorSorted(s: seq<real>, c: real)
    requires IsSorted(s)
    ensures IsSorted(Mirror(s, c))
  {
    hide Mirror;
    forall i, j | 0 <= i < j < |s|
      ensures Mirror(s, c)[i] <= Mirror(s, c)[j]
    {
      MirrorAt(s, c, i);
      MirrorAt(s, c, j);
    }
  }

  lemma MirrorSame(s: seq<real>, t: seq<real>, c: real)
    requires multiset(s) == multiset(t)
    ensures multiset(Mirror(s, c)) == multiset(Mirror(t, c))
  {
    forall y: real
      ensures multiset(Mirror(s, c))[y] == multiset(Mirror(t, c))[y]
    {
      MirrorCounts(s, c, y);
      MirrorCounts(t, c, y);
    }
  }

  lemma MirrorMiddle(s: seq<real>, c: real)
    requires |s| > 0
    ensures Middle(Mirror(s, c)) == c - Middle(s)
  {
    hide Mirror;
    var n := |s|;
    MirrorAt(s, c, n / 2);
    if n % 2 == 1 {
      assert (n - 1) / 2 == n / 2 == n - 1 - n / 2;
    } else {
      MirrorAt(s, c, n / 2 - 1);
    }
  }

  /** No side is favoured: reflecting every value about c/2 reflects the median. */
  lemma MedianMirrors(xs: seq<real>, c: real)
    requires |xs| > 0
    ensures Median(Mirror(xs, c)) == c - Median(xs)
  {
    hide IsSorted, Insert, Sort, Mirror, Middle;
    var s := Sort(xs);
    MirrorMiddle(s, c);
    MirrorSorted(s, c);
    MirrorSame(xs, s, c);
    SortedIsUnique(Mirror(s, c), Sort(Mirror(xs, c)));
  }
}
