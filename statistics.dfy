/**
 * The numeric helpers of the per-URL aggregate: sum, maximum, and
 * `statistics.median`, which sorts its data and takes the middle value or
 * the mean of the two middle values.
 */
module Statistics {

  function Sum(s: seq<nat>): nat {
    if s == [] then 0 else Sum(s[..|s| - 1]) + s[|s| - 1]
  }

  /** `max` folded from the start value 0, as `time_max` is. */
  function Max0(s: seq<nat>): nat {
    if s == [] then 0 else (var m := Max0(s[..|s| - 1]); if s[|s| - 1] > m then s[|s| - 1] else m)
  }

  lemma {:induction false} SumAppend(s: seq<nat>, x: nat)
    ensures Sum(s + [x]) == Sum(s) + x
  {
    assert (s + [x])[..|s|] == s;
  }

  lemma {:induction false} Max0Append(s: seq<nat>, x: nat)
    ensures Max0(s + [x]) == if x > Max0(s) then x else Max0(s)
  {
    assert (s + [x])[..|s|] == s;
  }

  /** `Max0` is the largest sample, and for a non-empty sequence one of them. */
  lemma {:induction false} Max0IsMaximum(s: seq<nat>)
    ensures forall i :: 0 <= i < |s| ==> s[i] <= Max0(s)
    ensures |s| > 0 ==> Max0(s) in s
  {
    if s != [] {
      var init := s[..|s| - 1];
      Max0IsMaximum(init);
      assert s == init + [s[|s| - 1]];
      forall i | 0 <= i < |s| ensures s[i] <= Max0(s) {
        if i < |init| { assert s[i] == init[i]; }
      }
    }
  }

  predicate Sorted(s: seq<nat>) {
    forall i, j :: 0 <= i < j < |s| ==> s[i] <= s[j]
  }

  /** Insertion of `x` before the first element not smaller than it. */
  function Insert(s: seq<nat>, x: nat): (r: seq<nat>)
    ensures |r| == |s| + 1
  {
    if s == [] || x <= s[0] then [x] + s
    else [s[0]] + Insert(s[1..], x)
  }

  /** Insertion adds exactly `x`. */
  lemma {:induction false} InsertAddsOne(s: seq<nat>, x: nat)
    ensures multiset(Insert(s, x)) == multiset(s) + multiset{x}
  {
    if s != [] && x > s[0] {
      InsertAddsOne(s[1..], x);
      assert s == [s[0]] + s[1..];
      assert Insert(s, x) == [s[0]] + Insert(s[1..], x);
    }
  }

  /** Insertion into an ascending sequence keeps it ascending. */
  lemma {:induction false} InsertKeepsSorted(s: seq<nat>, x: nat)
    requires Sorted(s)
    ensures Sorted(Insert(s, x))
    ensures Insert(s, x)[0] == x || (|s| > 0 && Insert(s, x)[0] == s[0])
  {
    if s != [] && x > s[0] {
      var rest := Insert(s[1..], x);
      InsertKeepsSorted(s[1..], x);
      var r := [s[0]] + rest;
      assert Insert(s, x) == r;
      assert s[0] <= rest[0];
      forall i, j | 0 <= i < j < |r| ensures r[i] <= r[j] {
        if i > 0 {
          assert r[i] == rest[i - 1] && r[j] == rest[j - 1];
        } else {
          assert r[j] == rest[j - 1];
          assert rest[0] <= rest[j - 1];
        }
      }
    }
  }

  /** `sorted(data)`: an ascending permutation of the samples. */
  function Sort(s: seq<nat>): (r: seq<nat>)
    ensures Sorted(r) && multiset(r) == multiset(s)
  {
    if s == [] then []
    else
      var init := s[..|s| - 1];
      var rest := Sort(init);
      InsertKeepsSorted(rest, s[|s| - 1]);
      InsertAddsOne(rest, s[|s| - 1]);
      assert s == init + [s[|s| - 1]];
      Insert(rest, s[|s| - 1])
  }

  /** The first element of an ascending sequence is its least. */
  lemma SortedHeadIsLeast(a: seq<nat>, x: nat)
    requires Sorted(a) && x in multiset(a)
    ensures |a| > 0 && a[0] <= x
  {
    var i :| 0 <= i < |a| && a[i] == x;
  }

  lemma MultisetTail(a: seq<nat>)
    requires a != []
    ensures multiset(a[1..]) == multiset(a) - multiset{a[0]}
  {
    assert a == [a[0]] + a[1..];
  }

  /** Two ascending sequences with the same elements start alike. */
  lemma SortedHeads(a: seq<nat>, b: seq<nat>)
    requires Sorted(a) && Sorted(b) && multiset(a) == multiset(b) && a != []
    ensures b != [] && a[0] == b[0]
  {
    assert a[0] in multiset(b);
    SortedHeadIsLeast(b, a[0]);
    SortedHeadIsLeast(a, b[0]);
  }

  /** Two ascending sequences with the same elements are equal. */
  lemma {:induction false} SortedUnique(a: seq<nat>, b: seq<nat>)
    requires Sorted(a) && Sorted(b) && multiset(a) == multiset(b)
    ensures a == b
  {
    if a == [] {
      assert |b| == |multiset(b)| == 0;
    } else {
      SortedHeads(a, b);
      MultisetTail(a);
      MultisetTail(b);
      SortedUnique(a[1..], b[1..]);
      assert a == [a[0]] + a[1..] && b == [b[0]] + b[1..];
    }
  }

  /** `statistics.median`, in the unit of the samples. */
  function Median(s: seq<nat>): real
    requires |s| > 0
  {
    var t := Sort(s);
    assert |t| == |multiset(t)| == |s|;
    var n := |t|;
    if n % 2 == 1 then t[n / 2] as real else (t[n / 2 - 1] + t[n / 2]) as real / 2.0
  }

  /** The median does not depend on the order in which the samples arrived. */
  lemma MedianIgnoresOrder(a: seq<nat>, b: seq<nat>)
    requires |a| > 0 && multiset(a) == multiset(b)
    ensures |b| > 0 && Median(a) == Median(b)
  {
    assert |a| == |multiset(a)| == |b|;
    SortedUnique(Sort(a), Sort(b));
  }

  /** The median of a sorted sequence is its middle element, or the mean of its two middle elements. */
  lemma MedianOfSorted(s: seq<nat>)
    requires |s| > 0 && Sorted(s)
    ensures |s| % 2 == 1 ==> Median(s) == s[|s| / 2] as real
    ensures |s| % 2 == 0 ==> Median(s) == (s[|s| / 2 - 1] + s[|s| / 2]) as real / 2.0
  {
    SortedUnique(Sort(s), s);
  }

  /** The median lies within any bounds of the samples. */
  lemma MedianBetween(s: seq<nat>, lo: nat, hi: nat)
    requires |s| > 0
    requires forall i :: 0 <= i < |s| ==> lo <= s[i] <= hi
    ensures lo as real <= Median(s) <= hi as real
  {
    var t := Sort(s);
    assert |t| == |multiset(t)| == |s|;
    forall k | 0 <= k < |t| ensures lo <= t[k] <= hi {
      assert t[k] in multiset(s);
    }
  }
}
