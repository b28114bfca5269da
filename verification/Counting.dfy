/** Pigeonhole facts about sequences of keys, on which every completion check rests. */
module Counting {
  predicate Distinct(ks: seq<int>) {
    forall i, j :: 0 <= i < j < |ks| ==> ks[i] != ks[j]
  }

  predicate InRange(ks: seq<int>, n: nat) {
    forall j :: 0 <= j < |ks| ==> 0 <= ks[j] < n
  }

  /** Every key below n occurs. */
  predicate Covers(ks: seq<int>, n: nat) {
    forall k :: 0 <= k < n ==> k in ks
  }

  lemma {:induction false} DistinctBound(ks: seq<int>, n: nat)
    requires Distinct(ks) && InRange(ks, n)
    ensures |ks| <= n
  {
    if |ks| > 0 {
      var first := ks[0];
      if p :| 0 <= p < |ks| && ks[p] == n - 1 {
        DistinctBound(ks[..p] + ks[p + 1..], n - 1);
      } else {
        DistinctBound(ks, n - 1);
      }
    }
  }

  lemma OntoByCount(ks: seq<int>, n: nat)
    requires Distinct(ks) && InRange(ks, n) && |ks| == n
    ensures Covers(ks, n)
  {
    forall k | 0 <= k < n ensures k in ks {
      if k !in ks {
        DistinctBound(ks + [k], n);
      }
    }
  }

  /** The first position of a key. */
  function IndexOf(ks: seq<int>, k: int): (p: nat)
    requires k in ks
    ensures p < |ks| && ks[p] == k && k !in ks[..p]
  {
    if ks[0] == k then 0 else
      assert k in ks[1..];
      var p := 1 + IndexOf(ks[1..], k);
      assert ks[..p] == [ks[0]] + ks[1..][..p - 1];
      p
  }

  lemma {:induction false} IndexOfFirst(ks: seq<int>, p: nat)
    requires p < |ks| && ks[p] !in ks[..p]
    ensures IndexOf(ks, ks[p]) == p
  {
    if p > 0 {
      assert ks[..p] == [ks[0]] + ks[1..][..p - 1];
      assert ks[0] in ks[..p];
      IndexOfFirst(ks[1..], p - 1);
    }
  }

  lemma CoversPositions(ks: seq<int>, n: nat)
    requires Covers(ks, n)
    ensures n <= |ks|
    ensures n == |ks| ==> Distinct(ks) && InRange(ks, n)
  {
    var ps := seq(n, k requires 0 <= k < n => IndexOf(ks, k));
    assert forall k :: 0 <= k < n ==> ks[ps[k]] == k;
    DistinctBound(ps, |ks|);
    if n == |ks| {
      OntoByCount(ps, n);
      forall j | 0 <= j < |ks| ensures 0 <= ks[j] < n && ps[ks[j]] == j {
        assert j in ps;
        var k :| 0 <= k < n && ps[k] == j;
      }
    }
  }

  /** Covering n keys with n entries, and covering them without repeats or strays, are the same. */
  lemma ExactCover(ks: seq<int>, n: nat)
    requires Covers(ks, n)
    ensures |ks| == n <==> Distinct(ks) && InRange(ks, n)
  {
    CoversPositions(ks, n);
    if Distinct(ks) && InRange(ks, n) {
      DistinctBound(ks, n);
    }
  }

  /** The same for sequences of anything. */
  predicate NoRepeats<T(==)>(xs: seq<T>) {
    forall i, j :: 0 <= i < j < |xs| ==> xs[i] != xs[j]
  }

  lemma RepeatsGrow<T>(xs: seq<T>, x: T)
    ensures NoRepeats(xs + [x]) <==> NoRepeats(xs) && x !in xs
  {
    var more := xs + [x];
    if NoRepeats(more) {
      assert forall i :: 0 <= i < |xs| ==> more[i] == xs[i] && more[i] != more[|xs|];
    }
  }

  lemma {:induction false} CountedOnce<T>(xs: seq<T>, x: T)
    requires NoRepeats(xs)
    ensures multiset(xs)[x] == if x in xs then 1 else 0
  {
    if |xs| != 0 {
      var m := |xs| - 1;
      assert xs == xs[..m] + [xs[m]];
      RepeatsGrow(xs[..m], xs[m]);
      CountedOnce(xs[..m], x);
    }
  }

  /** As many elements as ys has, all different and all from ys: that is ys in some order. */
  lemma AllOfThem<T>(xs: seq<T>, ys: seq<T>)
    requires NoRepeats(xs) && NoRepeats(ys) && |xs| == |ys| && forall j :: 0 <= j < |xs| ==> xs[j] in ys
    ensures multiset(xs) == multiset(ys)
  {
    var a, b := multiset(xs), multiset(ys);
    forall x ensures a[x] <= b[x] {
      CountedOnce(xs, x);
      CountedOnce(ys, x);
    }
    assert b == a + (b - a) && |b - a| == 0;
  }
}
