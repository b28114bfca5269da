/** The anchors of remaining.c: one page kept per swap cluster, and the refills of the pages between them. */
module Anchors {
  import opened Words
  import opened SwapEntries

  /** The clusters of the swapped pages among the first n. */
  function Clusters(v: seq<u64>, n: nat): set<nat>
    requires n <= |v|
  {
    if n == 0 then {}
    else if IsSwap(v[n - 1]) then Clusters(v, n - 1) + {ClusterOf(v[n - 1])}
    else Clusters(v, n - 1)
  }

  lemma {:induction false} ClustersHold(v: seq<u64>, n: nat, c: nat)
    requires n <= |v|
    ensures c in Clusters(v, n) <==> exists j :: 0 <= j < n && IsSwap(v[j]) && ClusterOf(v[j]) == c
  {
    if n != 0 {
      ClustersHold(v, n - 1, c);
    }
  }

  /** The search of the inner loop. */
  method Find(clusters: array<nat>, count: nat, c: nat) returns (k: nat)
    requires count <= clusters.Length
    ensures k <= count && c !in clusters[..k] && (k < count ==> clusters[k] == c)
  {
    k := 0;
    while k < count && clusters[k] != c
      invariant k <= count && c !in clusters[..k]
    {
      k := k + 1;
    }
  }

  /** The buffer lists the clusters found so far, each once. */
  ghost predicate Lists(clusters: seq<nat>, found: set<nat>) {
    |clusters| == |found| && forall c :: c in clusters <==> c in found
  }

  lemma ListsMore(clusters: seq<nat>, found: set<nat>, c: nat)
    requires Lists(clusters, found)
    ensures c in clusters ==> found + {c} == found
    ensures c !in clusters ==> Lists(clusters + [c], found + {c})
  {
  }

  /** One page of cluster_count. */
  method Note(clusters: array<nat>, count: nat, c: nat, ghost found: set<nat>) returns (after: nat)
    requires count < clusters.Length && Lists(clusters[..count], found)
    modifies clusters
    ensures after <= count + 1 && Lists(clusters[..after], found + {c})
  {
    ghost var before := clusters[..count];
    ListsMore(before, found, c);
    var k := Find(clusters, count, c);
    after := count;
    if k == count {
      assert clusters[..k] == before;
      clusters[k] := c;
      after := count + 1;
      assert clusters[..after] == before + [c];
    } else {
      assert c == before[k];
    }
  }

  /** cluster_count: the number of distinct clusters. */
  method ClusterCount(v: seq<u64>) returns (count: nat)
    ensures count == |Clusters(v, |v|)|
  {
    var clusters := new nat[|v|];
    count := 0;
    for j := 0 to |v|
      invariant count <= j && Lists(clusters[..count], Clusters(v, j))
    {
      if IsSwap(v[j]) {
        count := Note(clusters, count, ClusterOf(v[j]), Clusters(v, j));
      }
    }
  }

  /** No earlier page lies in the cluster of page j. */
  predicate IsFirst(v: seq<u64>, j: nat)
    requires j < |v|
  {
    forall k :: 0 <= k < j ==> ClusterOf(v[k]) != ClusterOf(v[j])
  }

  /** How many of the first n pages are kept. */
  function Kept(keep: seq<bool>, n: nat): nat
    requires n <= |keep|
  {
    if n == 0 then 0 else Kept(keep, n - 1) + if keep[n - 1] then 1 else 0
  }

  ghost predicate IsSelection(v: seq<u64>, keep: seq<bool>) {
    |keep| == |v| && forall j :: 0 <= j < |v| ==> (keep[j] <==> IsFirst(v, j))
  }

  /** The anchor loop of lifecycle. */
  method Select(v: seq<u64>, keep: array<bool>) returns (anchors: nat)
    requires keep.Length == |v| && forall j :: 0 <= j < |v| ==> !keep[j]
    modifies keep
    ensures IsSelection(v, keep[..]) && anchors == Kept(keep[..], |v|)
  {
    anchors := 0;
    for j := 0 to |v|
      invariant forall i :: 0 <= i < j ==> (keep[i] <==> IsFirst(v, i))
      invariant forall i :: j <= i < |v| ==> !keep[i]
      invariant anchors == Kept(keep[..], j)
    {
      var k := 0;
      while k < j && ClusterOf(v[k]) != ClusterOf(v[j])
        invariant k <= j && forall i :: 0 <= i < k ==> ClusterOf(v[i]) != ClusterOf(v[j])
      {
        k := k + 1;
      }
      ghost var before := keep[..];
      if k == j {
        keep[j] := true;
        anchors := anchors + 1;
      }
      KeptPrefix(before, keep[..], j);
    }
  }

  lemma {:induction false} KeptPrefix(a: seq<bool>, b: seq<bool>, n: nat)
    requires n <= |a| == |b| && a[..n] == b[..n]
    ensures Kept(a, n) == Kept(b, n)
  {
    if n != 0 {
      assert a[..n - 1] == a[..n][..n - 1] && b[..n - 1] == b[..n][..n - 1];
      assert a[n - 1] == a[..n][n - 1] && b[n - 1] == b[..n][n - 1];
      KeptPrefix(a, b, n - 1);
    }
  }

  /** Every page shares its cluster with exactly one kept page, the first in it. */
  lemma OneAnchorPerPage(v: seq<u64>, keep: seq<bool>, j: nat) returns (anchor: nat)
    requires IsSelection(v, keep) && j < |v|
    ensures anchor <= j && keep[anchor] && ClusterOf(v[anchor]) == ClusterOf(v[j])
    ensures forall i :: 0 <= i < |v| && keep[i] && ClusterOf(v[i]) == ClusterOf(v[j]) ==> i == anchor
  {
    anchor := FirstIn(v, j);
    assert IsFirst(v, anchor);
    forall i | 0 <= i < |v| && keep[i] && ClusterOf(v[i]) == ClusterOf(v[j]) ensures i == anchor {
      assert IsFirst(v, i);
    }
  }

  lemma {:induction false} FirstIn(v: seq<u64>, j: nat) returns (f: nat)
    requires j < |v|
    ensures f <= j && ClusterOf(v[f]) == ClusterOf(v[j]) && IsFirst(v, f)
  {
    if IsFirst(v, j) {
      f := j;
    } else {
      var k :| 0 <= k < j && ClusterOf(v[k]) == ClusterOf(v[j]);
      f := FirstIn(v, k);
    }
  }

  /** The anchors are as many as the distinct clusters that cluster_count reports for the same pages. */
  lemma {:induction false} AnchorsCountClusters(v: seq<u64>, keep: seq<bool>, n: nat)
    requires IsSelection(v, keep) && n <= |v| && forall j :: 0 <= j < |v| ==> IsSwap(v[j])
    ensures Kept(keep, n) == |Clusters(v, n)|
  {
    if n != 0 {
      var m := n - 1;
      AnchorsCountClusters(v, keep, m);
      ClustersHold(v, m, ClusterOf(v[m]));
      assert keep[m] <==> IsFirst(v, m);
      if !keep[m] {
        assert Clusters(v, n) == Clusters(v, m);
      }
    }
  }

  /** One call of the refill loop: the pages from start up to end. */
  datatype Run = Run(start: nat, end: nat)

  /** A maximal run of pages that are not kept. */
  predicate IsRun(keep: seq<bool>, r: Run) {
    && r.start < r.end <= |keep| && (forall j :: r.start <= j < r.end ==> !keep[j])
    && (r.start > 0 ==> keep[r.start - 1]) && (r.end < |keep| ==> keep[r.end])
  }

  predicate Covered(runs: seq<Run>, j: nat) {
    exists i :: 0 <= i < |runs| && runs[i].start <= j < runs[i].end
  }

  /** The runs found before page n: maximal, in order with a kept page between them, and covering just the pages to
      refill. */
  ghost predicate AreRuns(keep: seq<bool>, runs: seq<Run>, n: nat)
    requires n <= |keep|
  {
    && (forall i :: 0 <= i < |runs| ==> IsRun(keep, runs[i]) && runs[i].end <= n)
    && (forall i, k :: 0 <= i < k < |runs| ==> runs[i].end < runs[k].start)
    && (forall j :: 0 <= j < n ==> (Covered(runs, j) <==> !keep[j]))
  }

  /** The refill loop of lifecycle. */
  method Refill(keep: seq<bool>) returns (runs: seq<Run>)
    ensures AreRuns(keep, runs, |keep|)
  {
    runs := [];
    var j := 0;
    while j < |keep|
      invariant j <= |keep| && AreRuns(keep, runs, j) && (0 < j < |keep| ==> keep[j - 1] || keep[j])
    {
      if keep[j] {
        assert !Covered(runs, j);
        j := j + 1;
      } else {
        var k := j;
        while k < |keep| && !keep[k]
          invariant j <= k <= |keep| && forall i :: j <= i < k ==> !keep[i]
        {
          k := k + 1;
        }
        OneMoreRun(keep, runs, j, k);
        runs := runs + [Run(j, k)];
        j := k;
      }
    }
  }

  lemma OneMoreRun(keep: seq<bool>, runs: seq<Run>, j: nat, k: nat)
    requires j < k <= |keep| && AreRuns(keep, runs, j) && (j > 0 ==> keep[j - 1])
    requires IsRun(keep, Run(j, k))
    ensures AreRuns(keep, runs + [Run(j, k)], k)
  {
    var more := runs + [Run(j, k)];
    forall i | 0 <= i < |runs| ensures runs[i].end < j {
      assert IsRun(keep, runs[i]);
    }
    forall x | 0 <= x < k ensures Covered(more, x) <==> !keep[x] {
      if Covered(runs, x) {
        var i :| 0 <= i < |runs| && runs[i].start <= x < runs[i].end;
        assert more[i] == runs[i];
      }
      if x >= j {
        assert more[|runs|] == Run(j, k);
      }
    }
  }

  /** Every run starts just after a kept page, and no two after the same one, so with page 0 kept there are no more
      calls than anchors. */
  lemma {:induction false} CallsBound(keep: seq<bool>, runs: seq<Run>, n: nat)
    requires n <= |runs| && AreRuns(keep, runs, |keep|) && |keep| > 0 && keep[0]
    ensures n > 0 ==> n <= Kept(keep, runs[n - 1].start)
  {
    if n != 0 {
      var m := n - 1;
      CallsBound(keep, runs, m);
      var s := runs[m].start;
      assert IsRun(keep, runs[m]);
      assert s > 0 && keep[s - 1];
      if m > 0 {
        KeptGrows(keep, runs[m - 1].start, s - 1);
      }
    }
  }

  lemma {:induction false} KeptGrows(keep: seq<bool>, m: nat, n: nat)
    requires m <= n <= |keep|
    ensures Kept(keep, m) <= Kept(keep, n)
  {
    if m < n {
      KeptGrows(keep, m, n - 1);
    }
  }

  /** The first page is always an anchor, so the refill never makes more calls than there are anchors. */
  lemma NoMoreCallsThanAnchors(v: seq<u64>, keep: seq<bool>, runs: seq<Run>)
    requires |v| > 0 && IsSelection(v, keep) && AreRuns(keep, runs, |keep|)
    ensures |runs| <= Kept(keep, |keep|)
  {
    assert IsFirst(v, 0);
    if |runs| > 0 {
      CallsBound(keep, runs, |runs|);
      assert IsRun(keep, runs[|runs| - 1]);
      KeptGrows(keep, runs[|runs| - 1].start, |keep|);
    }
  }
}
