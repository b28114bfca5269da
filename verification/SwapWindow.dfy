/** choose_window of shared_probe.c. */
module SwapWindow {
  import opened Words
  import opened SwapEntries

  const PAGES: nat := 17
  const CANDIDATES: nat := 33

  /** What the probe needs: 17 swapped pages of one type in one cluster, at consecutive offsets. */
  predicate Eligible(values: seq<u64>, start: nat)
    requires start + PAGES <= |values|
  {
    forall j :: 0 <= j < PAGES ==> InPlace(values, start, j)
  }

  predicate InPlace(values: seq<u64>, start: nat, j: nat)
    requires start + j < |values|
  {
    var v, first := values[start + j], values[start];
    IsSwap(v) && TypeOf(v) == TypeOf(first) && OffsetOf(v) == OffsetOf(first) + j && ClusterOf(v) == ClusterOf(first)
  }

  /** The test the loops make. */
  predicate Follows(values: seq<u64>, start: nat, j: nat)
    requires start + j < |values|
  {
    IsSwap(values[start + j]) && SlotOf(values[start + j]) == SlotOf(values[start]) + 32 * j
  }

  predicate InOneCluster(v: u64) {
    OffsetOf(v) / CLUSTER_SLOTS == (OffsetOf(v) + PAGES - 1) / CLUSTER_SLOTS
  }

  /** Stepping whole slots of 32 keeps the type and moves the offset. */
  lemma FollowingSlot(v: u64, first: u64, j: nat)
    ensures SlotOf(v) == SlotOf(first) + 32 * j <==> TypeOf(v) == TypeOf(first) && OffsetOf(v) == OffsetOf(first) + j
  {
  }

  lemma TestIsEligible(values: seq<u64>, start: nat)
    requires start + PAGES <= |values|
    ensures InOneCluster(values[start]) && (forall j :: 0 <= j < PAGES ==> Follows(values, start, j)) <==>
      Eligible(values, start)
  {
    var first := values[start];
    forall j | 0 <= j < PAGES
      ensures InPlace(values, start, j) ==> Follows(values, start, j)
      ensures InOneCluster(first) && Follows(values, start, j) ==> InPlace(values, start, j)
    {
      FollowingSlot(values[start + j], first, j);
      if InOneCluster(first) {
        Between(OffsetOf(first), j);
      }
    }
    if Eligible(values, start) {
      assert InPlace(values, start, PAGES - 1);
    }
  }

  lemma Between(off: nat, j: nat)
    requires j < PAGES && off / CLUSTER_SLOTS == (off + PAGES - 1) / CLUSTER_SLOTS
    ensures (off + j) / CLUSTER_SLOTS == off / CLUSTER_SLOTS
  {
  }

  /** The answer: the least eligible start, or -1 if there is none. */
  predicate IsChoice(values: seq<u64>, start: int)
    requires |values| == CANDIDATES
  {
    if start == -1 then forall s :: 0 <= s <= CANDIDATES - PAGES ==> !Eligible(values, s)
    else
      && 0 <= start <= CANDIDATES - PAGES && Eligible(values, start)
      && forall s :: 0 <= s < start ==> !Eligible(values, s)
  }

  /** choose_window. */
  method ChooseWindow(values: seq<u64>) returns (start: int)
    requires |values| == CANDIDATES
    ensures IsChoice(values, start)
  {
    start := 0;
    while start <= CANDIDATES - PAGES
      invariant 0 <= start <= CANDIDATES - PAGES + 1
      invariant forall s :: 0 <= s < start ==> !Eligible(values, s)
    {
      TestIsEligible(values, start);
      if InOneCluster(values[start]) {
        var valid := true;
        for j := 0 to PAGES
          invariant valid <==> forall k :: 0 <= k < j ==> Follows(values, start, k)
        {
          if !Follows(values, start, j) {
            valid := false;
          }
        }
        if valid {
          return;
        }
      }
      start := start + 1;
    }
    start := -1;
  }

  /** The candidates were paged out to consecutive slots. */
  predicate Contiguous(values: seq<u64>) {
    |values| == CANDIDATES && forall j :: 0 <= j < CANDIDATES ==> Follows(values, 0, j)
  }

  /** Where the window of contiguous candidates is: at the front, unless that crosses a cluster boundary, and then
      at the boundary. */
  function ClosedForm(off: nat): nat {
    if off % CLUSTER_SLOTS <= CLUSTER_SLOTS - PAGES then 0 else CLUSTER_SLOTS - off % CLUSTER_SLOTS
  }

  predicate Fits(off: nat, s: nat) {
    (off + s) % CLUSTER_SLOTS <= CLUSTER_SLOTS - PAGES
  }

  lemma ContiguousWindow(values: seq<u64>, s: nat)
    requires Contiguous(values) && s <= CANDIDATES - PAGES
    ensures Eligible(values, s) <==> Fits(OffsetOf(values[0]), s)
  {
    TestIsEligible(values, s);
    assert Follows(values, 0, s);
    FollowingSlot(values[s], values[0], s);
    forall j | 0 <= j < PAGES ensures Follows(values, s, j) {
      var k := s + j;
      assert Follows(values, 0, k);
    }
    FitsInCluster(OffsetOf(values[0]) + s);
  }

  lemma FitsInCluster(off: nat)
    ensures off / CLUSTER_SLOTS == (off + PAGES - 1) / CLUSTER_SLOTS <==> off % CLUSTER_SLOTS <= CLUSTER_SLOTS - PAGES
  {
  }

  /** 33 contiguous candidates always contain a window, at any offset, and the closed form says where: the formula
      that the program's own self-test samples. */
  lemma ContiguousChoice(values: seq<u64>, start: int)
    requires Contiguous(values)
    ensures IsChoice(values, start) <==> start == ClosedForm(OffsetOf(values[0]))
  {
    var off := OffsetOf(values[0]);
    forall s: nat | s <= CANDIDATES - PAGES ensures Eligible(values, s) <==> Fits(off, s) {
      ContiguousWindow(values, s);
    }
    LeastFit(off);
    assert Eligible(values, ClosedForm(off));
  }

  lemma LeastFit(off: nat)
    ensures var c := ClosedForm(off);
      c <= CANDIDATES - PAGES && Fits(off, c) && forall s: nat :: s < c ==> !Fits(off, s)
  {
  }
}
