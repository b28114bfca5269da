/** The provided-buffer ring of io_uring_net_round.c: 64 descriptors, recycled by a free-running 16-bit tail. */
module BufferRing {
  import opened Words

  const ENTRIES: nat := 64
  const BATCH: nat := 32

  /** The ring shared with the kernel: which buffer each descriptor names, and the two 16-bit counters. Only the
      kernel moves head. */
  class Pbufs {
    const bids: array<nat>
    var tail: u16
    var head: u16

    /** The descriptors published and not yet consumed, oldest first. */
    ghost function Live(): (w: seq<nat>)
      requires bids.Length == ENTRIES
      reads this, bids
      ensures |w| == (tail - head) % TWO16
    {
      Window(bids[..], head, (tail - head) % TWO16)
    }

    /** setup_pbuf: every buffer published once, in order. */
    constructor ()
      ensures fresh(bids) && bids.Length == ENTRIES && head == 0
      ensures Live() == Identity(ENTRIES)
    {
      bids := new nat[ENTRIES](_ => 0);
      tail, head := 0, 0;
      new;
      for i := 0 to ENTRIES
        invariant head == 0 && tail == i && fresh(bids) && bids.Length == ENTRIES
        invariant Live() == Identity(i)
      {
        Publish(i);
        assert Identity(i + 1) == Identity(i) + [i];
      }
    }

    /** publish_buffer. While a slot is free the new descriptor joins the queue and none that is waiting is
        overwritten, wherever the 16-bit counters stand. */
    method Publish(bid: nat)
      requires bids.Length == ENTRIES
      modifies this`tail, bids
      ensures tail == (old(tail) + 1) % TWO16
      ensures bids[..] == old(bids[..])[old(tail) % ENTRIES := bid]
      ensures |old(Live())| < ENTRIES ==> Live() == old(Live()) + [bid]
    {
      ghost var before, n := bids[..], |Live()|;
      if n < ENTRIES {
        WindowGrows(before, head, tail, n, bid);
      }
      bids[tail % ENTRIES] := bid;
      tail := (tail + 1) % TWO16;
      assert bids[..] == before[old(tail) % ENTRIES := bid];
    }

    /** The kernel takes n descriptors. */
    method Consume(n: nat)
      requires bids.Length == ENTRIES
      modifies this`head
      ensures head == (old(head) + n) % TWO16
      ensures n <= |old(Live())| ==> Live() == old(Live())[n..]
    {
      if n <= |Live()| {
        WindowShrinks(bids[..], head, |Live()|, n);
        assert (tail - (head + n) % TWO16) % TWO16 == (tail - head) % TWO16 - n;
      }
      head := (head + n) % TWO16;
    }
  }

  function Identity(n: nat): (s: seq<nat>)
    ensures |s| == n && forall i :: 0 <= i < n ==> s[i] == i
  {
    seq(n, i requires 0 <= i < n => i)
  }

  /** n descriptors from a counter on. */
  function Window(bids: seq<nat>, head: u16, n: nat): (w: seq<nat>)
    requires |bids| == ENTRIES
    ensures |w| == n && forall k :: 0 <= k < n ==> w[k] == bids[(head + k) % ENTRIES]
  {
    seq(n, k requires 0 <= k < n => bids[(head + k) % ENTRIES])
  }

  lemma WindowGrows(bids: seq<nat>, head: u16, tail: u16, n: nat, bid: nat)
    requires |bids| == ENTRIES && n < ENTRIES && n == (tail - head) % TWO16
    ensures ((tail + 1) % TWO16 - head) % TWO16 == n + 1
    ensures Window(bids[tail % ENTRIES := bid], head, n + 1) == Window(bids, head, n) + [bid]
  {
    var after := bids[tail % ENTRIES := bid];
    assert tail % ENTRIES == (head + n) % ENTRIES;
    forall k | 0 <= k < n ensures Window(after, head, n)[k] == Window(bids, head, n)[k] {
      assert (head + k) % ENTRIES != (head + n) % ENTRIES;
    }
    assert Window(after, head, n) == Window(bids, head, n);
    assert Window(after, head, n + 1) == Window(after, head, n) + [bid];
  }

  lemma WindowShrinks(bids: seq<nat>, head: u16, n: nat, m: nat)
    requires |bids| == ENTRIES && m <= n
    ensures Window(bids, (head + m) % TWO16, n - m) == Window(bids, head, n)[m..]
  {
    forall k | 0 <= k < n - m
      ensures Window(bids, (head + m) % TWO16, n - m)[k] == Window(bids, head, n)[m..][k]
    {
      var q := (head + m) / TWO16;
      assert head + m == TWO16 * q + (head + m) % TWO16;
      assert head + m + k == ENTRIES * (1024 * q) + ((head + m) % TWO16 + k);
      SameResidue(head + m + k, (head + m) % TWO16 + k, 1024 * q, ENTRIES);
    }
  }

  /** The window holds each buffer exactly once. */
  ghost predicate Full(w: seq<nat>) {
    && |w| == ENTRIES && (forall k :: 0 <= k < ENTRIES ==> w[k] < ENTRIES)
    && forall i, j :: 0 <= i < j < ENTRIES ==> w[i] != w[j]
  }

  /** Taking the oldest batch and publishing it again. */
  function Rotated(w: seq<nat>): (r: seq<nat>)
    requires |w| >= BATCH
    ensures |r| == |w|
  {
    w[BATCH..] + w[..BATCH]
  }

  lemma RotatedIsFull(w: seq<nat>)
    requires Full(w)
    ensures Full(Rotated(w)) && Rotated(Rotated(w)) == w
  {
  }

  /** The window at the start of batch b. */
  function WindowAt(w: seq<nat>, b: nat): (r: seq<nat>)
    requires |w| >= BATCH
    ensures |r| == |w|
  {
    if b == 0 then w else Rotated(WindowAt(w, b - 1))
  }

  /** Two windows alternate for ever. */
  lemma {:induction false} WindowsAlternate(w: seq<nat>, b: nat)
    requires Full(w)
    ensures Full(WindowAt(w, b)) && WindowAt(w, b) == if b % 2 == 0 then w else Rotated(w)
  {
    RotatedIsFull(w);
    if b != 0 {
      WindowsAlternate(w, b - 1);
    }
  }
}
