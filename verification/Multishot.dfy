/** run_multishot of io_uring_net_round.c: batches of 32 datagrams received into buffers the kernel picks from the
    ring, checked, and recycled. */
module Multishot {
  import opened Words
  import opened Counting
  import opened Completions
  import opened Payloads
  import opened BufferRing

  const MSHOT_TAG: u64 := 0x4d00_0000_0000_0000
  const CANCEL_TAG: u64 := 0x4300_0000_0000_0000
  const F_BUFFER: nat := 1
  const F_MORE: nat := 2
  const EAGAIN: int := 11
  const ENOBUFS: int := 105
  const ECANCELED: int := 125

  type Payload = p: seq<nat> | |p| == PAYLOAD_BYTES witness seq(PAYLOAD_BYTES, _ => 0)

  /** The kernel's answers to one batch: how many descriptors it took, its completions, what the buffers hold
      afterwards, and the completions of the cancellation. */
  datatype Batch = Batch(filled: bool, entered: bool, consumed: nat, cqes: seq<Cqe>, memory: nat -> Payload,
                         cancelEntered: bool, cancelCqes: seq<Cqe>)

  /** before and after tell whether the two status calls succeed. */
  datatype Script = Script(before: bool, batches: nat -> Batch, after: bool, outstanding: nat, dropped: nat,
                           overflow: nat)

  datatype Tally = Tally(successful: nat, badResults: nat, badFlags: nat, badUserData: nat, duplicates: nat,
                         mismatches: nat, eagain: nat, enobufs: nat)

  const ZERO: Tally := Tally(0, 0, 0, 0, 0, 0, 0, 0)

  predicate Clean(t: Tally) {
    t == ZERO.(successful := t.successful)
  }

  class Result {
    var t: Tally

    constructor ()
      ensures t == ZERO
    {
      t := ZERO;
    }
  }

  /** The request of batch b, and its cancellation. */
  function RequestId(b: nat): u64
    requires b < TWO32
  {
    MSHOT_TAG + b
  }

  function CancelId(request: u64): u64 {
    CANCEL_TAG + request % TWO32
  }

  predicate HasMore(flags: u32) {
    flags / F_MORE % 2 == 1
  }

  predicate HasBuffer(flags: u32) {
    flags / F_BUFFER % 2 == 1
  }

  function Bid(flags: u32): (bid: nat)
    ensures bid < TWO16
  {
    flags / TWO16
  }

  /** More to come, a buffer chosen, no other flag, and a buffer that exists. */
  predicate Selected(flags: u32) {
    HasMore(flags) && HasBuffer(flags) && flags % TWO16 / 4 == 0 && Bid(flags) < ENTRIES
  }

  /** The flags word is exactly a buffer of the ring and the two flags. */
  predicate Picks(flags: u32, bid: nat) {
    bid < ENTRIES && flags == TWO16 * bid + F_MORE + F_BUFFER
  }

  lemma SelectedFlags(flags: u32)
    ensures Selected(flags) <==> Picks(flags, Bid(flags))
  {
    assert flags == TWO16 * Bid(flags) + flags % TWO16;
  }

  /** account_result. */
  function Account(t: Tally, e: Cqe, request: u64): Tally {
    t.(badUserData := t.badUserData + (if e.userData != request then 1 else 0),
       eagain := t.eagain + (if e.res == -EAGAIN then 1 else 0),
       enobufs := t.enobufs + (if e.res == -ENOBUFS then 1 else 0),
       badResults := t.badResults + (if e.res != PAYLOAD_BYTES then 1 else 0),
       successful := t.successful + (if e.res != PAYLOAD_BYTES then 0 else 1))
  }

  /** How far the check of a batch has got. */
  datatype Progress = Progress(t: Tally, seen: set<nat>, published: seq<nat>)

  ghost function Absorb(p: Progress, e: Cqe, request: u64, memory: nat -> Payload, sequence: u64): Progress {
    var t := Account(p.t, e, request);
    if !Selected(e.flags) then p.(t := t.(badFlags := t.badFlags + 1))
    else
      var bid := Bid(e.flags);
      Progress(t.(duplicates := t.duplicates + (if bid in p.seen then 1 else 0),
                  mismatches := t.mismatches + (if IsPayload(memory(bid), sequence) then 0 else 1)),
               p.seen + {bid}, p.published + [bid])
  }

  ghost function AbsorbAll(t: Tally, batch: Batch, b: nat, n: nat): Progress
    requires n <= |batch.cqes| && n <= BATCH && b < TWO32
  {
    if n == 0 then Progress(t, {}, []) else
      Absorb(AbsorbAll(t, batch, b, n - 1), batch.cqes[n - 1], RequestId(b), batch.memory, BATCH * b + n - 1)
  }

  ghost predicate GoodCqe(e: Cqe, request: u64, memory: nat -> Payload, sequence: u64) {
    && e.userData == request && e.res == PAYLOAD_BYTES
    && Picks(e.flags, Bid(e.flags)) && IsPayload(memory(Bid(e.flags)), sequence)
  }

  function BidsOf(cqes: seq<Cqe>, n: nat): (bids: seq<nat>)
    requires n <= |cqes|
    ensures |bids| == n && forall i :: 0 <= i < n ==> bids[i] == Bid(cqes[i].flags)
  {
    seq(n, i requires 0 <= i < n => Bid(cqes[i].flags))
  }

  ghost predicate GoodCqes(batch: Batch, b: nat, n: nat)
    requires n <= |batch.cqes| && n <= BATCH && b < TWO32
  {
    && (forall i :: 0 <= i < n ==> GoodCqe(batch.cqes[i], RequestId(b), batch.memory, BATCH * b + i))
    && NoRepeats(BidsOf(batch.cqes, n))
  }

  /** The counters stay clean exactly when every completion is right and no buffer is given out twice. */
  lemma {:induction false} AbsorbedMeans(t: Tally, batch: Batch, b: nat, n: nat)
    requires n <= |batch.cqes| && n <= BATCH && b < TWO32
    ensures var p := AbsorbAll(t, batch, b, n);
      && (Clean(p.t) <==> Clean(t) && GoodCqes(batch, b, n))
      && (Clean(p.t) ==> p.t.successful == t.successful + n && p.published == BidsOf(batch.cqes, n))
      && (forall x :: x in p.seen <==> x in p.published)
  {
    if n != 0 {
      var m := n - 1;
      AbsorbedMeans(t, batch, b, m);
      assert BATCH * b + n - 1 == BATCH * b + m;
      AbsorbedOne(AbsorbAll(t, batch, b, m), batch.cqes[m], RequestId(b), batch.memory, BATCH * b + m);
      GoodGrows(batch, b, m);
    }
  }

  lemma GoodGrows(batch: Batch, b: nat, m: nat)
    requires m < |batch.cqes| && m < BATCH && b < TWO32
    ensures GoodCqes(batch, b, m + 1) <==>
      GoodCqes(batch, b, m) && GoodCqe(batch.cqes[m], RequestId(b), batch.memory, BATCH * b + m) &&
      Bid(batch.cqes[m].flags) !in BidsOf(batch.cqes, m)
    ensures BidsOf(batch.cqes, m + 1) == BidsOf(batch.cqes, m) + [Bid(batch.cqes[m].flags)]
  {
    assert BidsOf(batch.cqes, m + 1) == BidsOf(batch.cqes, m) + [Bid(batch.cqes[m].flags)];
    RepeatsGrow(BidsOf(batch.cqes, m), Bid(batch.cqes[m].flags));
  }

  lemma AbsorbedOne(p: Progress, e: Cqe, request: u64, memory: nat -> Payload, sequence: u64)
    ensures var q := Absorb(p, e, request, memory, sequence);
      Clean(q.t) <==> Clean(p.t) && GoodCqe(e, request, memory, sequence) && Bid(e.flags) !in p.seen
  {
    SelectedFlags(e.flags);
  }

  /** The loop over the completions of one batch. While the window is short enough, the buffers published again
      queue up behind what is left of it. */
  method Recycle(batch: Batch, b: nat, ring: Pbufs, result: Result)
    requires ring.bids.Length == ENTRIES && |batch.cqes| == BATCH && b < TWO32
    modifies result, ring`tail, ring.bids
    ensures var p := AbsorbAll(old(result.t), batch, b, |batch.cqes|);
      && result.t == p.t
      && (|old(ring.Live())| <= ENTRIES - BATCH ==> ring.Live() == old(ring.Live()) + p.published)
  {
    var seen: set<nat> := {};
    ghost var w, t := ring.Live(), result.t;
    for i := 0 to BATCH
      invariant Progressed(AbsorbAll(t, batch, b, i), result.t, seen, ring, w, i)
    {
      seen := RecycleOne(batch.cqes[i], RequestId(b), batch.memory, BATCH * b + i, seen, ring, result,
                         AbsorbAll(t, batch, b, i), w, i);
    }
  }

  ghost predicate Progressed(p: Progress, t: Tally, seen: set<nat>, ring: Pbufs, w: seq<nat>, i: nat)
    requires ring.bids.Length == ENTRIES
    reads ring, ring.bids
  {
    && p.t == t && p.seen == seen && |p.published| <= i
    && (|w| <= ENTRIES - BATCH ==> ring.Live() == w + p.published)
  }

  method RecycleOne(e: Cqe, request: u64, memory: nat -> Payload, sequence: u64, seen: set<nat>, ring: Pbufs,
                    result: Result, ghost p: Progress, ghost w: seq<nat>, ghost i: nat)
    returns (seenAfter: set<nat>)
    requires ring.bids.Length == ENTRIES && i < BATCH && Progressed(p, result.t, seen, ring, w, i)
    modifies result, ring`tail, ring.bids
    ensures Progressed(Absorb(p, e, request, memory, sequence), result.t, seenAfter, ring, w, i + 1)
  {
    result.t := Account(result.t, e, request);
    if !Selected(e.flags) {
      result.t := result.t.(badFlags := result.t.badFlags + 1);
      return seen;
    }
    var bid := Bid(e.flags);
    if bid in seen {
      result.t := result.t.(duplicates := result.t.duplicates + 1);
    }
    seenAfter := seen + {bid};
    var same := Matches(memory(bid), sequence);
    if !same {
      result.t := result.t.(mismatches := result.t.mismatches + 1);
    }
    ring.Publish(bid);
  }

  predicate IsTerminal(e: Cqe, request: u64) {
    e.userData == request && e.res == -ECANCELED && !HasMore(e.flags)
  }

  predicate IsCancel(e: Cqe, request: u64) {
    e.userData == CancelId(request) && e.res == 0 && e.flags == 0
  }

  /** Two completions, one ending the request and one confirming the cancellation, in either order. */
  predicate Cancelled(cqes: seq<Cqe>, request: u64) {
    && |cqes| == 2
    && ((IsTerminal(cqes[0], request) && IsCancel(cqes[1], request)) ||
        (IsCancel(cqes[0], request) && IsTerminal(cqes[1], request)))
  }

  /** The check of cancel_multishot. */
  method CheckCancel(cqes: seq<Cqe>, request: u64, result: Result) returns (ok: bool)
    requires |cqes| == 2
    modifies result
    ensures ok <==> Cancelled(cqes, request)
    ensures ok ==> result.t == old(result.t)
  {
    var sawCancel, sawTerminal := false, false;
    for i := 0 to 2
      invariant sawTerminal <==> exists k :: 0 <= k < i && IsTerminal(cqes[k], request)
      invariant sawCancel <==> exists k :: 0 <= k < i && IsCancel(cqes[k], request)
      invariant (forall k :: 0 <= k < i ==> IsTerminal(cqes[k], request) || IsCancel(cqes[k], request)) ==>
        result.t == old(result.t)
    {
      if IsTerminal(cqes[i], request) {
        sawTerminal := true;
      } else if IsCancel(cqes[i], request) {
        sawCancel := true;
      } else {
        result.t := result.t.(badResults := result.t.badResults + 1);
      }
    }
    ok := sawCancel && sawTerminal;
  }

  /** Everything the program asks of one batch. */
  ghost predicate GoodBatch(batch: Batch, b: nat)
    requires b < TWO32
  {
    && batch.filled && batch.entered && |batch.cqes| == BATCH && GoodCqes(batch, b, |batch.cqes|)
    && batch.cancelEntered && Cancelled(batch.cancelCqes, RequestId(b))
  }

  /** The kernel takes the oldest 32 descriptors and reports only buffers it took, in any order. */
  ghost predicate TakesOldest(batch: Batch, w: seq<nat>) {
    && |batch.cqes| == BATCH == batch.consumed <= |w|
    && forall i :: 0 <= i < BATCH ==> BidsOf(batch.cqes, BATCH)[i] in w[..BATCH]
  }

  /** The window after a batch has been taken from its front and published again in the order reported. */
  function Renewed(w: seq<nat>, cqes: seq<Cqe>): seq<nat> {
    if |w| < BATCH then w else w[BATCH..] + BidsOf(cqes, |cqes|)
  }

  /** Every buffer still waits once, and the two halves have changed places. */
  lemma RenewedIsFull(w: seq<nat>, batch: Batch)
    requires Full(w) && TakesOldest(batch, w) && NoRepeats(BidsOf(batch.cqes, BATCH))
    ensures var r := Renewed(w, batch.cqes);
      Full(r) && r[..BATCH] == w[BATCH..] && multiset(r[BATCH..]) == multiset(w[..BATCH])
  {
    var r, bids, front := Renewed(w, batch.cqes), BidsOf(batch.cqes, BATCH), w[..BATCH];
    assert r[..BATCH] == w[BATCH..] && r[BATCH..] == bids;
    AllOfThem(bids, front);
    forall i, j | 0 <= i < j < ENTRIES ensures r[i] != r[j] {
      if j < BATCH {
        assert r[i] == w[BATCH + i] && r[j] == w[BATCH + j];
      } else if BATCH <= i {
        assert r[i] == bids[i - BATCH] && r[j] == bids[j - BATCH];
      } else {
        assert bids[j - BATCH] in front;
        assert r[i] == w[BATCH + i] && r[j] == bids[j - BATCH];
      }
    }
  }

  /** One batch up to its cancellation. */
  method Receive(batch: Batch, b: nat, ring: Pbufs, result: Result) returns (ok: bool)
    requires ring.bids.Length == ENTRIES && b < TWO32
    modifies result, ring, ring.bids
    ensures ok <==> batch.filled && batch.entered && |batch.cqes| == BATCH
    ensures ok ==> (Clean(result.t) <==> Clean(old(result.t)) && GoodCqes(batch, b, |batch.cqes|))
    ensures ok && Clean(result.t) ==> result.t.successful == old(result.t.successful) + BATCH
    ensures ok ==> ring.head == (old(ring.head) + batch.consumed) % TWO16
    ensures ok && Clean(result.t) && |old(ring.Live())| == ENTRIES && TakesOldest(batch, old(ring.Live())) ==>
      ring.Live() == Renewed(old(ring.Live()), batch.cqes)
  {
    if !batch.filled || !batch.entered {
      return false;
    }
    ring.Consume(batch.consumed);
    if |batch.cqes| != BATCH {
      return false;
    }
    AbsorbedMeans(result.t, batch, b, |batch.cqes|);
    Recycle(batch, b, ring, result);
    ok := true;
  }

  /** One batch. It keeps the counters clean exactly when it is good; and if the kernel also takes the oldest
      descriptors, they wait again behind the others, so (RenewedIsFull) the next batch finds every buffer once. */
  method RunBatch(batch: Batch, b: nat, ring: Pbufs, result: Result) returns (ok: bool)
    requires ring.bids.Length == ENTRIES && b < TWO32
    modifies result, ring, ring.bids
    ensures ok && Clean(result.t) <==> Clean(old(result.t)) && GoodBatch(batch, b)
    ensures ok && Clean(result.t) ==> result.t.successful == old(result.t.successful) + BATCH
    ensures ok ==> ring.head == (old(ring.head) + batch.consumed) % TWO16
    ensures GoodBatch(batch, b) && Clean(old(result.t)) && |old(ring.Live())| == ENTRIES &&
            TakesOldest(batch, old(ring.Live())) ==>
      ring.Live() == Renewed(old(ring.Live()), batch.cqes)
  {
    ok := Receive(batch, b, ring, result);
    if !ok {
      return;
    }
    if !batch.cancelEntered || |batch.cancelCqes| != 2 {
      return false;
    }
    ok := CheckCancel(batch.cancelCqes, RequestId(b), result);
  }

  function Consumed(batches: nat -> Batch, n: nat): nat {
    if n == 0 then 0 else Consumed(batches, n - 1) + batches(n - 1).consumed
  }

  ghost predicate GoodBatches(batches: nat -> Batch, n: nat)
    requires n <= TWO32
  {
    forall b :: 0 <= b < n ==> GoodBatch(batches(b), b)
  }

  /** The window at the start of batch n. */
  function LiveAfter(batches: nat -> Batch, w: seq<nat>, n: nat): seq<nat> {
    if n == 0 then w else Renewed(LiveAfter(batches, w, n - 1), batches(n - 1).cqes)
  }

  /** Each batch takes the oldest descriptors of the window it finds, counting from the window w. */
  ghost predicate InRingOrder(batches: nat -> Batch, w: seq<nat>, n: nat) {
    forall b :: 0 <= b < n ==> TookOldest(batches, w, b)
  }

  ghost predicate TookOldest(batches: nat -> Batch, w: seq<nat>, b: nat) {
    TakesOldest(batches(b), LiveAfter(batches, w, b))
  }

  /** The window found after n batches when all goes well: every buffer once, and the two halves of the first window
      change places with every batch. */
  ghost predicate Alternates(w: seq<nat>, live: seq<nat>, n: nat) {
    && Full(w) && Full(live)
    && (n % 2 == 0 ==>
          multiset(live[..BATCH]) == multiset(w[..BATCH]) && multiset(live[BATCH..]) == multiset(w[BATCH..]))
    && (n % 2 == 1 ==>
          multiset(live[..BATCH]) == multiset(w[BATCH..]) && multiset(live[BATCH..]) == multiset(w[..BATCH]))
  }

  lemma {:induction false} HalvesAlternate(batches: nat -> Batch, w: seq<nat>, n: nat)
    requires Full(w) && n <= TWO32 && GoodBatches(batches, n) && InRingOrder(batches, w, n)
    ensures Alternates(w, LiveAfter(batches, w, n), n)
  {
    if n != 0 {
      var m := n - 1;
      HalvesAlternate(batches, w, m);
      assert GoodBatch(batches(m), m) && TookOldest(batches, w, m);
      Swaps(w, LiveAfter(batches, w, m), m, batches(m));
    }
  }

  lemma Swaps(w: seq<nat>, live: seq<nat>, m: nat, batch: Batch)
    requires Alternates(w, live, m) && TakesOldest(batch, live) && NoRepeats(BidsOf(batch.cqes, BATCH))
    ensures Alternates(w, Renewed(live, batch.cqes), m + 1)
  {
    RenewedIsFull(live, batch);
  }

  /** run_multishot, for every kernel. It passes exactly when every batch is good and the 16-bit distance the ring
      head moved equals the number of operations. Whether it passes or not, if every batch was good and took the
      oldest descriptors, the run ends with every buffer waiting exactly once. */
  method RunMultishot(script: Script, operations: u32, ring: Pbufs) returns (semanticPass: bool)
    requires ring.bids.Length == ENTRIES
    modifies ring, ring.bids
    ensures semanticPass <==>
      && operations > 0 && operations % BATCH == 0 && script.before && script.after
      && GoodBatches(script.batches, operations / BATCH)
      && Consumed(script.batches, operations / BATCH) % TWO16 == operations
      && script.outstanding == 0 && script.dropped == 0 && script.overflow == 0
    ensures operations > 0 && operations % BATCH == 0 && script.before &&
            GoodBatches(script.batches, operations / BATCH) && Full(old(ring.Live())) &&
            InRingOrder(script.batches, old(ring.Live()), operations / BATCH) ==>
      ring.Live() == LiveAfter(script.batches, old(ring.Live()), operations / BATCH) &&
      Alternates(old(ring.Live()), ring.Live(), operations / BATCH)
  {
    ghost var n := operations / BATCH;
    var result := new Result();
    if operations == 0 || operations % BATCH != 0 || !script.before {
      return false;
    }
    var headBefore := ring.head;
    var ok := RunBatches(script.batches, operations, ring, result);
    if !ok || !script.after {
      return false;
    }
    var delta := (ring.head - headBefore) % TWO16;
    DeltaIs(headBefore, ring.head, Consumed(script.batches, n));
    semanticPass := result.t.successful == operations && delta == operations && Clean(result.t) &&
      script.outstanding == 0 && script.dropped == 0 && script.overflow == 0;
  }

  /** The batch loop, for any number of batches; so what it ensures holds at every batch boundary of a longer run. */
  method RunBatches(batches: nat -> Batch, operations: u32, ring: Pbufs, result: Result) returns (ok: bool)
    requires ring.bids.Length == ENTRIES && operations % BATCH == 0 && result.t == ZERO
    modifies ring, ring.bids, result
    ensures !ok ==> !GoodBatches(batches, operations / BATCH)
    ensures ok ==>
      Running(batches, operations / BATCH, old(ring.head), ring.head, result.t, ring.Live(), old(ring.Live()))
    ensures GoodBatches(batches, operations / BATCH) && Full(old(ring.Live())) &&
            InRingOrder(batches, old(ring.Live()), operations / BATCH) ==>
      ring.Live() == LiveAfter(batches, old(ring.Live()), operations / BATCH) &&
      Alternates(old(ring.Live()), ring.Live(), operations / BATCH)
  {
    ghost var w, headBefore := ring.Live(), ring.head;
    var base := 0;
    ghost var n := 0;
    while base < operations
      invariant base == BATCH * n <= operations
      invariant Running(batches, n, headBefore, ring.head, result.t, ring.Live(), w)
    {
      n := n + 1;
      ok := Next(batches, base / BATCH, headBefore, ring, result, w);
      if !ok {
        assert !GoodBatches(batches, n);
        return;
      }
      base := base + BATCH;
    }
    ok := true;
    if Full(w) && GoodBatches(batches, n) && InRingOrder(batches, w, n) {
      HalvesAlternate(batches, w, n);
    }
  }

  /** What holds after n batches. */
  ghost predicate Running(batches: nat -> Batch, n: nat, headBefore: u16, head: u16, t: Tally, live: seq<nat>,
                          w: seq<nat>)
    requires n <= TWO32
  {
    && head == (headBefore + Consumed(batches, n)) % TWO16
    && (Clean(t) <==> GoodBatches(batches, n))
    && (Clean(t) ==> t.successful == BATCH * n)
    && (Clean(t) && Full(w) && InRingOrder(batches, w, n) ==> live == LiveAfter(batches, w, n))
  }

  lemma HeadAdds(before: u16, c: nat, d: nat)
    ensures ((before + c) % TWO16 + d) % TWO16 == (before + (c + d)) % TWO16
  {
  }

  lemma OneMoreBatch(batches: nat -> Batch, n: nat, headBefore: u16, head: u16, t: Tally, u: Tally,
                     live: seq<nat>, after: seq<nat>, w: seq<nat>)
    requires n < TWO32 && Running(batches, n, headBefore, head, t, live, w)
    requires Clean(u) <==> Clean(t) && GoodBatch(batches(n), n)
    requires Clean(u) ==> u.successful == t.successful + BATCH
    requires Clean(u) && |live| == ENTRIES && TakesOldest(batches(n), live) ==>
      after == Renewed(live, batches(n).cqes)
    ensures Running(batches, n + 1, headBefore, (head + batches(n).consumed) % TWO16, u, after, w)
  {
    var m := n + 1;
    assert GoodBatches(batches, m) <==> GoodBatches(batches, n) && GoodBatch(batches(n), n);
    HeadAdds(headBefore, Consumed(batches, n), batches(n).consumed);
    if Clean(u) && Full(w) && InRingOrder(batches, w, m) {
      HalvesAlternate(batches, w, n);
      assert TookOldest(batches, w, n);
    }
  }

  method Next(batches: nat -> Batch, n: nat, ghost headBefore: u16, ring: Pbufs, result: Result, ghost w: seq<nat>)
    returns (ok: bool)
    requires ring.bids.Length == ENTRIES && n < TWO32
    requires Running(batches, n, headBefore, ring.head, result.t, ring.Live(), w)
    modifies result, ring, ring.bids
    ensures !ok ==> !GoodBatches(batches, n + 1)
    ensures ok ==> Running(batches, n + 1, headBefore, ring.head, result.t, ring.Live(), w)
  {
    ghost var t, live, head := result.t, ring.Live(), ring.head;
    ok := RunBatch(batches(n), n, ring, result);
    if ok {
      OneMoreBatch(batches, n, headBefore, head, t, result.t, live, ring.Live(), w);
    }
  }

  lemma DeltaIs(before: u16, after: u16, consumed: nat)
    requires after == (before + consumed) % TWO16
    ensures (after - before) % TWO16 == consumed % TWO16
  {
  }

  lemma {:induction false} ConsumedInOrder(batches: nat -> Batch, w: seq<nat>, n: nat)
    requires InRingOrder(batches, w, n)
    ensures Consumed(batches, n) == BATCH * n
  {
    if n != 0 {
      var m := n - 1;
      ConsumedInOrder(batches, w, m);
      assert TookOldest(batches, w, m);
    }
  }

  /** The head counter is 16 bits wide and is compared with the whole number of operations, so a run in which
      nothing goes wrong passes if and only if it has fewer than 65536 operations. */
  lemma HonestRunPasses(script: Script, operations: u32, w: seq<nat>)
    requires operations > 0 && operations % BATCH == 0 && Full(w)
    requires GoodBatches(script.batches, operations / BATCH) && InRingOrder(script.batches, w, operations / BATCH)
    ensures Consumed(script.batches, operations / BATCH) % TWO16 == operations <==> operations < TWO16
  {
    ConsumedInOrder(script.batches, w, operations / BATCH);
  }

  function PayloadOf(sequence: u64): (p: Payload)
    ensures IsPayload(p, sequence)
  {
    seq(PAYLOAD_BYTES, j requires 0 <= j < PAYLOAD_BYTES => Byte(sequence, j))
  }

  /** What a faultless kernel leaves in the buffers of batch b: the payloads, in the buffers it took. */
  function Stored(w: seq<nat>, b: nat, bid: nat): Payload
    requires |w| >= BATCH && b < TWO32
  {
    if bid in w[..BATCH] then PayloadOf(BATCH * b + IndexOf(w[..BATCH], bid)) else PayloadOf(0)
  }

  /** Batch b of a faultless kernel that finds the window w. */
  function FaultlessBatch(w: seq<nat>, b: nat): Batch
    requires |w| >= BATCH && b < TWO32 && forall i :: 0 <= i < |w| ==> w[i] < ENTRIES
  {
    Batch(true, true, BATCH,
          seq(BATCH, i requires 0 <= i < BATCH => Cqe(RequestId(b), PAYLOAD_BYTES, TWO16 * w[i] + F_MORE + F_BUFFER)),
          (bid: nat) => Stored(w, b, bid),
          true, [Cqe(RequestId(b), -ECANCELED, 0), Cqe(CancelId(RequestId(b)), 0, 0)])
  }

  lemma ComposedFlags(bid: nat)
    requires bid < ENTRIES
    ensures var flags := TWO16 * bid + F_MORE + F_BUFFER; flags < TWO32 && Bid(flags) == bid && Picks(flags, bid)
  {
    var flags := TWO16 * bid + F_MORE + F_BUFFER;
    assert flags / TWO16 == bid && flags % TWO16 == 3;
  }

  lemma FaultlessCqe(w: seq<nat>, b: nat, i: nat)
    requires Full(w) && b < TWO32 && i < BATCH
    ensures var batch := FaultlessBatch(w, b);
      Bid(batch.cqes[i].flags) == w[i] && GoodCqe(batch.cqes[i], RequestId(b), batch.memory, BATCH * b + i)
  {
    var batch, front := FaultlessBatch(w, b), w[..BATCH];
    ComposedFlags(w[i]);
    assert front[i] == w[i] && front[i] !in front[..i];
    IndexOfFirst(front, i);
    assert batch.memory(w[i]) == Stored(w, b, w[i]);
  }

  lemma FaultlessIsGood(w: seq<nat>, b: nat)
    requires Full(w) && b < TWO32
    ensures GoodBatch(FaultlessBatch(w, b), b) && TakesOldest(FaultlessBatch(w, b), w)
    ensures Renewed(w, FaultlessBatch(w, b).cqes) == Rotated(w)
  {
    var batch := FaultlessBatch(w, b);
    forall i | 0 <= i < BATCH
      ensures Bid(batch.cqes[i].flags) == w[i] && GoodCqe(batch.cqes[i], RequestId(b), batch.memory, BATCH * b + i)
    {
      FaultlessCqe(w, b, i);
    }
    assert BidsOf(batch.cqes, BATCH) == w[..BATCH];
    assert forall i :: 0 <= i < BATCH ==> w[..BATCH][i] in w[..BATCH];
  }

  /** The premises of HonestRunPasses can be met, for every number of batches: so the limit is the program's own. */
  lemma FaultlessRuns(w: seq<nat>, n: nat) returns (batches: nat -> Batch)
    requires Full(w) && n <= TWO32
    ensures GoodBatches(batches, n) && InRingOrder(batches, w, n)
  {
    forall b: nat ensures Full(WindowAt(w, b)) {
      WindowsAlternate(w, b);
    }
    batches := (b: nat) => if b < TWO32 then FaultlessBatch(WindowAt(w, b), b) else FaultlessBatch(w, 0);
    forall b: nat | b < n ensures Rotates(batches, w, b) {
      FaultlessIsGood(WindowAt(w, b), b);
    }
    forall b | 0 <= b < n ensures GoodBatch(batches(b), b) && TookOldest(batches, w, b) {
      FaultlessWindow(batches, w, b);
      FaultlessIsGood(WindowAt(w, b), b);
    }
  }

  ghost predicate Rotates(batches: nat -> Batch, w: seq<nat>, b: nat)
    requires |w| >= BATCH
  {
    Renewed(WindowAt(w, b), batches(b).cqes) == Rotated(WindowAt(w, b))
  }

  lemma {:induction false} FaultlessWindow(batches: nat -> Batch, w: seq<nat>, n: nat)
    requires |w| >= BATCH && forall b :: 0 <= b < n ==> Rotates(batches, w, b)
    ensures LiveAfter(batches, w, n) == WindowAt(w, n)
  {
    if n != 0 {
      FaultlessWindow(batches, w, n - 1);
      assert Rotates(batches, w, n - 1);
    }
  }
}
