/** The fill, collect, read back and clear cycle of registration_cost.c over one table of fixed files. */
module Lifecycle {
  import opened Words
  import opened Counting
  import opened Completions
  import opened Bitmaps
  import opened MsgRing
  import opened Registration

  /** The kernel's answers to one batch of a fill. */
  datatype FillBatch = FillBatch(reserved: bool, entered: bool, source: seq<Cqe>, target: seq<Cqe>)

  /** And to one batch of reads of installed slots. */
  datatype ReadBack = ReadBack(reserved: bool, entered: bool, cqes: seq<Cqe>, buffer: nat -> nat)

  function ChunkCount(remaining: nat): nat {
    if remaining < QD then remaining else QD
  }

  /** The batches a transfer of used slots takes. */
  function Batches(used: nat): nat {
    (used + QD - 1) / QD
  }

  /** The operations the first n batches hold. */
  function End(used: nat, n: nat): nat {
    if QD * n <= used then QD * n else used
  }

  function Chunk(used: nat, b: nat): (c: nat)
    requires b < Batches(used)
    ensures 1 <= c <= QD && QD * b + c == End(used, b + 1)
  {
    ChunkCount(used - QD * b)
  }

  /** The operations of batch b. */
  function Part(s: seq<int>, used: nat, b: nat): (p: seq<int>)
    requires |s| >= End(used, b + 1) && b < Batches(used)
    ensures |p| == Chunk(used, b)
  {
    var c := Chunk(used, b);
    s[QD * b..QD * b + c]
  }

  /** Both rings report the given slots for batch b, each operation once. */
  ghost predicate ChunkFilled(batch: FillBatch, slots: nat, base: nat, part: seq<int>) {
    && batch.reserved && batch.entered
    && Complete(batch.source, SOURCE_TAG, FixedSlot(slots), base, |part|, part)
    && Complete(batch.target, TARGET_TAG, FixedSlot(slots), base, |part|, part)
  }

  /** The slots the first n batches report on the source ring. */
  ghost function Reported(script: nat -> FillBatch, used: nat, n: nat): (s: seq<int>)
    requires n <= Batches(used)
    ensures |s| == End(used, n)
  {
    if n == 0 then [] else
      Reported(script, used, n - 1) + Found(script(n - 1).source, SOURCE_TAG, QD * (n - 1), Chunk(used, n - 1))
  }

  /** The first n batches gave every operation a slot of its own. */
  ghost predicate FilledTo(script: nat -> FillBatch, slots: nat, used: nat, n: nat)
    requires n <= Batches(used)
  {
    && Distinct(Reported(script, used, n)) && InRange(Reported(script, used, n), slots)
    && forall b :: 0 <= b < n ==>
         ChunkFilled(script(b), slots, QD * b, Found(script(b).source, SOURCE_TAG, QD * b, Chunk(used, b)))
  }

  lemma FilledBefore(script: nat -> FillBatch, slots: nat, used: nat, n: nat)
    requires 0 < n <= Batches(used) && FilledTo(script, slots, used, n)
    ensures FilledTo(script, slots, used, n - 1)
  {
    var s, t := Reported(script, used, n - 1), Reported(script, used, n);
    assert forall i :: 0 <= i < |s| ==> s[i] == t[i];
  }

  lemma {:induction false} FilledPrefix(script: nat -> FillBatch, slots: nat, used: nat, n: nat, m: nat)
    requires n <= m <= Batches(used) && FilledTo(script, slots, used, m)
    ensures FilledTo(script, slots, used, n)
  {
    if n < m {
      FilledBefore(script, slots, used, m);
      FilledPrefix(script, slots, used, n, m - 1);
    }
  }

  /** The kernel gave operation i slot s[i], and said so once on each ring. */
  ghost predicate Gives(script: nat -> FillBatch, slots: nat, used: nat, s: seq<int>) {
    && |s| == used && Distinct(s) && InRange(s, slots)
    && forall b :: 0 <= b < Batches(used) ==> ChunkFilled(script(b), slots, QD * b, Part(s, used, b))
  }

  lemma PartOfConcat(s: seq<int>, more: seq<int>, used: nat, n: nat, b: nat)
    requires b <= n < Batches(used) && |s| == End(used, n) && |more| == Chunk(used, n)
    ensures |s + more| == End(used, n + 1)
    ensures Part(s + more, used, b) == if b < n then Part(s, used, b) else more
  {
    assert |s| == QD * n;
  }

  lemma {:induction false} ReportedPart(script: nat -> FillBatch, used: nat, n: nat, b: nat)
    requires b < n <= Batches(used)
    ensures Part(Reported(script, used, n), used, b) == Found(script(b).source, SOURCE_TAG, QD * b, Chunk(used, b))
  {
    var m := n - 1;
    var s, more := Reported(script, used, m), Found(script(m).source, SOURCE_TAG, QD * m, Chunk(used, m));
    PartOfConcat(s, more, used, m, b);
    if b < m {
      ReportedPart(script, used, m, b);
    }
  }

  lemma PartOfPrefix(s: seq<int>, used: nat, m: nat, b: nat)
    requires b < m < Batches(used) && |s| >= End(used, m)
    ensures Part(s[..End(used, m)], used, b) == Part(s, used, b)
  {
    assert QD * b + Chunk(used, b) <= End(used, m);
  }

  /** A list that agrees with the report part by part is the report. */
  lemma {:induction false} PartsMakeReport(script: nat -> FillBatch, used: nat, s: seq<int>, n: nat)
    requires n <= Batches(used) && |s| == End(used, n)
    requires forall b :: 0 <= b < n ==>
      Part(s, used, b) == Found(script(b).source, SOURCE_TAG, QD * b, Chunk(used, b))
    ensures s == Reported(script, used, n)
  {
    if n != 0 {
      var m := n - 1;
      var front := s[..End(used, m)];
      forall b | 0 <= b < m ensures Part(front, used, b) == Part(s, used, b) {
        PartOfPrefix(s, used, m, b);
      }
      PartsMakeReport(script, used, front, m);
      assert s == front + Part(s, used, m);
    }
  }

  lemma ChunkIsFound(batch: FillBatch, slots: nat, base: nat, part: seq<int>)
    requires base + |part| <= TWO48 && ChunkFilled(batch, slots, base, part)
    ensures part == Found(batch.source, SOURCE_TAG, base, |part|) == Found(batch.target, TARGET_TAG, base, |part|)
  {
    CompleteIsUnique(batch.source, SOURCE_TAG, FixedSlot(slots), base, |part|, part);
    CompleteIsUnique(batch.target, TARGET_TAG, FixedSlot(slots), base, |part|, part);
  }

  /** The test of a fill does not depend on how the kernel ordered its completions. */
  lemma FilledMeansGiven(script: nat -> FillBatch, slots: nat, used: nat, s: seq<int>)
    requires used <= TWO32
    ensures Gives(script, slots, used, s) <==>
      FilledTo(script, slots, used, Batches(used)) && s == Reported(script, used, Batches(used))
  {
    var all := Batches(used);
    if Gives(script, slots, used, s) {
      forall b | 0 <= b < all
        ensures Part(s, used, b) == Found(script(b).source, SOURCE_TAG, QD * b, Chunk(used, b))
      {
        ChunkIsFound(script(b), slots, QD * b, Part(s, used, b));
      }
      PartsMakeReport(script, used, s, all);
    }
    if FilledTo(script, slots, used, all) && s == Reported(script, used, all) {
      forall b | 0 <= b < all ensures ChunkFilled(script(b), slots, QD * b, Part(s, used, b)) {
        ReportedPart(script, used, all, b);
      }
    }
  }

  lemma DistinctPush(s: seq<int>, x: int)
    requires Distinct(s)
    ensures Distinct(s + [x]) <==> x !in s
  {
    if x in s {
      var i := IndexOf(s, x);
      assert (s + [x])[i] == (s + [x])[|s|];
    }
  }

  lemma RepeatSpoils(s: seq<int>, n: nat)
    requires n <= |s| && !Distinct(s[..n])
    ensures !Distinct(s)
  {
    var t := s[..n];
    var i, j :| 0 <= i < j < |t| && t[i] == t[j];
    assert s[i] == s[j];
  }

  /** One slot both rings agree on: refused if it was seen before. */
  method PairOne(slot: nat, slots: nat, at: nat, bitmap: array<Word>, transfer: array<nat>, ghost prior: seq<int>)
    returns (ok: bool)
    requires slot < slots <= 64 * bitmap.Length && at < transfer.Length
    requires |prior| == at && Distinct(prior) && Marks(bitmap[..], prior)
    modifies bitmap, transfer
    ensures ok <==> Distinct(prior + [slot])
    ensures ok ==> Marks(bitmap[..], prior + [slot]) && transfer[..] == old(transfer[..])[at := slot]
  {
    DistinctPush(prior, slot);
    ok := slot % 64 !in bitmap[slot / 64];
    if ok {
      ghost var marked := SetBit(bitmap[..], slot);
      bitmap[slot / 64] := bitmap[slot / 64] + {slot % 64};
      assert bitmap[..] == marked;
      transfer[at] := slot;
    }
  }

  /** The pairing loop of a fill: equal slots on both rings, and none of them marked before. */
  method PairChunk(source: array<int>, target: array<int>, count: nat, slots: nat, base: nat,
                   bitmap: array<Word>, transfer: array<nat>, ghost prior: seq<int>) returns (ok: bool)
    requires source.Length == target.Length == QD && count <= QD && slots <= 64 * bitmap.Length
    requires base + count <= transfer.Length && source != target
    requires |prior| == base && Distinct(prior) && Marks(bitmap[..], prior)
    requires forall i :: 0 <= i < base ==> transfer[i] == prior[i]
    requires forall i :: 0 <= i < count ==> 0 <= source[i] < slots
    modifies bitmap, transfer
    ensures ok <==> source[..count] == target[..count] && Distinct(prior + source[..count])
    ensures ok ==> Marks(bitmap[..], prior + source[..count])
    ensures ok ==> forall i :: 0 <= i < base + count ==> transfer[i] == (prior + source[..count])[i]
  {
    ghost var all := prior + source[..count];
    for i := 0 to count
      invariant source[..i] == target[..i]
      invariant Distinct(all[..base + i]) && Marks(bitmap[..], all[..base + i])
      invariant forall k :: 0 <= k < base + i ==> transfer[k] == all[k]
    {
      if source[i] != target[i] {
        assert source[..count][i] != target[..count][i];
        return false;
      }
      assert all[..base + i + 1] == all[..base + i] + [source[i]];
      ok := PairOne(source[i], slots, base + i, bitmap, transfer, all[..base + i]);
      if !ok {
        RepeatSpoils(all, base + i + 1);
        return;
      }
    }
    assert all[..base + count] == all;
    ok := true;
  }

  /** One batch of fill_target. */
  method FillChunk(batch: FillBatch, slots: nat, base: nat, count: nat, bitmap: array<Word>, transfer: array<nat>,
                   ghost prior: seq<int>) returns (ok: bool)
    requires 1 <= count <= QD && base + count <= transfer.Length <= TWO32 && slots <= 64 * bitmap.Length
    requires |prior| == base && Distinct(prior) && Marks(bitmap[..], prior)
    requires forall i :: 0 <= i < base ==> transfer[i] == prior[i]
    modifies bitmap, transfer
    ensures var part := Found(batch.source, SOURCE_TAG, base, count);
      && (ok <==> ChunkFilled(batch, slots, base, part) && Distinct(prior + part))
      && (ok ==> Marks(bitmap[..], prior + part))
      && (ok ==> forall i :: 0 <= i < base + count ==> transfer[i] == (prior + part)[i])
  {
    if !batch.reserved || !batch.entered {
      return false;
    }
    var source, target := new int[QD](_ => 0), new int[QD](_ => 0);
    var sourceSeen, targetSeen := new bool[QD](_ => false), new bool[QD](_ => false);
    ok := DrainCount(batch.source, SOURCE_TAG, FixedSlot(slots), base, count, source, sourceSeen);
    if !ok {
      return;
    }
    ok := DrainCount(batch.target, TARGET_TAG, FixedSlot(slots), base, count, target, targetSeen);
    ghost var part := Found(batch.source, SOURCE_TAG, base, count);
    if !ok {
      if ChunkFilled(batch, slots, base, part) {
        ChunkIsFound(batch, slots, base, part);
      }
      return;
    }
    assert forall i :: 0 <= i < count ==> Accepts(FixedSlot(slots), base + i, part[i]) && source[i] == part[i];
    ok := PairChunk(source, target, count, slots, base, bitmap, transfer, prior);
    if ChunkFilled(batch, slots, base, part) {
      ChunkIsFound(batch, slots, base, part);
    }
  }

  lemma FilledStep(script: nat -> FillBatch, slots: nat, used: nat, n: nat)
    requires n < Batches(used) && FilledTo(script, slots, used, n)
    ensures var part := Found(script(n).source, SOURCE_TAG, QD * n, Chunk(used, n));
      FilledTo(script, slots, used, n + 1) <==>
        ChunkFilled(script(n), slots, QD * n, part) && Distinct(Reported(script, used, n) + part)
  {
    var prior, part := Reported(script, used, n), Found(script(n).source, SOURCE_TAG, QD * n, Chunk(used, n));
    assert Reported(script, used, n + 1) == prior + part;
    if ChunkFilled(script(n), slots, QD * n, part) && Distinct(prior + part) {
      assert forall i :: 0 <= i < |part| ==> Accepts(FixedSlot(slots), QD * n + i, part[i]);
      assert InRange(prior + part, slots);
    }
  }

  /** fill_target: it returns exactly when both rings gave every operation a slot of its own, and then the bitmap
      holds those slots and transfer_slots says which operation got which. */
  method FillTarget(script: nat -> FillBatch, slots: nat, used: nat, bitmap: array<Word>, transfer: array<nat>)
    returns (ok: bool)
    requires used == transfer.Length <= TWO32 && slots <= 64 * bitmap.Length
    modifies bitmap, transfer
    ensures ok <==> FilledTo(script, slots, used, Batches(used))
    ensures ok ==> transfer[..] == Reported(script, used, Batches(used)) && Marks(bitmap[..], transfer[..])
  {
    ClearBitmap(bitmap);
    var base, n := 0, 0;
    while base < used
      invariant base == QD * n && n <= Batches(used)
      invariant FillState(script, slots, used, n, bitmap[..], transfer[..])
    {
      BatchesLeft(used, n);
      ok := FillNext(script, slots, used, n, bitmap, transfer);
      n := n + 1;
      if !ok {
        UnfilledStays(script, slots, used, n);
        return;
      }
      base := base + QD;
    }
    BatchesLeft(used, n);
    FillDone(script, slots, used, n, bitmap[..], transfer[..]);
    ok := true;
  }

  lemma BatchesLeft(used: nat, n: nat)
    ensures QD * n < used <==> n < Batches(used)
  {
  }

  lemma UnfilledStays(script: nat -> FillBatch, slots: nat, used: nat, n: nat)
    requires n <= Batches(used) && !FilledTo(script, slots, used, n)
    ensures !FilledTo(script, slots, used, Batches(used))
  {
    if FilledTo(script, slots, used, Batches(used)) {
      FilledPrefix(script, slots, used, n, Batches(used));
    }
  }

  lemma FillDone(script: nat -> FillBatch, slots: nat, used: nat, n: nat, words: seq<Word>, transfer: seq<nat>)
    requires n == Batches(used) && |transfer| == used && FillState(script, slots, used, n, words, transfer)
    ensures transfer == Reported(script, used, Batches(used)) && Marks(words, transfer)
  {
  }

  /** Where a fill stands after n batches. */
  ghost predicate FillState(script: nat -> FillBatch, slots: nat, used: nat, n: nat, words: seq<Word>,
                            transfer: seq<nat>)
    requires n <= Batches(used) && |transfer| == used
  {
    && FilledTo(script, slots, used, n) && Marks(words, Reported(script, used, n))
    && forall i :: 0 <= i < End(used, n) ==> transfer[i] == Reported(script, used, n)[i]
  }

  method FillNext(script: nat -> FillBatch, slots: nat, used: nat, n: nat, bitmap: array<Word>, transfer: array<nat>)
    returns (ok: bool)
    requires n < Batches(used) && used == transfer.Length <= TWO32 && slots <= 64 * bitmap.Length
    requires FillState(script, slots, used, n, bitmap[..], transfer[..])
    modifies bitmap, transfer
    ensures ok <==> FilledTo(script, slots, used, n + 1)
    ensures ok ==> FillState(script, slots, used, n + 1, bitmap[..], transfer[..])
  {
    ghost var prior := Reported(script, used, n);
    FilledStep(script, slots, used, n);
    ok := FillChunk(script(n), slots, QD * n, Chunk(used, n), bitmap, transfer, prior);
    assert Reported(script, used, n + 1) == prior + Found(script(n).source, SOURCE_TAG, QD * n, Chunk(used, n));
  }

  method ClearBitmap(bitmap: array<Word>)
    modifies bitmap
    ensures Marks(bitmap[..], [])
  {
    for k := 0 to bitmap.Length
      invariant forall j :: 0 <= j < k ==> bitmap[j] == {}
    {
      bitmap[k] := {};
    }
  }

  // ---- reading back ----

  ghost predicate ChunkRead(batch: ReadBack, base: nat, part: seq<nat>) {
    && batch.reserved && batch.entered
    && Complete(batch.cqes, VERIFY_TAG, OneByte, base, |part|, Found(batch.cqes, VERIFY_TAG, base, |part|))
    && forall i :: 0 <= i < |part| ==> batch.buffer(i) == Sentinel(part[i])
  }

  /** Every listed slot was read once and holds the sentinel. */
  ghost predicate ReadsOk(script: nat -> ReadBack, listed: seq<nat>) {
    forall b :: 0 <= b < Batches(|listed|) ==>
      ChunkRead(script(b), QD * b, listed[QD * b..QD * b + Chunk(|listed|, b)])
  }

  method ReadChunk(batch: ReadBack, base: nat, part: seq<nat>) returns (ok: bool)
    requires 1 <= |part| <= QD && base + |part| <= TWO48
    ensures ok <==> ChunkRead(batch, base, part)
  {
    if !batch.reserved || !batch.entered {
      return false;
    }
    var results, seen := new int[QD](_ => 0), new bool[QD](_ => false);
    ok := DrainCount(batch.cqes, VERIFY_TAG, OneByte, base, |part|, results, seen);
    if !ok {
      return;
    }
    for i := 0 to |part|
      invariant forall k :: 0 <= k < i ==> batch.buffer(k) == Sentinel(part[k])
    {
      if batch.buffer(i) != Sentinel(part[i]) {
        return false;
      }
    }
  }

  /** The loop of check_target over the slots that collect_slots listed. */
  method ReadInstalled(script: nat -> ReadBack, listed: seq<nat>) returns (ok: bool)
    requires |listed| <= TWO32
    ensures ok <==> ReadsOk(script, listed)
  {
    var base, n := 0, 0;
    while base < |listed|
      invariant base == QD * n && n <= Batches(|listed|)
      invariant forall b :: 0 <= b < n ==>
        ChunkRead(script(b), QD * b, listed[QD * b..QD * b + Chunk(|listed|, b)])
    {
      ok := ReadChunk(script(n), base, listed[base..base + ChunkCount(|listed| - base)]);
      if !ok {
        return;
      }
      base := base + QD;
      n := n + 1;
    }
    ok := true;
  }

  // ---- the table and its cycles ----

  function Elements(s: seq<nat>): set<nat> {
    set i | 0 <= i < |s| :: s[i]
  }

  function SpanSlots(s: Span): (r: set<nat>)
    ensures forall x: nat :: x in r <==> InSpan(s, x)
    decreases s.count
  {
    if s.count == 0 then {} else SpanSlots(Span(s.offset, s.count - 1)) + {s.offset + s.count - 1}
  }

  /** What a kernel leaves occupied after removing the first n spans. */
  function Removed(occupied: set<nat>, spans: seq<Span>, n: nat): set<nat>
    requires n <= |spans|
  {
    if n == 0 then occupied else Removed(occupied, spans, n - 1) - SpanSlots(spans[n - 1])
  }

  lemma {:induction false} RemovedMembers(occupied: set<nat>, spans: seq<Span>, n: nat, x: nat)
    requires n <= |spans|
    ensures x in Removed(occupied, spans, n) <==>
      x in occupied && forall i :: 0 <= i < n ==> !InSpan(spans[i], x)
  {
    if n != 0 {
      RemovedMembers(occupied, spans, n - 1, x);
    }
  }

  /** Removing the spans of a table empties it. */
  lemma AllRemoved(occupied: set<nat>, spans: seq<Span>, words: seq<Word>, slots: nat)
    requires Describe(spans, words, slots) && forall x: nat :: x in occupied ==> x < slots && Has(words, x)
    ensures Removed(occupied, spans, |spans|) == {}
  {
    forall x: nat ensures x !in Removed(occupied, spans, |spans|) {
      RemovedMembers(occupied, spans, |spans|, x);
      if x in occupied {
        assert Covered(spans, x);
      }
    }
  }

  lemma {:induction false} TotalPrefix(spans: seq<Span>, n: nat)
    requires n < |spans|
    ensures Total(spans[..n + 1]) == Total(spans[..n]) + spans[n].count
  {
    assert spans[..n + 1][..n] == spans[..n];
  }

  class Target {
    const slots: nat
    const used: nat
    const bitmap: array<Word>
    const transfer: array<nat>
    const installed: array<nat>
    const spans: array<Span>
    var spanCount: nat
    /** The kernel's side: the slots of the table that hold a file. */
    var occupied: set<nat>

    ghost predicate Valid()
      reads `spanCount
    {
      && 1 <= used <= slots <= 8192
      && bitmap.Length == (slots + 63) / 64 && transfer.Length == used
      && installed.Length == used && spans.Length == used && spanCount <= used
      && transfer != installed
    }

    /** The bookkeeping agrees with the table: bitmap, list and spans all stand for the occupied slots. */
    ghost predicate InStep()
      reads this, bitmap, installed, spans
    {
      && Valid()
      && (forall x: nat :: x in occupied <==> x < slots && Has(bitmap[..], x))
      && installed[..] == Members(bitmap[..], slots)
      && Canonical(spans[..spanCount], bitmap[..], slots, used)
    }

    /** A ring whose table has just been registered. */
    constructor (slots: nat, used: nat)
      requires 1 <= used <= slots <= 8192
      ensures Valid() && this.slots == slots && this.used == used && occupied == {}
      ensures fresh(bitmap) && fresh(transfer) && fresh(installed) && fresh(spans)
    {
      this.slots, this.used := slots, used;
      bitmap := new Word[(slots + 63) / 64](_ => {});
      transfer := new nat[used](_ => 0);
      installed := new nat[used](_ => 0);
      spans := new Span[used](_ => Span(0, 0));
      spanCount, occupied := 0, {};
      new;
    }

    /** Fill, then check. The kernel installs into the free slots it chose, and reports them honestly. */
    method FillAndCheck(script: nat -> FillBatch, given: seq<nat>, answers: seq<nat> -> (nat -> ReadBack))
      returns (ok: bool)
      requires Valid() && occupied == {} && Gives(script, slots, used, given)
      modifies this, bitmap, transfer, installed, spans
      ensures Valid() && occupied == Elements(given)
      ensures ok ==> InStep() && transfer[..] == given
      ensures ok <==> ReadsOk(answers(Sorted(given, slots)), Sorted(given, slots))
    {
      FilledMeansGiven(script, slots, used, given);
      ok := FillTarget(script, slots, used, bitmap, transfer);
      occupied := occupied + (set i | 0 <= i < |given| :: given[i]);
      assert ok && transfer[..] == given;
      SortedAgrees(bitmap[..], given, slots);
      SortedCounts(given, slots);
      ok, spanCount := Collect(bitmap, slots, used, installed, spans);
      var listed := installed[..];
      ok := ReadInstalled(answers(listed), listed);
    }

    /** clear_target, span by span. The kernel may process fewer entries than asked. */
    method Clear(processed: nat -> nat) returns (ok: bool)
      requires InStep()
      modifies `occupied
      ensures ok <==> forall i :: 0 <= i < spanCount ==> spans[i].count <= processed(i)
      ensures ok ==> occupied == {}
    {
      var cleared;
      ok, cleared, occupied := RemoveSpans(spans[..spanCount], processed, occupied);
      AllRemoved(old(occupied), spans[..spanCount], bitmap[..], slots);
      ok := ok && cleared == used;
    }

    /** One cycle against an honest kernel. */
    method FillCycle(kernel: Kernel, cycle: nat) returns (ok: bool)
      requires Valid() && occupied == {} && kernel.Honest(slots, used)
      modifies this, bitmap, transfer, installed, spans
      ensures ok && InStep()
      ensures occupied == Elements(kernel.given(cycle)) && transfer[..] == kernel.given(cycle)
    {
      ReadsAreOfGiven(kernel, slots, used, cycle);
      ok := FillAndCheck(kernel.fills(cycle), kernel.given(cycle), kernel.answers(cycle));
    }

    method ClearCycle(kernel: Kernel, cycle: nat) returns (ok: bool)
      requires InStep() && kernel.Honest(slots, used)
      modifies `occupied
      ensures ok && occupied == {}
    {
      SpansAreSmall(spans[..spanCount], bitmap[..], slots, used);
      assert forall i: nat :: slots <= kernel.processed(cycle)(i);
      ok := Clear(kernel.processed(cycle));
    }

    /** The reuse loop: fill once, then clear and fill again as often as asked. With a kernel that installs into any
        free slots and reports them in any order no check ever fires; every fill finds the table empty and leaves the
        bookkeeping in step with it. */
    method Reuse(total: nat, kernel: Kernel) returns (ok: bool)
      requires Valid() && occupied == {} && kernel.Honest(slots, used)
      modifies this, bitmap, transfer, installed, spans
      ensures ok && InStep() && occupied == Elements(kernel.given(total)) && transfer[..] == kernel.given(total)
    {
      ok := FillCycle(kernel, 0);
      for cycle := 0 to total
        invariant ok && InStep()
        invariant occupied == Elements(kernel.given(cycle)) && transfer[..] == kernel.given(cycle)
      {
        ok := ClearCycle(kernel, cycle);
        if !ok {
          return;
        }
        ok := FillCycle(kernel, cycle + 1);
      }
    }
  }

  /** The choices of a kernel over a whole reuse run: the slots it gives in each cycle, how it reports them, how it
      answers reads of the slots asked for, and how many entries of each removal it processes. */
  datatype Kernel = Kernel(given: nat -> seq<nat>, fills: nat -> (nat -> FillBatch),
                           answers: nat -> (seq<nat> -> (nat -> ReadBack)), processed: nat -> (nat -> nat))
  {
    /** Of the reads it is asked for, an honest kernel has to answer only those of slots it gave. */
    ghost predicate Honest(slots: nat, used: nat) {
      && (forall c: nat :: Gives(fills(c), slots, used, given(c)))
      && (forall c: nat, xs: seq<nat> :: |xs| == used && Drawn(xs, given(c)) ==> ReadsOk(answers(c)(xs), xs))
      && (forall c: nat, i: nat :: slots <= processed(c)(i))
    }
  }

  predicate Drawn(xs: seq<nat>, given: seq<nat>) {
    forall i :: 0 <= i < |xs| ==> xs[i] in given
  }

  /** The list that is read back holds only slots that were given. */
  lemma ReadsAreOfGiven(kernel: Kernel, slots: nat, used: nat, c: nat)
    requires kernel.Honest(slots, used)
    ensures Drawn(Sorted(kernel.given(c), slots), kernel.given(c))
    ensures ReadsOk(kernel.answers(c)(Sorted(kernel.given(c), slots)), Sorted(kernel.given(c), slots))
  {
    assert Gives(kernel.fills(c), slots, used, kernel.given(c));
    var xs := Sorted(kernel.given(c), slots);
    SortedMembers(kernel.given(c), slots);
    SortedCounts(kernel.given(c), slots);
    assert forall i :: 0 <= i < |xs| ==> xs[i] in xs;
  }

  lemma SpansAreSmall(spans: seq<Span>, words: seq<Word>, slots: nat, total: nat)
    requires Canonical(spans, words, slots, total)
    ensures forall i :: 0 <= i < |spans| ==> spans[i].count <= slots
  {
    forall i | 0 <= i < |spans| ensures spans[i].count <= slots {
      EndsBelow(spans, words, slots, i);
    }
  }

  method RemoveSpans(spans: seq<Span>, processed: nat -> nat, occupied: set<nat>)
    returns (ok: bool, cleared: nat, left: set<nat>)
    ensures ok <==> forall i :: 0 <= i < |spans| ==> spans[i].count <= processed(i)
    ensures ok ==> cleared == Total(spans) && left == Removed(occupied, spans, |spans|)
  {
    cleared, left := 0, occupied;
    for i := 0 to |spans|
      invariant cleared == Total(spans[..i]) && left == Removed(occupied, spans, i)
      invariant forall k :: 0 <= k < i ==> spans[k].count <= processed(k)
    {
      var ret := if processed(i) < spans[i].count then processed(i) else spans[i].count;
      left := left - SpanSlots(Span(spans[i].offset, ret));
      if ret != spans[i].count {
        return false, cleared, left;
      }
      TotalPrefix(spans, i);
      cleared := cleared + ret;
    }
    assert spans[..|spans|] == spans;
    ok := true;
  }

  /** The slots an honest kernel gave, in ascending order. */
  function Sorted(given: seq<nat>, slots: nat): seq<nat> {
    if slots == 0 then []
    else if slots - 1 in given then Sorted(given, slots - 1) + [slots - 1]
    else Sorted(given, slots - 1)
  }

  lemma {:induction false} SortedMembers(given: seq<nat>, slots: nat)
    ensures forall x: nat :: x in Sorted(given, slots) <==> x < slots && x in given
    ensures Ascending(Sorted(given, slots))
  {
    if slots != 0 {
      SortedMembers(given, slots - 1);
      var xs := Sorted(given, slots - 1);
      assert forall i :: 0 <= i < |xs| ==> xs[i] in xs;
    }
  }

  lemma SortedCounts(given: seq<nat>, slots: nat)
    requires Distinct(given) && InRange(given, slots)
    ensures |Sorted(given, slots)| == |given|
  {
    SortedMembers(given, slots);
    SameLength(Sorted(given, slots), given);
  }

  lemma {:induction false} SortedAgrees(words: seq<Word>, given: seq<nat>, slots: nat)
    requires Marks(words, given)
    ensures Members(words, slots) == Sorted(given, slots)
  {
    if slots != 0 {
      SortedAgrees(words, given, slots - 1);
    }
  }

  /** The completions of a chunk, in order. */
  function Answer(tag: u64, base: nat, part: seq<int>): (w: seq<Cqe>)
    requires IsTag(tag)
    ensures |w| == |part| && forall i :: 0 <= i < |w| ==> w[i] == Cqe(Tagged(tag, base + i), part[i], 0)
  {
    seq(|part|, i requires 0 <= i < |part| => Cqe(Tagged(tag, base + i), part[i], 0))
  }

  lemma AnswerCompletes(tag: u64, rule: Rule, base: nat, part: seq<int>)
    requires IsTag(tag) && base + |part| <= TWO48 && forall i :: 0 <= i < |part| ==> Accepts(rule, base + i, part[i])
    ensures var w := Answer(tag, base, part);
      Complete(w, tag, rule, base, |part|, part) && part == Found(w, tag, base, |part|)
  {
    var w := Answer(tag, base, part);
    forall i | 0 <= i < |part| ensures Cqe(Tagged(tag, base + i), part[i], 0) in w {
      assert w[i] == Cqe(Tagged(tag, base + i), part[i], 0);
    }
    CompleteIsUnique(w, tag, rule, base, |part|, part);
  }

  function FillInOrder(given: seq<nat>, b: nat): FillBatch {
    if b < Batches(|given|) then
      FillBatch(true, true, Answer(SOURCE_TAG, QD * b, Part(given, |given|, b)),
                Answer(TARGET_TAG, QD * b, Part(given, |given|, b)))
    else FillBatch(false, false, [], [])
  }

  /** What a read of an empty slot, or of one outside the table, fails with. */
  const EBADF: int := 9

  /** One byte from each slot that holds a file. */
  function ReadResults(part: seq<nat>, given: seq<nat>): (s: seq<int>)
    ensures |s| == |part| && forall i :: 0 <= i < |s| ==> s[i] == if part[i] in given then 1 else -EBADF
  {
    seq(|part|, i requires 0 <= i < |part| => if part[i] in given then 1 else -EBADF)
  }

  function ByteAt(listed: seq<nat>, j: nat): nat {
    if j < |listed| then Sentinel(listed[j]) else 0
  }

  function ListedPart(listed: seq<nat>, b: nat): (p: seq<nat>)
    requires b < Batches(|listed|)
    ensures |p| == Chunk(|listed|, b)
  {
    listed[QD * b..QD * b + Chunk(|listed|, b)]
  }

  function ReadInOrder(listed: seq<nat>, given: seq<nat>, b: nat): (r: ReadBack)
    ensures b < Batches(|listed|) ==> forall i: nat :: r.buffer(i) == ByteAt(listed, QD * b + i)
  {
    if b < Batches(|listed|) then
      ReadBack(true, true, Answer(VERIFY_TAG, QD * b, ReadResults(ListedPart(listed, b), given)),
               (i: nat) => ByteAt(listed, QD * b + i))
    else ReadBack(false, false, [], (i: nat) => 0)
  }

  /** For any choice of free slots, cycle after cycle, there is a kernel that Reuse calls honest; and it need not
      answer a read of a slot that holds no file. */
  lemma AnySlotsWillDo(given: nat -> seq<nat>, slots: nat, used: nat) returns (kernel: Kernel)
    requires used <= TWO32 && forall c: nat :: |given(c)| == used && Distinct(given(c)) && InRange(given(c), slots)
    ensures kernel.given == given && kernel.Honest(slots, used)
    ensures forall c: nat, xs: seq<nat> :: |xs| == used && !Drawn(xs, given(c)) ==> !ReadsOk(kernel.answers(c)(xs), xs)
  {
    kernel := Kernel(given, (c: nat) => ((b: nat) => FillInOrder(given(c), b)),
                     (c: nat) => ((xs: seq<nat>) => ((b: nat) => ReadInOrder(xs, given(c), b))),
                     (c: nat) => ((i: nat) => slots));
    forall c: nat ensures Gives(kernel.fills(c), slots, used, given(c)) {
      FillsGive(given(c), slots, kernel.fills(c));
    }
    forall c: nat, xs: seq<nat> | |xs| == used ensures ReadsOk(kernel.answers(c)(xs), xs) <==> Drawn(xs, given(c)) {
      ReadsAnswer(xs, given(c), kernel.answers(c)(xs));
    }
  }

  lemma FillsGive(given: seq<nat>, slots: nat, fills: nat -> FillBatch)
    requires |given| <= TWO32 && Distinct(given) && InRange(given, slots)
    requires forall b: nat :: fills(b) == FillInOrder(given, b)
    ensures Gives(fills, slots, |given|, given)
  {
    forall b | 0 <= b < Batches(|given|) ensures ChunkFilled(fills(b), slots, QD * b, Part(given, |given|, b)) {
      AnswerCompletes(SOURCE_TAG, FixedSlot(slots), QD * b, Part(given, |given|, b));
      AnswerCompletes(TARGET_TAG, FixedSlot(slots), QD * b, Part(given, |given|, b));
    }
  }

  /** Such reads are good exactly when all the slots hold files. */
  lemma ReadsAnswer(listed: seq<nat>, given: seq<nat>, answers: nat -> ReadBack)
    requires |listed| <= TWO32 && forall b: nat :: answers(b) == ReadInOrder(listed, given, b)
    ensures ReadsOk(answers, listed) <==> Drawn(listed, given)
  {
    forall b | 0 <= b < Batches(|listed|)
      ensures ChunkRead(answers(b), QD * b, ListedPart(listed, b)) <==> Drawn(ListedPart(listed, b), given)
    {
      ChunkAnswers(listed, given, b, answers(b));
    }
    if ReadsOk(answers, listed) {
      forall i | 0 <= i < |listed| ensures listed[i] in given {
        assert ChunkRead(answers(i / QD), QD * (i / QD), ListedPart(listed, i / QD));
        assert listed[i] == ListedPart(listed, i / QD)[i % QD];
      }
    }
  }

  lemma ChunkAnswers(listed: seq<nat>, given: seq<nat>, b: nat, answer: ReadBack)
    requires |listed| <= TWO32 && b < Batches(|listed|) && answer == ReadInOrder(listed, given, b)
    ensures ChunkRead(answer, QD * b, ListedPart(listed, b)) <==> Drawn(ListedPart(listed, b), given)
  {
    var part := ListedPart(listed, b);
    forall i | 0 <= i < |part| ensures answer.buffer(i) == Sentinel(part[i]) {
      assert answer.buffer(i) == ByteAt(listed, QD * b + i);
    }
    if Drawn(part, given) {
      AnswerCompletes(VERIFY_TAG, OneByte, QD * b, ReadResults(part, given));
    } else {
      var i :| 0 <= i < |part| && part[i] !in given;
      BadRead(QD * b, part, given, i);
    }
  }

  /** One failed read spoils the batch. */
  lemma BadRead(base: nat, part: seq<nat>, given: seq<nat>, i: nat)
    requires base + |part| <= TWO48 && i < |part| && part[i] !in given
    ensures var w := Answer(VERIFY_TAG, base, ReadResults(part, given));
      !Complete(w, VERIFY_TAG, OneByte, base, |part|, Found(w, VERIFY_TAG, base, |part|))
  {
    var w := Answer(VERIFY_TAG, base, ReadResults(part, given));
    var rs := Found(w, VERIFY_TAG, base, |part|);
    if Describes(w, VERIFY_TAG, base, rs) {
      DescribedWindow(w, VERIFY_TAG, base, rs);
      DecodeInvertsTagging(w[i].userData, VERIFY_TAG, base, |part|, i);
      assert rs[i] == w[i].res;
    }
  }
}
