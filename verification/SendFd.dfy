/** run_send_fd_once of io_uring_msg_ring_round.c: what its semantic_pass verdict is worth against a
    kernel that may report anything. */
module SendFd {
  import opened Words
  import opened Counting
  import opened Completions
  import opened Bitmaps
  import opened MsgRing

  datatype Enter = Entered | EnterFailed(timedOut: bool)

  /** What the kernel answers to one batch of messages: whether the submission queue had room, how
      io_uring_enter ended, and the completions then found on the two rings. */
  datatype Batch = Batch(reserved: bool, enter: Enter, source: seq<Cqe>, target: seq<Cqe>)

  /** What it answers to one batch of verification reads, with the bytes left in the buffers. */
  datatype ReadBatch = ReadBatch(reserved: bool, enter: Enter, cqes: seq<Cqe>, buffer: nat -> nat)

  /** The two rings' dropped and overflow counters and what is outstanding on them at the end. */
  datatype Health = Health(sourceDropped: nat, sourceOverflow: nat, targetDropped: nat, targetOverflow: nat,
                           sourceOutstanding: nat, targetOutstanding: nat)

  /** Every answer of the kernel during one run. */
  datatype Script = Script(ringCreated: bool, tableRegistered: bool,
                           batches: nat -> Batch, readBatches: nat -> ReadBatch,
                           health: Health, unregistered: bool)

  // ---- pairing the two streams ----

  datatype Paired = Paired(c: Counts, words: seq<Word>)

  /** Results that an ok flag vouches for fit the bitmap. */
  predicate Fits(b: FullBook, words: nat) {
    forall i :: 0 <= i < QD && b.ok[i] ==> 0 <= b.res[i] && b.res[i] / 64 < words
  }

  function PairOne(p: Paired, s: FullBook, t: FullBook, i: nat): (p': Paired)
    requires i < QD && Fits(s, |p.words|)
    ensures |p'.words| == |p.words|
  {
    var c := p.c.(missing := p.c.missing + (if s.seen[i] then 0 else 1) + (if t.seen[i] then 0 else 1));
    if !s.seen[i] || !t.seen[i] || !s.ok[i] || !t.ok[i] then
      p.(c := c)
    else if s.res[i] != t.res[i] then
      p.(c := c.(pairMismatches := c.pairMismatches + 1))
    else if Has(p.words, s.res[i]) then
      p.(c := c.(duplicates := c.duplicates + 1))
    else
      Paired(c.(successfulOps := c.successfulOps + 1, slotsInstalled := c.slotsInstalled + 1),
             SetBit(p.words, s.res[i]))
  }

  function PairAll(p: Paired, s: FullBook, t: FullBook, n: nat): (p': Paired)
    requires n <= QD && Fits(s, |p.words|)
    ensures |p'.words| == |p.words|
  {
    if n == 0 then p else PairOne(PairAll(p, s, t, n - 1), s, t, n - 1)
  }

  /** The whole pairing loop. */
  ghost function PairBatchOf(p: Paired, s: FullBook, t: FullBook): (p': Paired)
    requires Fits(s, |p.words|)
    ensures |p'.words| == |p.words|
  {
    var n := |s.res|;
    PairAll(p, s, t, n)
  }

  /** The first n operations were given equal, distinct slots that were free before. */
  ghost predicate FreshPairs(words: seq<Word>, s: FullBook, t: FullBook, n: nat)
    requires n <= QD
  {
    && (forall i :: 0 <= i < n ==> s.res[i] == t.res[i] && 0 <= s.res[i] && !Has(words, s.res[i]))
    && Distinct(s.res[..n])
  }

  lemma FreshPairsStep(words: seq<Word>, s: FullBook, t: FullBook, n: nat)
    requires 0 < n <= QD
    ensures FreshPairs(words, s, t, n) <==>
      && FreshPairs(words, s, t, n - 1) && s.res[n - 1] == t.res[n - 1] && 0 <= s.res[n - 1]
      && !Has(words, s.res[n - 1]) && s.res[n - 1] !in s.res[..n - 1]
  {
    assert s.res[..n] == s.res[..n - 1] + [s.res[n - 1]];
  }

  lemma {:induction false} PairMeans(p: Paired, s: FullBook, t: FullBook, n: nat)
    requires n <= QD && Fits(s, |p.words|) && Clean(p.c)
    requires forall i :: 0 <= i < QD ==> s.seen[i] && t.seen[i] && s.ok[i] && t.ok[i]
    ensures var q := PairAll(p, s, t, n);
      && (Clean(q.c) <==> FreshPairs(p.words, s, t, n))
      && (Clean(q.c) ==>
            && q.c == p.c.(successfulOps := p.c.successfulOps + n, slotsInstalled := p.c.slotsInstalled + n)
            && forall x: nat :: Has(q.words, x) <==> Has(p.words, x) || x in s.res[..n])
  {
    if n != 0 {
      PairMeans(p, s, t, n - 1);
      FreshPairsStep(p.words, s, t, n);
      PairOneMeans(PairAll(p, s, t, n - 1), s, t, n - 1);
      assert s.res[..n] == s.res[..n - 1] + [s.res[n - 1]];
    }
  }

  lemma PairOneMeans(p: Paired, s: FullBook, t: FullBook, i: nat)
    requires i < QD && Fits(s, |p.words|)
    requires s.seen[i] && t.seen[i] && s.ok[i] && t.ok[i]
    ensures var q := PairOne(p, s, t, i);
      && (Clean(q.c) <==> Clean(p.c) && s.res[i] == t.res[i] && !Has(p.words, s.res[i]))
      && (Clean(q.c) ==>
            && q.c == p.c.(successfulOps := p.c.successfulOps + 1, slotsInstalled := p.c.slotsInstalled + 1)
            && forall x: nat :: Has(q.words, x) <==> x == s.res[i] || Has(p.words, x))
  {
  }

  lemma {:induction false} PairKeepsErrors(p: Paired, s: FullBook, t: FullBook, n: nat)
    requires n <= QD && Fits(s, |p.words|)
    requires !Clean(p.c) || exists i :: 0 <= i < n && !(s.seen[i] && t.seen[i])
    ensures !Clean(PairAll(p, s, t, n).c)
  {
    if n != 0 {
      if Clean(p.c) && s.seen[n - 1] && t.seen[n - 1] {
        var i :| 0 <= i < n && !(s.seen[i] && t.seen[i]);
        assert i < n - 1;
      }
      if !Clean(p.c) || (s.seen[n - 1] && t.seen[n - 1]) {
        PairKeepsErrors(p, s, t, n - 1);
      }
    }
  }

  /** Distinct slots that are still free. */
  ghost predicate FreshSlots(words: seq<Word>, slots: seq<int>) {
    Distinct(slots) && forall i :: 0 <= i < |slots| ==> 0 <= slots[i] && !Has(words, slots[i])
  }

  /** The verdict of the pairing loop on two streams that were drained without error. */
  lemma PairBatchMeans(p: Paired, s: FullBook, t: FullBook)
    requires Fits(s, |p.words|) && Clean(p.c)
    requires forall i :: 0 <= i < QD ==> s.seen[i] && t.seen[i] && s.ok[i] && t.ok[i]
    ensures Clean(PairBatchOf(p, s, t).c) <==> s.res == t.res && FreshSlots(p.words, s.res)
    ensures Clean(PairBatchOf(p, s, t).c) ==>
      PairBatchOf(p, s, t).c ==
        p.c.(successfulOps := p.c.successfulOps + QD, slotsInstalled := p.c.slotsInstalled + QD)
    ensures Clean(PairBatchOf(p, s, t).c) ==>
      forall x: nat :: Has(PairBatchOf(p, s, t).words, x) <==> Has(p.words, x) || x in s.res
  {
    PairMeans(p, s, t, |s.res|);
    assert s.res[..|s.res|] == s.res;
  }

  lemma PairCleanNeeds(p: Paired, s: FullBook, t: FullBook)
    requires Fits(s, |p.words|) && Clean(PairBatchOf(p, s, t).c)
    ensures Clean(p.c) && forall i :: 0 <= i < QD ==> s.seen[i] && t.seen[i]
  {
    if !Clean(p.c) || exists i :: 0 <= i < QD && !(s.seen[i] && t.seen[i]) {
      PairKeepsErrors(p, s, t, |s.res|);
    }
  }

  /** The pairing loop of a batch. */
  method PairBatch(source: Stream, target: Stream, bitmap: array<Word>, result: Result,
                   ghost s: FullBook, ghost t: FullBook)
    requires source.Valid() && target.Valid() && source.Holds(s) && target.Holds(t)
    requires Fits(s, bitmap.Length)
    modifies bitmap, result
    ensures Paired(result.c, bitmap[..]) == PairBatchOf(Paired(old(result.c), old(bitmap[..])), s, t)
  {
    ghost var p := Paired(result.c, bitmap[..]);
    for i := 0 to QD
      invariant Paired(result.c, bitmap[..]) == PairAll(p, s, t, i)
    {
      if !source.seen[i] {
        result.c := result.c.(missing := result.c.missing + 1);
      }
      if !target.seen[i] {
        result.c := result.c.(missing := result.c.missing + 1);
      }
      if !source.seen[i] || !target.seen[i] || !source.ok[i] || !target.ok[i] {
        continue;
      }
      if source.res[i] != target.res[i] {
        result.c := result.c.(pairMismatches := result.c.pairMismatches + 1);
        continue;
      }
      var slot := source.res[i];
      if slot % 64 in bitmap[slot / 64] {
        result.c := result.c.(duplicates := result.c.duplicates + 1);
        continue;
      }
      bitmap[slot / 64] := bitmap[slot / 64] + {slot % 64};
      result.c := result.c.(successfulOps := result.c.successfulOps + 1,
                            slotsInstalled := result.c.slotsInstalled + 1);
    }
  }

  // ---- installing ----

  /** The kernel gave operation i of the first n batches slot slots[i], and said so exactly once on each ring. */
  ghost predicate Installed(script: Script, total: nat, n: nat, slots: seq<int>) {
    && |slots| == QD * n && Distinct(slots) && InRange(slots, total)
    && forall b :: 0 <= b < n ==> BatchInstalled(script.batches(b), QD * b, slots[QD * b..QD * b + QD])
  }

  ghost predicate Installable(script: Script, total: nat, n: nat) {
    exists slots :: Installed(script, total, n, slots)
  }

  ghost predicate BatchInstalled(batch: Batch, base: nat, slots: seq<int>) {
    && batch.reserved && batch.enter.Entered?
    && Describes(batch.source, SOURCE_TAG, base, slots)
    && Describes(batch.target, TARGET_TAG, base, slots)
  }

  /** The counters after n clean batches. */
  function AfterBatches(n: nat): Counts {
    ZERO.(sqes := QD * n, sourceCqes := QD * n, targetCqes := QD * n,
          successfulOps := QD * n, slotsInstalled := QD * n)
  }

  /** The counters are those of a clean run: nothing is wrong, and all that was counted is as expected. */
  ghost predicate OnTrack(c: Counts, words: seq<Word>, n: nat, slots: seq<int>) {
    c == AfterBatches(n) && Marks(words, slots)
  }

  lemma InstalledPrefix(script: Script, total: nat, n: nat, slots: seq<int>)
    requires n > 0 && Installed(script, total, n, slots)
    ensures Installed(script, total, n - 1, slots[..QD * (n - 1)])
    ensures BatchInstalled(script.batches(n - 1), QD * (n - 1), slots[QD * (n - 1)..])
  {
    var front := slots[..QD * (n - 1)];
    forall b | 0 <= b < n - 1
      ensures BatchInstalled(script.batches(b), QD * b, front[QD * b..QD * b + QD])
    {
      assert front[QD * b..QD * b + QD] == slots[QD * b..QD * b + QD];
    }
    assert slots[QD * (n - 1)..QD * (n - 1) + QD] == slots[QD * (n - 1)..];
  }

  lemma InstalledExtend(script: Script, total: nat, n: nat, slots: seq<int>, more: seq<int>)
    requires Installed(script, total, n, slots) && |more| == QD
    requires Distinct(more) && InRange(more, total) && forall i :: 0 <= i < QD ==> more[i] !in slots
    requires BatchInstalled(script.batches(n), QD * n, more)
    ensures Installed(script, total, n + 1, slots + more)
  {
    var all := slots + more;
    forall b | 0 <= b < n + 1
      ensures BatchInstalled(script.batches(b), QD * b, all[QD * b..QD * b + QD])
    {
      if b < n {
        assert all[QD * b..QD * b + QD] == slots[QD * b..QD * b + QD];
      } else {
        assert all[QD * b..QD * b + QD] == more;
      }
    }
  }

  /** The kernel's answers determine the slots. */
  lemma {:induction false} InstalledIsUnique(script: Script, total: nat, n: nat, s: seq<int>, t: seq<int>)
    requires QD * n <= TWO48
    requires Installed(script, total, n, s) && Installed(script, total, n, t)
    ensures s == t
  {
    if n != 0 {
      InstalledPrefix(script, total, n, s);
      InstalledPrefix(script, total, n, t);
      InstalledIsUnique(script, total, n - 1, s[..QD * (n - 1)], t[..QD * (n - 1)]);
      var base, w := QD * (n - 1), script.batches(n - 1).source;
      SlotsAreUnique(w, total, base, s[base..], t[base..], s, t);
      assert s == s[..base] + s[base..] && t == t[..base] + t[base..];
    }
  }

  lemma SlotsAreUnique(w: seq<Cqe>, total: nat, base: nat, ss: seq<int>, tt: seq<int>, s: seq<int>, t: seq<int>)
    requires base + QD <= TWO48 && base + QD == |s| == |t| && ss == s[base..] && tt == t[base..]
    requires InRange(s, total) && InRange(t, total)
    requires Describes(w, SOURCE_TAG, base, ss) && Describes(w, SOURCE_TAG, base, tt)
    ensures ss == tt
  {
    assert forall i :: 0 <= i < QD ==> ss[i] == s[base + i] && tt[i] == t[base + i];
    GoodIsUnique(w, SOURCE_TAG, FixedSlot(total), base, ss);
    GoodIsUnique(w, SOURCE_TAG, FixedSlot(total), base, tt);
  }

  /** The counters once both streams of a batch have been drained into s and t. */
  function AfterDrains(c: Counts, batch: Batch, s: FullBook, t: FullBook): Counts {
    Drained(Drained(c.(sqes := c.sqes + QD), Source, s, batch.source, |batch.source|),
            Target, t, batch.target, |batch.target|)
  }

  ghost predicate JudgesBoth(batch: Batch, base: nat, total: nat, s: FullBook, t: FullBook) {
    && Judges(s, batch.source, SOURCE_TAG, FixedSlot(total), base)
    && Judges(t, batch.target, TARGET_TAG, FixedSlot(total), base)
  }

  /** The slots a batch's source stream reports, which its target stream must report as well. */
  ghost predicate BatchOk(words: seq<Word>, batch: Batch, base: nat, total: nat, slots: seq<int>) {
    && Good(batch.source, SOURCE_TAG, FixedSlot(total), base, slots)
    && Good(batch.target, TARGET_TAG, FixedSlot(total), base, slots)
    && FreshSlots(words, slots)
  }

  /** What a clean batch adds to the counters. */
  function OneBatchMore(c: Counts): Counts {
    c.(sqes := c.sqes + QD, sourceCqes := c.sourceCqes + QD, targetCqes := c.targetCqes + QD,
       successfulOps := c.successfulOps + QD, slotsInstalled := c.slotsInstalled + QD)
  }

  lemma DrainsClean(c: Counts, s: FullBook, t: FullBook, batch: Batch)
    ensures Clean(AfterDrains(c, batch, s, t)) <==>
      Clean(c) && NoErrors(s) && NoErrors(t) && |batch.source| == QD && |batch.target| == QD
    ensures Clean(AfterDrains(c, batch, s, t)) ==>
      AfterDrains(c, batch, s, t) ==
        c.(sqes := c.sqes + QD, sourceCqes := c.sourceCqes + QD, targetCqes := c.targetCqes + QD)
  {
  }

  lemma CleanBatchIsSpotless(c: Counts, words: seq<Word>, batch: Batch, s: FullBook, t: FullBook)
    requires Clean(c) && Fits(s, |words|)
    requires Clean(PairBatchOf(Paired(AfterDrains(c, batch, s, t), words), s, t).c)
    ensures Spotless(batch.source, s) && Spotless(batch.target, t) && Clean(AfterDrains(c, batch, s, t))
  {
    PairCleanNeeds(Paired(AfterDrains(c, batch, s, t), words), s, t);
    DrainsClean(c, s, t, batch);
  }

  lemma CleanBatchIsOk(c: Counts, words: seq<Word>, batch: Batch, base: nat, total: nat, s: FullBook, t: FullBook)
    requires Clean(c) && JudgesBoth(batch, base, total, s, t) && Fits(s, |words|)
    requires Clean(PairBatchOf(Paired(AfterDrains(c, batch, s, t), words), s, t).c)
    ensures var q := PairBatchOf(Paired(AfterDrains(c, batch, s, t), words), s, t);
      && BatchOk(words, batch, base, total, s.res)
      && q.c == OneBatchMore(c)
      && forall x: nat :: Has(q.words, x) <==> Has(words, x) || x in s.res
  {
    CleanBatchIsSpotless(c, words, batch, s, t);
    DrainsClean(c, s, t, batch);
    PairBatchMeans(Paired(AfterDrains(c, batch, s, t), words), s, t);
  }

  lemma OkBatchIsClean(c: Counts, words: seq<Word>, batch: Batch, base: nat, total: nat, s: FullBook, t: FullBook,
                       slots: seq<int>)
    requires base + QD <= TWO48 && Clean(c) && JudgesBoth(batch, base, total, s, t) && Fits(s, |words|)
    requires BatchOk(words, batch, base, total, slots)
    ensures Clean(PairBatchOf(Paired(AfterDrains(c, batch, s, t), words), s, t).c)
  {
    GoodIsUnique(batch.source, SOURCE_TAG, FixedSlot(total), base, slots);
    GoodIsUnique(batch.target, TARGET_TAG, FixedSlot(total), base, slots);
    DrainsClean(c, s, t, batch);
    PairBatchMeans(Paired(AfterDrains(c, batch, s, t), words), s, t);
  }

  /** A batch that leaves no error behind installed what it says. */
  lemma CleanBatchInstalls(script: Script, total: nat, n: nat, slots: seq<int>, words: seq<Word>, more: seq<int>)
    requires Installed(script, total, n, slots) && Marks(words, slots)
    requires script.batches(n).reserved && script.batches(n).enter.Entered?
    requires BatchOk(words, script.batches(n), QD * n, total, more)
    ensures Installed(script, total, n + 1, slots + more)
  {
    forall i | 0 <= i < QD ensures more[i] !in slots && 0 <= more[i] < total {
      assert Accepts(FixedSlot(total), QD * n + i, more[i]);
    }
    InstalledExtend(script, total, n, slots, more);
  }

  /** A batch the kernel installed properly leaves no error behind. */
  lemma InstalledBatchIsOk(script: Script, total: nat, n: nat, slots: seq<int>, words: seq<Word>, all: seq<int>)
    requires QD * n + QD <= TWO48
    requires Installed(script, total, n, slots) && Marks(words, slots)
    requires Installed(script, total, n + 1, all)
    ensures BatchOk(words, script.batches(n), QD * n, total, all[QD * n..])
  {
    var base := QD * n;
    InstalledPrefix(script, total, n + 1, all);
    InstalledIsUnique(script, total, n, slots, all[..base]);
    var more := all[base..];
    forall i | 0 <= i < QD ensures 0 <= more[i] < total && !Has(words, more[i]) {
      assert more[i] == all[base + i];
      assert more[i] !in all[..base];
    }
    assert Distinct(more) by {
      assert forall i, j :: 0 <= i < j < QD ==> more[i] == all[base + i] && more[j] == all[base + j];
    }
  }

  /** Draining both rings of a batch. */
  method DrainBatch(batch: Batch, base: nat, total: nat, result: Result)
    returns (source: Stream, target: Stream, ghost s: FullBook, ghost t: FullBook)
    requires base + QD <= TWO48
    modifies result
    ensures fresh(source) && fresh(target) && source.Valid() && target.Valid()
    ensures fresh(source.seen) && fresh(source.ok) && fresh(source.res)
    ensures source.Holds(s) && target.Holds(t) && JudgesBoth(batch, base, total, s, t)
    ensures Vouched(s, FixedSlot(total), base)
    ensures result.c == Drained(Drained(old(result.c), Source, s, batch.source, |batch.source|),
                                Target, t, batch.target, |batch.target|)
  {
    source := new Stream();
    s := source.Contents();
    OkIsAccepted(s, batch.source, Keys(batch.source, SOURCE_TAG, base, QD), FixedSlot(total), base, |batch.source|);
    DrainVerdict(s, batch.source, SOURCE_TAG, FixedSlot(total), base);
    s := AbsorbAll(s, batch.source, Keys(batch.source, SOURCE_TAG, base, QD), FixedSlot(total), base, |batch.source|);
    Drain(batch.source, Source, SOURCE_TAG, FixedSlot(total), base, source, result);
    target := new Stream();
    t := target.Contents();
    DrainVerdict(t, batch.target, TARGET_TAG, FixedSlot(total), base);
    t := AbsorbAll(t, batch.target, Keys(batch.target, TARGET_TAG, base, QD), FixedSlot(total), base, |batch.target|);
    Drain(batch.target, Target, TARGET_TAG, FixedSlot(total), base, target, result);
  }

  /** One iteration of the installing loop; ok is false where the source leaves the function. */
  method InstallBatch(batch: Batch, base: nat, total: nat, bitmap: array<Word>, result: Result)
    returns (ok: bool, ghost s: FullBook, ghost t: FullBook)
    requires base + QD <= TWO48 && total <= 64 * bitmap.Length
    modifies bitmap, result
    ensures ok == (batch.reserved && batch.enter.Entered?)
    ensures ok ==> JudgesBoth(batch, base, total, s, t) && Fits(s, bitmap.Length)
    ensures ok ==> PairBatchOf(Paired(AfterDrains(old(result.c), batch, s, t), old(bitmap[..])), s, t)
                     == Paired(result.c, bitmap[..])
  {
    s, t := *, *;
    if !batch.reserved {
      return false, s, t;
    }
    result.c := result.c.(sqes := result.c.sqes + QD);
    if batch.enter.EnterFailed? {
      if batch.enter.timedOut {
        result.c := result.c.(timeouts := result.c.timeouts + 1);
      }
      return false, s, t;
    }
    var source, target;
    source, target, s, t := DrainBatch(batch, base, total, result);
    FitsBitmap(s, base, total, bitmap.Length);
    PairBatch(source, target, bitmap, result, s, t);
    ok := true;
  }

  lemma FitsBitmap(b: FullBook, base: nat, total: nat, words: nat)
    requires Vouched(b, FixedSlot(total), base) && total <= 64 * words
    ensures Fits(b, words)
  {
    forall i | 0 <= i < QD && b.ok[i] ensures 0 <= b.res[i] && b.res[i] / 64 < words {
      assert Accepts(FixedSlot(total), base + i, b.res[i]);
    }
  }

  /** Where the installing loop stands after n batches: its counters are clean exactly when the kernel has
      installed every operation so far, and then slots says where. */
  ghost predicate Progress(script: Script, total: nat, n: nat, slots: seq<int>, c: Counts, words: seq<Word>) {
    && (Clean(c) ==> Installed(script, total, n, slots) && OnTrack(c, words, n, slots))
    && (!Clean(c) ==> !Installable(script, total, n))
  }

  lemma ProgressAfterError(script: Script, total: nat, n: nat, slots: seq<int>, c: Counts, words: seq<Word>)
    requires Progress(script, total, n, slots, c, words) && !Clean(c)
    ensures !Installable(script, total, n + 1)
  {
    var m := n + 1;
    if s :| Installed(script, total, m, s) {
      InstalledPrefix(script, total, m, s);
    }
  }

  /** A batch keeps progress, whatever the two rings held. */
  lemma BatchKeepsProgress(script: Script, total: nat, n: nat, slots: seq<int>, c: Counts, words: seq<Word>,
                           s: FullBook, t: FullBook)
    requires QD * n + QD <= TWO48 && Progress(script, total, n, slots, c, words)
    requires script.batches(n).reserved && script.batches(n).enter.Entered?
    requires JudgesBoth(script.batches(n), QD * n, total, s, t) && Fits(s, |words|)
    ensures var q := PairBatchOf(Paired(AfterDrains(c, script.batches(n), s, t), words), s, t);
      Progress(script, total, n + 1, slots + s.res, q.c, q.words)
  {
    var batch := script.batches(n);
    var p := Paired(AfterDrains(c, batch, s, t), words);
    var q := PairBatchOf(p, s, t);
    if !Clean(c) {
      DrainsClean(c, s, t, batch);
      PairKeepsErrors(p, s, t, |s.res|);
      ProgressAfterError(script, total, n, slots, c, words);
    } else if Clean(q.c) {
      CleanBatchIsOk(c, words, batch, QD * n, total, s, t);
      CleanBatchInstalls(script, total, n, slots, words, s.res);
    } else {
      var m := n + 1;
      if all :| Installed(script, total, m, all) {
        InstalledBatchIsOk(script, total, n, slots, words, all);
        OkBatchIsClean(c, words, batch, QD * n, total, s, t, all[QD * n..]);
      }
    }
  }

  lemma {:induction false} InstalledNeeds(script: Script, total: nat, n: nat, slots: seq<int>, b: nat)
    requires Installed(script, total, n, slots) && b < n
    ensures script.batches(b).reserved && script.batches(b).enter.Entered?
  {
    assert BatchInstalled(script.batches(b), QD * b, slots[QD * b..QD * b + QD]);
  }

  /** The installing loop. */
  lemma FailureSpoils(script: Script, total: nat, n: nat, b: nat)
    requires b < n && !(script.batches(b).reserved && script.batches(b).enter.Entered?)
    ensures !Installable(script, total, n)
  {
    if all :| Installed(script, total, n, all) {
      InstalledNeeds(script, total, n, all, b);
    }
  }

  method InstallAll(script: Script, operations: nat, bitmap: array<Word>, result: Result)
    returns (ok: bool, ghost slots: seq<int>)
    requires operations % QD == 0 && operations <= TWO32 && operations == 64 * bitmap.Length
    requires result.c == ZERO && forall k :: 0 <= k < bitmap.Length ==> bitmap[k] == {}
    modifies bitmap, result
    ensures ok ==> Progress(script, operations, operations / QD, slots, result.c, bitmap[..])
    ensures !ok ==> !Installable(script, operations, operations / QD)
  {
    slots := [];
    var base := 0;
    ghost var n := 0;
    while base < operations
      invariant base == QD * n <= operations
      invariant Progress(script, operations, n, slots, result.c, bitmap[..])
    {
      ghost var c, words := result.c, bitmap[..];
      ghost var s, t;
      ok, s, t := InstallBatch(script.batches(base / QD), base, operations, bitmap, result);
      if !ok {
        FailureSpoils(script, operations, operations / QD, n);
        return;
      }
      BatchKeepsProgress(script, operations, n, slots, c, words, s, t);
      slots := slots + s.res;
      base := base + QD;
      n := n + 1;
    }
    ok := true;
  }

  /** How many of the first n slots no bit stands for. */
  function Absent(words: seq<Word>, n: nat): nat {
    if n == 0 then 0 else Absent(words, n - 1) + if Has(words, n - 1) then 0 else 1
  }

  lemma {:induction false} NoneAbsent(words: seq<Word>, n: nat)
    ensures Absent(words, n) == 0 <==> forall x :: 0 <= x < n ==> Has(words, x)
  {
    if n != 0 {
      NoneAbsent(words, n - 1);
    }
  }

  /** The inventory loop: every slot of the table must have been reported. */
  method CheckInventory(operations: nat, bitmap: array<Word>, result: Result)
    requires operations <= 64 * bitmap.Length
    modifies result
    ensures result.c == old(result.c).(missing := old(result.c).missing + Absent(bitmap[..], operations))
  {
    for x := 0 to operations
      invariant result.c == old(result.c).(missing := old(result.c).missing + Absent(bitmap[..], x))
    {
      if x % 64 !in bitmap[x / 64] {
        result.c := result.c.(missing := result.c.missing + 1);
      }
    }
  }

  // ---- reading back ----

  /** Every slot of the batch was read once, one byte, and holds the sentinel. */
  ghost predicate ReadOk(batch: ReadBatch, base: nat) {
    && batch.reserved && batch.enter.Entered?
    && Describes(batch.cqes, VERIFY_TAG, base, Uniform(1))
    && forall i :: 0 <= i < QD ==> batch.buffer(i) == Sentinel(base + i)
  }

  function Compared(c: Counts, b: FullBook, buffer: nat -> nat, base: nat, n: nat): Counts
    requires n <= QD
  {
    if n == 0 then c else
      var d := Compared(c, b, buffer, base, n - 1);
      var e := if b.seen[n - 1] then d.(verifyReads := d.verifyReads + 1) else d.(missing := d.missing + 1);
      if buffer(n - 1) == Sentinel(base + n - 1) then e.(slotsVerified := e.slotsVerified + 1)
      else e.(sentinelMismatches := e.sentinelMismatches + 1)
  }

  /** What n slots read back add to the counters. */
  function Verified(c: Counts, n: nat): Counts {
    c.(verifyReads := c.verifyReads + n, slotsVerified := c.slotsVerified + n)
  }

  lemma {:induction false} ComparedMeans(c: Counts, b: FullBook, buffer: nat -> nat, base: nat, n: nat)
    requires n <= QD
    ensures Clean(Compared(c, b, buffer, base, n)) <==>
      Clean(c) && forall i :: 0 <= i < n ==> b.seen[i] && buffer(i) == Sentinel(base + i)
    ensures Clean(Compared(c, b, buffer, base, n)) ==>
      Compared(c, b, buffer, base, n) == Verified(c, n)
  {
    if n != 0 {
      ComparedMeans(c, b, buffer, base, n - 1);
    }
  }

  /** The verdict on one batch of reads. */
  lemma ReadVerdict(c: Counts, b: FullBook, batch: ReadBatch, base: nat)
    requires base + QD <= TWO48 && Judges(b, batch.cqes, VERIFY_TAG, OneByte, base)
    requires batch.reserved && batch.enter.Entered?
    ensures var d := Compared(Drained(c, Reads, b, batch.cqes, |batch.cqes|), b, batch.buffer, base, |b.seen|);
      && (Clean(d) <==> Clean(c) && ReadOk(batch, base))
      && (Clean(d) ==> d == Verified(c, QD))
  {
    var rs := ResultsOf(batch.cqes, VERIFY_TAG, base);
    var ones := Uniform(1);
    ComparedMeans(Drained(c, Reads, b, batch.cqes, |batch.cqes|), b, batch.buffer, base, |b.seen|);
    if Good(batch.cqes, VERIFY_TAG, OneByte, base, rs) {
      assert forall i :: 0 <= i < QD ==> Accepts(OneByte, base + i, rs[i]);
      assert rs == ones;
    }
    if ReadOk(batch, base) {
      GoodIsUnique(batch.cqes, VERIFY_TAG, OneByte, base, ones);
    }
  }

  /** One iteration of verify_fixed_files; ok is false where it gives up. */
  method VerifyBatch(batch: ReadBatch, base: nat, result: Result) returns (ok: bool)
    requires base + QD <= TWO48
    modifies result
    ensures ok == (batch.reserved && batch.enter.Entered?)
    ensures ok ==> (Clean(result.c) <==> Clean(old(result.c)) && ReadOk(batch, base))
    ensures ok && Clean(result.c) ==> result.c == Verified(old(result.c), QD)
  {
    if !batch.reserved {
      return false;
    }
    if batch.enter.EnterFailed? {
      if batch.enter.timedOut {
        result.c := result.c.(timeouts := result.c.timeouts + 1);
      }
      return false;
    }
    var stream := new Stream();
    DrainVerdict(stream.Contents(), batch.cqes, VERIFY_TAG, OneByte, base);
    ghost var b := AbsorbAll(stream.Contents(), batch.cqes, Keys(batch.cqes, VERIFY_TAG, base, QD), OneByte, base,
                             |batch.cqes|);
    Drain(batch.cqes, Reads, VERIFY_TAG, OneByte, base, stream, result);
    CompareBuffers(batch, base, stream, result, b);
    ReadVerdict(old(result.c), b, batch, base);
    ok := true;
  }

  method CompareBuffers(batch: ReadBatch, base: nat, stream: Stream, result: Result, ghost b: FullBook)
    requires stream.Valid() && stream.Holds(b)
    modifies result
    ensures result.c == Compared(old(result.c), b, batch.buffer, base, |b.seen|)
  {
    for i := 0 to QD
      invariant result.c == Compared(old(result.c), b, batch.buffer, base, i)
    {
      if !stream.seen[i] {
        result.c := result.c.(missing := result.c.missing + 1);
      } else {
        result.c := result.c.(verifyReads := result.c.verifyReads + 1);
      }
      if batch.buffer(i) != Sentinel(base + i) {
        result.c := result.c.(sentinelMismatches := result.c.sentinelMismatches + 1);
      } else {
        result.c := result.c.(slotsVerified := result.c.slotsVerified + 1);
      }
    }
  }

  /** verify_fixed_files. */
  method VerifyFixedFiles(script: Script, slots: nat, result: Result) returns (ok: bool)
    requires slots % QD == 0 && slots <= TWO32
    modifies result
    ensures ok && Clean(result.c) <==>
      Clean(old(result.c)) && forall b :: 0 <= b < slots / QD ==> ReadOk(script.readBatches(b), QD * b)
    ensures ok && Clean(result.c) ==> result.c == Verified(old(result.c), slots)
  {
    var base := 0;
    ghost var n := 0;
    while base < slots
      invariant base == QD * n <= slots
      invariant Clean(result.c) <==>
        Clean(old(result.c)) && forall b :: 0 <= b < n ==> ReadOk(script.readBatches(b), QD * b)
      invariant Clean(result.c) ==> result.c == Verified(old(result.c), base)
    {
      ok := VerifyBatch(script.readBatches(base / QD), base, result);
      if !ok {
        assert !ReadOk(script.readBatches(n), QD * n);
        return;
      }
      base := base + QD;
      n := n + 1;
    }
    ok := true;
  }

  // ---- the verdict ----

  predicate Healthy(h: Health) {
    h == Health(0, 0, 0, 0, 0, 0)
  }

  /** Everything semantic_pass is meant to stand for: slots is a bijection between the operations and the slots
      of the table, both rings reported it once per operation, every slot was read back, and nothing was dropped,
      overflowed, left outstanding or left registered. */
  ghost predicate Honest(script: Script, operations: nat, slots: seq<int>) {
    && script.ringCreated && script.tableRegistered && script.unregistered && Healthy(script.health)
    && Installed(script, operations, operations / QD, slots)
    && forall b :: 0 <= b < operations / QD ==> ReadOk(script.readBatches(b), QD * b)
  }

  /** The body of run_send_fd_once up to its cleanup. */
  method InstallAndVerify(script: Script, operations: u32) returns (ok: bool, counts: Counts)
    requires operations > 0 && operations % QD == 0
    ensures ok && Clean(counts) <==>
      && Installable(script, operations, operations / QD)
      && forall b :: 0 <= b < operations / QD ==> ReadOk(script.readBatches(b), QD * b)
    ensures ok && Clean(counts) ==> counts == Verified(AfterBatches(operations / QD), operations)
  {
    var result := new Result();
    var bitmap := new Word[(operations + 63) / 64](_ => {});
    ghost var slots;
    ok, slots := InstallAll(script, operations, bitmap, result);
    if ok {
      ghost var c := result.c;
      CheckInventory(operations, bitmap, result);
      NoneAbsent(bitmap[..], operations);
      if Clean(c) {
        OntoByCount(slots, operations);
        assert forall x :: 0 <= x < operations ==> Has(bitmap[..], x);
      }
      if result.c.missing == 0 {
        ok := VerifyFixedFiles(script, operations, result);
      }
    }
    counts := result.c;
  }

  /** run_send_fd_once: the verdict is right for every answer a kernel can give. */
  method RunSendFdOnce(script: Script, operations: u32) returns (semanticPass: bool, counts: Counts)
    ensures semanticPass <==>
      operations > 0 && operations % QD == 0 && exists slots :: Honest(script, operations, slots)
  {
    counts := ZERO;
    if operations == 0 || operations % QD != 0 {
      return false, counts;
    }
    if !script.ringCreated || !script.tableRegistered {
      return false, counts;
    }
    var ret;
    ret, counts := InstallAndVerify(script, operations);
    semanticPass := ret && counts.successfulOps == operations && counts.sqes == operations &&
      counts.sourceCqes == operations && counts.targetCqes == operations &&
      counts.verifyReads == operations && counts.slotsInstalled == operations &&
      counts.slotsVerified == operations && Clean(counts) && script.unregistered && Healthy(script.health);
    HonestParts(script, operations);
  }

  lemma HonestParts(script: Script, operations: nat)
    ensures (exists slots :: Honest(script, operations, slots)) <==>
      && script.ringCreated && script.tableRegistered && script.unregistered && Healthy(script.health)
      && Installable(script, operations, operations / QD)
      && forall b :: 0 <= b < operations / QD ==> ReadOk(script.readBatches(b), QD * b)
  {
    if Installable(script, operations, operations / QD) && !exists slots :: Honest(script, operations, slots) {
      var slots :| Installed(script, operations, operations / QD, slots);
      assert !Honest(script, operations, slots);
    }
  }

  /** What the verdict means for a single operation: its two completions name the same slot, which no other
      operation was given, and every slot belongs to some operation. */
  lemma HonestIsBijection(script: Script, operations: nat, slots: seq<int>)
    requires operations % QD == 0 && Honest(script, operations, slots)
    ensures |slots| == operations && Distinct(slots) && InRange(slots, operations) && Covers(slots, operations)
    ensures forall op :: 0 <= op < operations ==>
      && Cqe(Tagged(SOURCE_TAG, op), slots[op], 0) in script.batches(op / QD).source
      && Cqe(Tagged(TARGET_TAG, op), slots[op], 0) in script.batches(op / QD).target
  {
    OntoByCount(slots, operations);
    forall op | 0 <= op < operations
      ensures Cqe(Tagged(SOURCE_TAG, op), slots[op], 0) in script.batches(op / QD).source
      ensures Cqe(Tagged(TARGET_TAG, op), slots[op], 0) in script.batches(op / QD).target
    {
      var b, i := op / QD, op % QD;
      var part := slots[QD * b..QD * b + QD];
      assert BatchInstalled(script.batches(b), QD * b, part);
      assert part[i] == slots[op] && QD * b + i == op;
    }
  }

  // ---- an honest kernel exists for every allocation ----

  /** The kernel that gives operation i slot slots[i] and completes every batch in order. */
  function HonestKernel(slots: seq<nat>): Script {
    Script(true, true,
           (b: nat) => Batch(true, Entered, InOrder(SOURCE_TAG, QD * b, slots), InOrder(TARGET_TAG, QD * b, slots)),
           (b: nat) => ReadBatch(true, Entered, ReadInOrder(QD * b), (i: nat) => Sentinel(QD * b + i)),
           Health(0, 0, 0, 0, 0, 0), true)
  }

  function InOrder(tag: u64, base: nat, slots: seq<nat>): seq<Cqe>
    requires IsTag(tag)
  {
    if base + QD <= |slots| then
      seq(QD, i requires 0 <= i < QD => Cqe(Tagged(tag, base + i), slots[base + i], 0))
    else []
  }

  function ReadInOrder(base: nat): seq<Cqe> {
    seq(QD, i requires 0 <= i < QD => Cqe(Tagged(VERIFY_TAG, base + i), 1, 0))
  }

  lemma InOrderDescribes(tag: u64, base: nat, slots: seq<nat>)
    requires IsTag(tag) && base + QD <= |slots|
    ensures Describes(InOrder(tag, base, slots), tag, base, slots[base..base + QD])
    ensures Describes(ReadInOrder(base), VERIFY_TAG, base, Uniform(1))
  {
    var part := slots[base..base + QD];
    forall i | 0 <= i < QD
      ensures Cqe(Tagged(tag, base + i), part[i], 0) in InOrder(tag, base, slots)
      ensures Cqe(Tagged(VERIFY_TAG, base + i), Uniform(1)[i], 0) in ReadInOrder(base)
    {
      assert InOrder(tag, base, slots)[i] == Cqe(Tagged(tag, base + i), part[i], 0);
      assert ReadInOrder(base)[i] == Cqe(Tagged(VERIFY_TAG, base + i), 1, 0);
    }
  }

  /** Whatever free slots an honest allocator picks, the run passes. */
  lemma HonestKernelIsHonest(slots: seq<nat>)
    requires |slots| % QD == 0 && Distinct(slots) && InRange(slots, |slots|)
    ensures Honest(HonestKernel(slots), |slots|, slots)
  {
    var k := HonestKernel(slots);
    forall b | 0 <= b < |slots| / QD
      ensures BatchInstalled(k.batches(b), QD * b, slots[QD * b..QD * b + QD]) && ReadOk(k.readBatches(b), QD * b)
    {
      InOrderDescribes(SOURCE_TAG, QD * b, slots);
      InOrderDescribes(TARGET_TAG, QD * b, slots);
    }
  }
}
