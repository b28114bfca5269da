/** run_data_once of io_uring_msg_ring_round.c: the data messages, and the verdict on them. */
module DataRun {
  import opened Words
  import opened Counting
  import opened Completions
  import opened MsgRing
  import opened SendFd

  datatype Profile = Direct | Deferred

  /** The kernel's answers to one batch; flush is the extra io_uring_enter on a deferred target. */
  datatype DataBatch = DataBatch(reserved: bool, enter: Enter, flush: Enter, source: seq<Cqe>, target: seq<Cqe>)

  /** drained tells whether the final empty enter on a deferred target left its completion count alone. */
  datatype DataScript = DataScript(batches: nat -> DataBatch, lastFlush: Enter, drained: bool, health: Health)

  /** The answer the target must give to message base + i. */
  function Answers(base: nat): (rs: seq<int>)
    ensures |rs| == QD
  {
    seq(QD, i requires 0 <= i < QD => 1 + (base + i) % 1_000_000)
  }

  /** Each message of the batch completed once on the source with result 0 and once on the target with its
      own payload length, with no flags, in any order. */
  ghost predicate Delivered(profile: Profile, batch: DataBatch, base: nat) {
    && batch.reserved && batch.enter.Entered? && (profile.Deferred? ==> batch.flush.Entered?)
    && Describes(batch.source, SOURCE_TAG, base, Uniform(0))
    && Describes(batch.target, TARGET_TAG, base, Answers(base))
  }

  function Tallied(c: Counts, s: FullBook, t: FullBook, n: nat): Counts
    requires n <= QD
  {
    if n == 0 then c else
      var d := Tallied(c, s, t, n - 1);
      var e := d.(missing := d.missing + (if s.seen[n - 1] then 0 else 1) + (if t.seen[n - 1] then 0 else 1));
      if s.seen[n - 1] && t.seen[n - 1] && s.ok[n - 1] && t.ok[n - 1]
      then e.(successfulOps := e.successfulOps + 1) else e
  }

  lemma {:induction false} TalliedMeans(c: Counts, s: FullBook, t: FullBook, n: nat)
    requires n <= QD
    ensures Clean(Tallied(c, s, t, n)) <==> Clean(c) && forall i :: 0 <= i < n ==> s.seen[i] && t.seen[i]
    ensures Clean(Tallied(c, s, t, n)) && (forall i :: 0 <= i < n ==> s.ok[i] && t.ok[i]) ==>
      Tallied(c, s, t, n) == c.(successfulOps := c.successfulOps + n)
  {
    if n != 0 {
      TalliedMeans(c, s, t, n - 1);
    }
  }

  /** What a delivered batch adds to the counters. */
  function OneMore(c: Counts): Counts {
    c.(sqes := c.sqes + QD, sourceCqes := c.sourceCqes + QD, targetCqes := c.targetCqes + QD,
       successfulOps := c.successfulOps + QD)
  }

  function AfterBoth(c: Counts, batch: DataBatch, s: FullBook, t: FullBook): Counts {
    Drained(Drained(c.(sqes := c.sqes + QD), Source, s, batch.source, |batch.source|),
            Target, t, batch.target, |batch.target|)
  }

  lemma SourceGood(w: seq<Cqe>, base: nat)
    requires base + QD <= TWO48
    ensures Good(w, SOURCE_TAG, SourceData, base, ResultsOf(w, SOURCE_TAG, base)) <==>
      Describes(w, SOURCE_TAG, base, Uniform(0))
  {
    var rs, zeros := ResultsOf(w, SOURCE_TAG, base), Uniform(0);
    if Good(w, SOURCE_TAG, SourceData, base, rs) {
      assert forall i :: 0 <= i < QD ==> Accepts(SourceData, base + i, rs[i]);
      assert rs == zeros;
    }
    if Describes(w, SOURCE_TAG, base, zeros) {
      GoodIsUnique(w, SOURCE_TAG, SourceData, base, zeros);
    }
  }

  lemma TargetGood(w: seq<Cqe>, base: nat)
    requires base + QD <= TWO48
    ensures Good(w, TARGET_TAG, TargetData, base, ResultsOf(w, TARGET_TAG, base)) <==>
      Describes(w, TARGET_TAG, base, Answers(base))
  {
    var rs := ResultsOf(w, TARGET_TAG, base);
    if Good(w, TARGET_TAG, TargetData, base, rs) {
      assert forall i :: 0 <= i < QD ==> Accepts(TargetData, base + i, rs[i]);
      assert rs == Answers(base);
    }
    if Describes(w, TARGET_TAG, base, Answers(base)) {
      GoodIsUnique(w, TARGET_TAG, TargetData, base, Answers(base));
    }
  }

  lemma BothClean(c: Counts, batch: DataBatch, s: FullBook, t: FullBook)
    ensures Clean(AfterBoth(c, batch, s, t)) <==>
      Clean(c) && NoErrors(s) && NoErrors(t) && |batch.source| == QD && |batch.target| == QD
    ensures Clean(AfterBoth(c, batch, s, t)) ==>
      AfterBoth(c, batch, s, t).(successfulOps := c.successfulOps + QD) == OneMore(c)
    ensures AfterBoth(c, batch, s, t).successfulOps == c.successfulOps
  {
  }

  lemma BatchVerdict(c: Counts, batch: DataBatch, base: nat, s: FullBook, t: FullBook)
    requires base + QD <= TWO48
    requires Judges(s, batch.source, SOURCE_TAG, SourceData, base)
    requires Judges(t, batch.target, TARGET_TAG, TargetData, base)
    ensures var d := Tallied(AfterBoth(c, batch, s, t), s, t, |s.seen|);
      && (Clean(d) <==>
            && Clean(c) && Describes(batch.source, SOURCE_TAG, base, Uniform(0))
            && Describes(batch.target, TARGET_TAG, base, Answers(base)))
      && (Clean(d) ==> d == OneMore(c))
  {
    TalliedMeans(AfterBoth(c, batch, s, t), s, t, |s.seen|);
    BothClean(c, batch, s, t);
    SourceGood(batch.source, base);
    TargetGood(batch.target, base);
    assert Clean(Tallied(AfterBoth(c, batch, s, t), s, t, |s.seen|)) <==>
      Clean(c) && Spotless(batch.source, s) && Spotless(batch.target, t);
  }

  /** One iteration of the message loop; ok is false where the source returns early. */
  method RunBatch(profile: Profile, batch: DataBatch, base: nat, result: Result) returns (ok: bool)
    requires base + QD <= TWO48
    modifies result
    ensures ok == (batch.reserved && batch.enter.Entered? && (profile.Deferred? ==> batch.flush.Entered?))
    ensures ok && Clean(result.c) <==> Clean(old(result.c)) && Delivered(profile, batch, base)
    ensures ok && Clean(result.c) ==> result.c == OneMore(old(result.c))
  {
    if !batch.reserved {
      return false;
    }
    result.c := result.c.(sqes := result.c.sqes + QD);
    if batch.enter.EnterFailed? || (profile.Deferred? && batch.flush.EnterFailed?) {
      return false;
    }
    ghost var c := old(result.c);
    var source := new Stream();
    DrainVerdict(source.Contents(), batch.source, SOURCE_TAG, SourceData, base);
    ghost var s := AbsorbAll(source.Contents(), batch.source, Keys(batch.source, SOURCE_TAG, base, QD), SourceData,
                             base, |batch.source|);
    Drain(batch.source, Source, SOURCE_TAG, SourceData, base, source, result);
    var target := new Stream();
    DrainVerdict(target.Contents(), batch.target, TARGET_TAG, TargetData, base);
    ghost var t := AbsorbAll(target.Contents(), batch.target, Keys(batch.target, TARGET_TAG, base, QD), TargetData,
                             base, |batch.target|);
    Drain(batch.target, Target, TARGET_TAG, TargetData, base, target, result);
    TallyBatch(source, target, result, s, t);
    BatchVerdict(c, batch, base, s, t);
    ok := true;
  }

  method TallyBatch(source: Stream, target: Stream, result: Result, ghost s: FullBook, ghost t: FullBook)
    requires source.Valid() && target.Valid() && source.Holds(s) && target.Holds(t)
    modifies result
    ensures result.c == Tallied(old(result.c), s, t, |s.seen|)
  {
    for i := 0 to QD
      invariant result.c == Tallied(old(result.c), s, t, i)
    {
      if !source.seen[i] {
        result.c := result.c.(missing := result.c.missing + 1);
      }
      if !target.seen[i] {
        result.c := result.c.(missing := result.c.missing + 1);
      }
      if source.seen[i] && target.seen[i] && source.ok[i] && target.ok[i] {
        result.c := result.c.(successfulOps := result.c.successfulOps + 1);
      }
    }
  }

  /** run_data_once: it passes exactly when every message was delivered once, whatever the rings contained. */
  method RunDataOnce(profile: Profile, script: DataScript, operations: u32) returns (semanticPass: bool)
    ensures semanticPass <==>
      && operations > 0 && operations % QD == 0
      && (forall b :: 0 <= b < operations / QD ==> Delivered(profile, script.batches(b), QD * b))
      && (profile.Deferred? ==> script.lastFlush.Entered? && script.drained)
      && Healthy(script.health)
  {
    var result := new Result();
    if operations == 0 || operations % QD != 0 {
      return false;
    }
    var base := 0;
    ghost var n := 0;
    while base < operations
      invariant base == QD * n <= operations
      invariant Clean(result.c) <==> forall b :: 0 <= b < n ==> Delivered(profile, script.batches(b), QD * b)
      invariant Clean(result.c) ==>
        result.c == ZERO.(sqes := base, sourceCqes := base, targetCqes := base, successfulOps := base)
    {
      var ok := RunBatch(profile, script.batches(base / QD), base, result);
      if !ok {
        assert !Delivered(profile, script.batches(n), QD * n);
        return false;
      }
      base := base + QD;
      n := n + 1;
    }
    if profile.Deferred? {
      if script.lastFlush.EnterFailed? {
        return false;
      }
      if !script.drained {
        result.c := result.c.(badResults := result.c.badResults + 1);
      }
    }
    var c := result.c;
    semanticPass := c.successfulOps == operations && c.sqes == operations && c.sourceCqes == operations &&
      c.targetCqes == operations && Clean(c) && Healthy(script.health);
  }
}
