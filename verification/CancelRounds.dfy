/** The keyed and whole-file cancellation rounds of io_uring_cancel_round.c, judged for arbitrary completions. */
module CancelRounds {
  import opened Words
  import opened Counting
  import opened Completions
  import opened Bitmaps
  import opened Checklist
  import opened CancelTags

  datatype Profile = Hit | Miss

  /** What one batch is answered with. armed, proven and queued tell whether the polls were submitted, whether they
      were seen pending, and whether the cancellations were submitted and answered by as many completions as
      expected; the cleanup has its own answers. */
  datatype Batch = Batch(armed: bool, proven: bool, entered: bool, window: seq<Cqe>,
                         quiet: bool, cleanupEntered: bool, cleanup: seq<Cqe>)

  datatype Script = Script(batches: nat -> Batch, dropped: nat, overflow: nat, outstanding: nat)

  datatype Counts = Counts(errors: Errors, stateFailures: nat, proofs: nat, originals: nat,
                           cancelOk: nat, cancelEnoent: nat, decoys: nat)

  const ZERO: Counts := Counts(NONE, 0, 0, 0, 0, 0, 0)

  class Result {
    var c: Counts

    constructor ()
      ensures c == ZERO
    {
      c := ZERO;
    }
  }

  /** The loop of a check and its test of the masks; the result says how many of each kind came with the wanted
      result. */
  method Judge(w: seq<Cqe>, t: Pattern, p: Place, result: Result) returns (ok: bool, firsts: nat, seconds: nat)
    requires IsPattern(t) && IsPlace(p)
    modifies result
    ensures ok <==> old(result.c.errors) == NONE && Answers(w, t, p)
    ensures ok ==> firsts == t.list.firsts && seconds == t.list.seconds && result.c == old(result.c)
  {
    ghost var before := result.c;
    var keyOf := (userData: u64) => Search(userData, t, p, 0);
    var m := Tick(w, keyOf, t.list, result.c.errors);
    assert KeysOf(w, keyOf) == KeysAt(w, t, p);
    CheckMeans(before.errors, w, KeysAt(w, t, p), t.list);
    ExactAnswers(w, t, p);
    var x := m.errors;
    if m.second != Ones(t.list.seconds) {
      x := x.(unexpected := x.unexpected + 1);
    }
    if m.first != Ones(t.list.firsts) {
      x := x.(unexpected := x.unexpected + 1);
    }
    result.c := result.c.(errors := x);
    ok, firsts, seconds := x == NONE, m.firstGood, m.secondGood;
  }

  function KeyedPattern(profile: Profile): (t: Pattern)
    ensures IsPattern(t)
  {
    if profile.Hit? then HIT else MISS
  }

  /** validate_keyed. */
  method ValidateKeyed(w: seq<Cqe>, profile: Profile, p: Place, result: Result) returns (ok: bool)
    requires IsPlace(p)
    modifies result
    ensures ok <==> old(result.c.errors) == NONE && Answers(w, KeyedPattern(profile), p)
    ensures ok ==> result.c == AfterKeyed(old(result.c), profile)
  {
    var originals, cancels;
    ok, originals, cancels := Judge(w, KeyedPattern(profile), p, result);
    result.c := result.c.(originals := result.c.originals + originals);
    if profile.Hit? {
      result.c := result.c.(cancelOk := result.c.cancelOk + cancels);
    } else {
      result.c := result.c.(cancelEnoent := result.c.cancelEnoent + cancels);
    }
  }

  function AfterKeyed(c: Counts, profile: Profile): Counts {
    if profile.Hit? then c.(originals := c.originals + PENDING, cancelOk := c.cancelOk + PENDING)
    else c.(cancelEnoent := c.cancelEnoent + PENDING)
  }

  /** What cleanup_target accepts: every completion is one of the expected ones. It keeps no masks. */
  ghost predicate AllExpected(w: seq<Cqe>, t: Pattern, p: Place)
    requires IsPattern(t) && IsPlace(p)
  {
    var ks := KeysAt(w, t, p);
    forall j :: 0 <= j < |w| ==> Right(w[j], ks[j], t.list)
  }

  /** cleanup_target after its completions were copied. */
  method CheckCleanup(w: seq<Cqe>, p: Place, result: Result) returns (ok: bool)
    requires IsPlace(p)
    modifies result
    ensures result.c.(errors := old(result.c.errors), originals := old(result.c.originals)) == old(result.c)
    ensures ok && old(result.c.errors) == NONE ==> result.c.errors == NONE
    ensures old(result.c.errors) == NONE ==> (ok <==> AllExpected(w, CLEANUP, p))
  {
    for j := 0 to |w|
      invariant result.c.(errors := old(result.c.errors), originals := old(result.c.originals)) == old(result.c)
      invariant old(result.c.errors) == NONE ==>
        (result.c.errors == NONE <==> AllExpected(w[..j], CLEANUP, p)) && result.c.errors.duplicates == 0
    {
      assert w[..j + 1] == w[..j] + [w[j]];
      AllExpectedGrows(w[..j], w[j], p);
      CleanOne(w[j], Search(w[j].userData, CLEANUP, p, 0), result);
    }
    assert w[..|w|] == w;
    var x := result.c.errors;
    ok := x.unexpected == 0 && x.badResults == 0 && x.badFlags == 0;
  }

  lemma AllExpectedGrows(w: seq<Cqe>, e: Cqe, p: Place)
    requires IsPlace(p)
    ensures AllExpected(w + [e], CLEANUP, p) <==>
      AllExpected(w, CLEANUP, p) && Right(e, Search(e.userData, CLEANUP, p, 0), CLEANUP.list)
  {
    var more, ks := w + [e], KeysAt(w + [e], CLEANUP, p);
    assert forall j :: 0 <= j < |w| ==> more[j] == w[j] && ks[j] == KeysAt(w, CLEANUP, p)[j];
    assert more[|w|] == e;
  }

  method CleanOne(e: Cqe, k: Key, result: Result)
    modifies result
    ensures result.c.(errors := old(result.c.errors), originals := old(result.c.originals)) == old(result.c)
    ensures result.c.errors.duplicates == old(result.c.errors.duplicates)
    ensures result.c.errors == NONE <==> old(result.c.errors) == NONE && Right(e, k, CLEANUP.list)
  {
    var x := result.c.errors;
    if e.flags != 0 {
      x := x.(badFlags := x.badFlags + 1);
    }
    if k.Stray? {
      x := x.(unexpected := x.unexpected + 1);
    } else if e.res != Wanted(k, CLEANUP.list) {
      x := x.(badResults := x.badResults + 1);
    }
    result.c := result.c.(errors := x, originals := result.c.originals + if k.First? then 1 else 0);
  }

  /** The place of a batch; the numbers are those of enum profile_id. */
  function At(profile: Profile, round: nat, batch: nat): (p: Place)
    ensures IsPlace(p)
  {
    Place(if profile.Hit? then 1 else 2, round, batch)
  }

  function Expected(profile: Profile): nat {
    KeyedPattern(profile).list.firsts + KeyedPattern(profile).list.seconds
  }

  /** Everything the program asks of one keyed batch. */
  ghost predicate GoodKeyed(batch: Batch, profile: Profile, p: Place)
    requires IsPlace(p)
  {
    && batch.armed && batch.proven && batch.entered && Answers(batch.window, KeyedPattern(profile), p)
    && (profile.Miss? ==>
          batch.cleanupEntered && |batch.cleanup| == 2 * PENDING && AllExpected(batch.cleanup, CLEANUP, p))
  }

  /** The counters after n good batches. */
  predicate KeyedTally(c: Counts, profile: Profile, n: nat) {
    && c.errors == NONE && c.stateFailures == 0 && c.proofs == n
    && (profile.Hit? ==> c.originals == PENDING * n && c.cancelOk == PENDING * n)
    && (profile.Miss? ==> c.cancelEnoent == PENDING * n)
  }

  method KeyedBatch(batch: Batch, profile: Profile, p: Place, result: Result, ghost n: nat) returns (ok: bool)
    requires IsPlace(p) && KeyedTally(result.c, profile, n)
    modifies result
    ensures ok <==> GoodKeyed(batch, profile, p)
    ensures ok ==> KeyedTally(result.c, profile, n + 1)
  {
    if !batch.armed {
      return false;
    }
    if !batch.proven {
      result.c := result.c.(stateFailures := result.c.stateFailures + 1);
      return false;
    }
    result.c := result.c.(proofs := result.c.proofs + 1);
    if !batch.entered || |batch.window| != Expected(profile) {
      return false;
    }
    ok := ValidateKeyed(batch.window, profile, p, result);
    if ok && profile.Miss? {
      if !batch.cleanupEntered || |batch.cleanup| != 2 * PENDING {
        return false;
      }
      ok := CheckCleanup(batch.cleanup, p, result);
    }
  }

  /** The verdict of run_keyed_round on its counters and on what the rings report. */
  predicate KeyedVerdict(c: Counts, profile: Profile, batches: nat, dropped: nat, overflow: nat, outstanding: nat) {
    && c.errors == NONE && c.stateFailures == 0 && dropped == 0 && overflow == 0 && outstanding == 0
    && c.proofs == batches
    && var attempts := batches * PENDING;
    if profile.Hit? then c.cancelOk == attempts && c.originals == attempts else c.cancelEnoent == attempts
  }

  /** run_keyed_round: it passes exactly when every batch is good and the rings report nothing lost; its counters then
      say 32 cancellations a batch. */
  method RunKeyed(profile: Profile, round: nat, batches: nat, script: Script) returns (pass: bool, c: Counts)
    ensures pass ==> KeyedTally(c, profile, batches)
    ensures pass <==>
      && (forall b :: 0 <= b < batches ==> GoodKeyed(script.batches(b), profile, At(profile, round, b)))
      && script.dropped == 0 && script.overflow == 0 && script.outstanding == 0
  {
    var result := new Result();
    for b := 0 to batches
      invariant KeyedTally(result.c, profile, b)
      invariant forall k :: 0 <= k < b ==> GoodKeyed(script.batches(k), profile, At(profile, round, k))
    {
      var ok := KeyedBatch(script.batches(b), profile, At(profile, round, b), result, b);
      if !ok {
        return false, result.c;
      }
    }
    c := result.c;
    pass := KeyedVerdict(c, profile, batches, script.dropped, script.overflow, script.outstanding);
  }

  /** cleanup_target is weaker than the other checks: a window that answers one cleanup 64 times passes, though no
      poll was reported cancelled. */
  lemma CleanupAcceptsRepeats(p: Place) returns (w: seq<Cqe>)
    requires IsPlace(p)
    ensures |w| == 2 * PENDING && AllExpected(w, CLEANUP, p) && !Answers(w, CLEANUP, p)
  {
    var e := Cqe(Tag(Cleanup, p, 0), 0, 0);
    w := seq(2 * PENDING, _ => e);
    SearchFinds(e.userData, CLEANUP, p, 0, 0);
    forall j | 0 <= j < |w| ensures Right(w[j], KeysAt(w, CLEANUP, p)[j], CLEANUP.list) {
      assert w[j] == e;
    }
    TagsAgree(Poll, p, 0, Cleanup, p, 0);
    assert Cqe(Tag(Poll, p, 0), -ECANCELED, 0) !in w;
  }

  /** It means what the others mean exactly when no two of the completions name the same request. */
  lemma CleanupWithoutRepeats(w: seq<Cqe>, p: Place)
    requires IsPlace(p) && |w| == 2 * PENDING && AllExpected(w, CLEANUP, p)
    ensures Answers(w, CLEANUP, p) <==> forall i, j :: 0 <= i < j < |w| ==> w[i].userData != w[j].userData
  {
    var ks, list := KeysAt(w, CLEANUP, p), CLEANUP.list;
    ExactAnswers(w, CLEANUP, p);
    CheckMeans(NONE, w, ks, list);
    assert ks[..|w|] == ks;
    DistinctKeys(w, p);
    if NoRepeats(ks) {
      CompleteByCount(w, ks, list);
    }
    if Answers(w, CLEANUP, p) {
      ExactIsComplete(w, ks, list);
    }
  }

  /** Expected completions with different user data have different keys, and the other way round. */
  lemma DistinctKeys(w: seq<Cqe>, p: Place)
    requires IsPlace(p) && AllExpected(w, CLEANUP, p)
    ensures NoRepeats(KeysAt(w, CLEANUP, p)) <==> forall i, j :: 0 <= i < j < |w| ==> w[i].userData != w[j].userData
  {
    var ks := KeysAt(w, CLEANUP, p);
    forall i | 0 <= i < |w| ensures ks[i].First? ==> w[i].userData == Tag(Poll, p, ks[i].i)
                            ensures ks[i].Second? ==> w[i].userData == Tag(Cleanup, p, ks[i].i)
    {
      SearchFinds(w[i].userData, CLEANUP, p, 0, ks[i].i);
    }
  }

  const F0_PROFILE: nat := 3

  ghost predicate GoodF0(batch: Batch, p: Place)
    requires IsPlace(p)
  {
    && batch.armed && batch.proven && batch.entered && Answers(batch.window, FD_ALL, p)
    && batch.quiet && batch.cleanupEntered && Answers(batch.cleanup, DECOY_CLEANUP, p)
  }

  predicate F0Tally(c: Counts, n: nat) {
    c == ZERO.(proofs := n, originals := PENDING * n, cancelOk := n, decoys := DECOYS * n)
  }

  method F0Batch(batch: Batch, p: Place, result: Result, ghost n: nat) returns (ok: bool)
    requires IsPlace(p) && F0Tally(result.c, n)
    modifies result
    ensures ok <==> GoodF0(batch, p)
    ensures ok ==> F0Tally(result.c, n + 1)
  {
    if !batch.armed {
      return false;
    }
    if !batch.proven {
      result.c := result.c.(stateFailures := result.c.stateFailures + 1);
      return false;
    }
    result.c := result.c.(proofs := result.c.proofs + 1);
    if !batch.entered || |batch.window| != PENDING + 1 {
      return false;
    }
    var originals, cancels, decoys, cleanups;
    ok, originals, cancels := Judge(batch.window, FD_ALL, p, result);
    result.c := result.c.(originals := result.c.originals + originals, cancelOk := result.c.cancelOk + cancels);
    if !ok {
      return;
    }
    if !batch.quiet {
      result.c := result.c.(stateFailures := result.c.stateFailures + 1);
      return false;
    }
    if !batch.cleanupEntered || |batch.cleanup| != 2 * DECOYS {
      return false;
    }
    ok, decoys, cleanups := Judge(batch.cleanup, DECOY_CLEANUP, p, result);
    result.c := result.c.(decoys := result.c.decoys + decoys);
  }

  /** The verdict of run_f0_round. */
  predicate F0Verdict(c: Counts, batches: nat, dropped: nat, overflow: nat, outstanding: nat) {
    && c.errors == NONE && c.stateFailures == 0 && dropped == 0 && overflow == 0 && outstanding == 0
    && c.proofs == batches && c.cancelOk == batches && c.originals == batches * PENDING && c.decoys == batches * DECOYS
  }

  /** run_f0_round. */
  method RunF0(round: nat, batches: nat, script: Script) returns (pass: bool, c: Counts)
    ensures pass ==> F0Tally(c, batches)
    ensures pass <==>
      && (forall b :: 0 <= b < batches ==> GoodF0(script.batches(b), Place(F0_PROFILE, round, b)))
      && script.dropped == 0 && script.overflow == 0 && script.outstanding == 0
  {
    var result := new Result();
    for b := 0 to batches
      invariant F0Tally(result.c, b)
      invariant forall k :: 0 <= k < b ==> GoodF0(script.batches(k), Place(F0_PROFILE, round, k))
    {
      var ok := F0Batch(script.batches(b), Place(F0_PROFILE, round, b), result, b);
      if !ok {
        return false, result.c;
      }
    }
    c := result.c;
    pass := F0Verdict(c, batches, script.dropped, script.overflow, script.outstanding);
  }
}
