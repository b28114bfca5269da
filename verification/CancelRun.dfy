/** The rounds of io_uring_cancel_round.c from end to end: the program's requests go through the submission ring to a
    kernel that cancels by exact match, and the completions come back through the completion ring. */
module CancelRun {
  import opened Words
  import opened Completions
  import opened Counting
  import Rings
  import opened CancelTags
  import opened CancelRounds
  import opened CancelKernel

  const RING_ENTRIES: nat := 256
  const POLL_ADD: nat := 6
  const ASYNC_CANCEL: nat := 14
  const CANCEL_FD_ALL: nat := 3

  /** queue_poll, queue_cancel_key and queue_cancel_fd_all fill an entry like this. */
  function EntryOf(r: Request): Rings.Sqe {
    match r
    case AddPoll(fd, userData) => Rings.Sqe(POLL_ADD, fd, 0, 0, userData)
    case CancelKey(target, userData) => Rings.Sqe(ASYNC_CANCEL, -1, target, 0, userData)
    case CancelFd(fd, userData) => Rings.Sqe(ASYNC_CANCEL, fd, 0, CANCEL_FD_ALL, userData)
  }

  /** And the kernel reads it so. */
  function RequestOf(e: Rings.Sqe): Request {
    if e.opcode == POLL_ADD then AddPoll(e.fd, e.userData)
    else if e.cancelFlags == 0 then CancelKey(e.addr, e.userData)
    else CancelFd(e.fd, e.userData)
  }

  lemma EntryIsRead(r: Request)
    ensures RequestOf(EntryOf(r)) == r
  {
  }

  function Entries(rs: seq<Request>): (es: seq<Rings.Sqe>)
    ensures |es| == |rs| && forall i :: 0 <= i < |rs| ==> es[i] == EntryOf(rs[i])
  {
    seq(|rs|, i requires 0 <= i < |rs| => EntryOf(rs[i]))
  }

  /** In which order the kernel delivers what one submission posts, and how much of it before the call returns; the
      rest arrives while the program waits. */
  datatype Delivery = Delivery(order: (nat, seq<Cqe>) -> seq<Cqe>, early: nat -> nat)
  {
    ghost predicate Faithful() {
      forall n: nat, w: seq<Cqe> :: Rearranged(order(n, w), w)
    }
  }

  class Fixture {
    const sq: Rings.SubmissionRing
    const cq: Rings.CompletionRing
    const delivery: Delivery
    var polls: map<u64, int>
    var overflow: nat
    var calls: nat

    /** raw_ring_init, wherever the counters of the two rings start. */
    constructor (sqStart: u32, cqStart: u32, delivery: Delivery)
      ensures Idle() && polls == map[] && overflow == 0 && this.delivery == delivery
      ensures fresh(sq) && fresh(sq.slots) && fresh(sq.index) && fresh(cq) && fresh(cq.slots)
    {
      sq := new Rings.SubmissionRing(RING_ENTRIES, false, sqStart);
      cq := new Rings.CompletionRing(2 * RING_ENTRIES, cqStart);
      this.delivery := delivery;
      polls, overflow, calls := map[], 0, 0;
    }

    ghost predicate Valid()
      reads this, sq, sq.slots, sq.index, cq, cq.slots
    {
      && sq.Valid() && !sq.deferred && sq.slots.Length >= 2 * PENDING
      && cq.Valid() && cq.slots.Length >= 2 * PENDING
    }

    /** Nothing is waiting in either ring. */
    ghost predicate Idle()
      reads this, sq, sq.slots, sq.index, cq, cq.slots
    {
      Valid() && sq.State().queue == [] && cq.Pending() == []
    }

    /** ring_outstanding. */
    function Outstanding(): nat
      reads this, sq, cq
    {
      Sub32(sq.tail, sq.head) + Sub32(cq.tail, cq.head)
    }
  }

  lemma IdleHasNothing(f: Fixture)
    requires f.Idle()
    ensures f.Outstanding() == 0
  {
  }

  /** The loops that queue requests. */
  method QueueAll(sq: Rings.SubmissionRing, rs: seq<Request>) returns (ok: bool)
    requires sq.Valid() && !sq.deferred && sq.State().queue == [] && |rs| <= sq.slots.Length
    modifies sq`tail, sq`localTail, sq.slots, sq.index
    ensures ok && sq.Valid() && sq.State().queue == Entries(rs)
  {
    ok := true;
    for i := 0 to |rs|
      invariant ok && sq.Valid() && sq.State().queue == Entries(rs)[..i]
    {
      assert sq.State().prepared == [];
      ok := sq.Enqueue(EntryOf(rs[i]));
    }
  }

  /** The kernel may go through the polls on a file in any order. */
  method ListOf(s: set<u64>) returns (l: seq<u64>)
    ensures NoRepeats(l) && |l| == |s| && forall x :: x in l <==> x in s
  {
    l := [];
    var rest := s;
    while rest != {}
      invariant NoRepeats(l) && |l| + |rest| == |s| && forall x :: x in s <==> x in l || x in rest
      invariant forall x :: x in l ==> x !in rest
      decreases |rest|
    {
      var x :| x in rest;
      RepeatsGrow(l, x);
      l, rest := l + [x], rest - {x};
    }
  }

  lemma {:induction false} ListedOnce(s: set<u64>)
    ensures NoRepeats(Listed(s))
  {
    if s != {} {
      var l := Listed(s);
      ListedOnce(s - {l[0]});
      assert l == [l[0]] + Listed(s - {l[0]});
    }
  }

  lemma EndedInAnyOrder(l: seq<u64>, s: set<u64>)
    requires NoRepeats(l) && |l| == |s| && forall x :: x in l <==> x in s
    ensures Rearranged(Ended(l), Ended(Listed(s)))
  {
    ListedOnce(s);
    var v, w := Ended(l), Ended(Listed(s));
    forall i | 0 <= i < |v| ensures v[i] in w {
      assert l[i] in Listed(s);
      var j :| 0 <= j < |s| && Listed(s)[j] == l[i];
      assert w[j] == v[i];
    }
    AllOfThem(v, w);
  }

  lemma RearrangedAround(a: seq<Cqe>, b: seq<Cqe>, v: seq<Cqe>, w: seq<Cqe>, e: seq<Cqe>)
    requires Rearranged(a, b) && Rearranged(v, w)
    ensures Rearranged(a + v + e, b + w + e)
  {
  }

  /** One request, for a kernel k that has posted what the kernel m of the model has, perhaps in another order. */
  method ServeOne(k: Kernel, r: Request, ghost m: Kernel) returns (after: Kernel)
    requires k.polls == m.polls && Rearranged(k.posted, m.posted)
    ensures after.polls == Serve(m, r).polls && Rearranged(after.posted, Serve(m, r).posted)
  {
    if r.CancelFd? {
      var s := Waiting(k.polls, r.fd);
      var l := ListOf(s);
      EndedInAnyOrder(l, s);
      RearrangedAround(k.posted, m.posted, Ended(l), Ended(Listed(s)), [Cqe(r.userData, |s|, 0)]);
      after := Kernel(k.polls - s, k.posted + Ended(l) + [Cqe(r.userData, |s|, 0)]);
    } else {
      KeyedRearranged(k, m, r);
      after := ServeKeyed(k, r);
    }
  }

  lemma KeyedRearranged(k: Kernel, m: Kernel, r: Request)
    requires !r.CancelFd? && k.polls == m.polls && Rearranged(k.posted, m.posted)
    ensures ServeKeyed(k, r).polls == ServeKeyed(m, r).polls
    ensures Rearranged(ServeKeyed(k, r).posted, ServeKeyed(m, r).posted)
  {
  }

  method ServeEntries(polls: map<u64, int>, entries: seq<Rings.Sqe>, ghost rs: seq<Request>) returns (k: Kernel)
    requires entries == Entries(rs)
    ensures var m := ServeAll(Kernel(polls, []), rs, |rs|); k.polls == m.polls && Rearranged(k.posted, m.posted)
  {
    k := Kernel(polls, []);
    for i := 0 to |entries|
      invariant var m := ServeAll(Kernel(polls, []), rs, i); k.polls == m.polls && Rearranged(k.posted, m.posted)
    {
      EntryIsRead(rs[i]);
      k := ServeOne(k, RequestOf(entries[i]), ServeAll(Kernel(polls, []), rs, i));
    }
  }

  /** What is done before io_uring_enter returns. */
  function Early(d: Delivery, call: nat, w: seq<Cqe>): (n: nat)
    ensures n <= |w|
  {
    if d.early(call) <= |w| then d.early(call) else |w|
  }

  /** Queue the requests and submit them. What the kernel posts is split between the ring and what is still to come. */
  method Submit(f: Fixture, rs: seq<Request>) returns (late: seq<Cqe>)
    requires f.Idle() && f.delivery.Faithful() && |rs| <= 2 * PENDING
    requires |ServeAll(Kernel(f.polls, []), rs, |rs|).posted| <= 2 * PENDING
    modifies f, f.sq, f.sq.slots, f.sq.index, f.cq, f.cq.slots
    ensures f.Valid() && f.sq.State().queue == []
    ensures f.overflow == old(f.overflow) && f.polls == ServeAll(Kernel(old(f.polls), []), rs, |rs|).polls
    ensures Rearranged(f.cq.Pending() + late, ServeAll(Kernel(old(f.polls), []), rs, |rs|).posted)
  {
    ghost var m := ServeAll(Kernel(f.polls, []), rs, |rs|);
    var k := Enter(f, rs);
    RearrangedHas(k.posted, m.posted);
    late := Deliver(f, k.posted);
  }

  /** The program's half of a submission, and the kernel's reading of it. */
  method Enter(f: Fixture, rs: seq<Request>) returns (k: Kernel)
    requires f.Idle() && |rs| <= 2 * PENDING
    modifies f`polls, f.sq, f.sq.slots, f.sq.index
    ensures f.Idle()
    ensures var m := ServeAll(Kernel(old(f.polls), []), rs, |rs|);
      f.polls == k.polls == m.polls && Rearranged(k.posted, m.posted)
  {
    var _ := QueueAll(f.sq, rs);
    var entries := f.sq.Fetch(|rs|);
    f.sq.Take(|rs|);
    k := ServeEntries(f.polls, entries, rs);
    f.polls := k.polls;
  }

  method Deliver(f: Fixture, posted: seq<Cqe>) returns (late: seq<Cqe>)
    requires f.Idle() && f.delivery.Faithful() && |posted| <= 2 * PENDING
    modifies f`calls, f`overflow, f.cq, f.cq.slots
    ensures f.Valid() && f.sq.State().queue == [] && f.overflow == old(f.overflow)
    ensures Rearranged(f.cq.Pending() + late, posted)
  {
    var w := f.delivery.order(f.calls, posted);
    RearrangedHas(w, posted);
    var n := Early(f.delivery, f.calls, w);
    var lost := Rings.PostAll(f.cq, w[..n]);
    f.overflow := f.overflow + lost;
    f.calls := f.calls + 1;
    late := w[n..];
    assert w[..n] + w[n..] == w;
  }

  /** submit_and_copy. */
  method SubmitAndCopy(f: Fixture, rs: seq<Request>, expected: nat) returns (ok: bool, copy: seq<Cqe>)
    requires f.Idle() && f.delivery.Faithful() && |rs| <= 2 * PENDING
    requires |ServeAll(Kernel(f.polls, []), rs, |rs|).posted| == expected <= 2 * PENDING
    modifies f, f.sq, f.sq.slots, f.sq.index, f.cq, f.cq.slots
    ensures ok && f.Idle() && f.overflow == old(f.overflow)
    ensures f.polls == ServeAll(Kernel(old(f.polls), []), rs, |rs|).polls
    ensures Rearranged(copy, ServeAll(Kernel(old(f.polls), []), rs, |rs|).posted)
  {
    ghost var posted := ServeAll(Kernel(f.polls, []), rs, |rs|).posted;
    var late := Submit(f, rs);
    RearrangedHas(f.cq.Pending() + late, posted);
    var unexpected, lost;
    ok, copy, unexpected, lost := Rings.WaitAndCopy(f.cq, expected, true, late);
    f.overflow := f.overflow + lost;
  }

  /** arm_target. Polls on a file that nobody signals post nothing, and prove_pending sees that. */
  method ArmTarget(f: Fixture, p: Place, fd: int) returns (proven: bool)
    requires f.Idle() && f.delivery.Faithful() && f.polls == map[] && IsPlace(p)
    modifies f, f.sq, f.sq.slots, f.sq.index, f.cq, f.cq.slots
    ensures proven && f.Idle() && f.overflow == old(f.overflow)
    ensures f.polls == ServeAll(Kernel(map[], []), Polls(Poll, p, fd, PENDING), PENDING).polls
  {
    ArmingAdds(Kernel(map[], []), Poll, p, fd, PENDING, PENDING);
    var late := Submit(f, Polls(Poll, p, fd, PENDING));
    RearrangedHas(f.cq.Pending() + late, []);
    proven := Sub32(f.cq.tail, f.cq.head) == 0;
  }

  /** The cancellations of a batch: of its polls, or of user data that was never queued. */
  function CancelsOf(profile: Profile, p: Place): (rs: seq<Request>)
    requires IsPlace(p)
    ensures |rs| == PENDING
  {
    Cancels(if profile.Hit? then Poll else Never, Cancel, p, PENDING)
  }

  /** The outcome of a batch, request by request. */
  lemma OutcomeParts(profile: Profile, p: Place, fd: int)
    requires IsPlace(p)
    ensures var o := KeyedOutcome(map[], profile, p, fd);
      var armed := ServeAll(Kernel(map[], []), Polls(Poll, p, fd, PENDING), PENDING).polls;
      var tried := ServeAll(Kernel(armed, []), CancelsOf(profile, p), PENDING);
      && o.window == tried.posted && |o.window| == Expected(profile) && o.polls == map[]
      && if profile.Hit? then tried.polls == map[] else
           var cleaned := ServeAll(Kernel(tried.polls, []), Cancels(Poll, Cleanup, p, PENDING), PENDING);
           o.cleanup == cleaned.posted && |o.cleanup| == 2 * PENDING && cleaned.polls == map[]
  {
    if profile.Hit? {
      HitOutcome(p, fd);
    } else {
      MissOutcome(p, fd);
    }
  }

  /** The system calls of one batch. */
  method ServeOneBatch(f: Fixture, profile: Profile, p: Place, fd: int) returns (batch: Batch)
    requires f.Idle() && f.delivery.Faithful() && f.polls == map[] && IsPlace(p)
    modifies f, f.sq, f.sq.slots, f.sq.index, f.cq, f.cq.slots
    ensures f.Idle() && f.polls == map[] && f.overflow == old(f.overflow)
    ensures ServedKeyed(batch, KeyedOutcome(map[], profile, p, fd), profile)
  {
    OutcomeParts(profile, p, fd);
    var proven := ArmTarget(f, p, fd);
    var entered, window := SubmitAndCopy(f, CancelsOf(profile, p), Expected(profile));
    var cleanupEntered, cleanup := true, [];
    if profile.Miss? {
      cleanupEntered, cleanup := SubmitAndCopy(f, Cancels(Poll, Cleanup, p, PENDING), 2 * PENDING);
    }
    batch := Batch(true, proven, entered, window, true, cleanupEntered, cleanup);
  }

  /** run_keyed_round with such a kernel: for any number of batches, any order and timing of the completions and any
      position of the ring counters, the round passes, counts every cancellation, and leaves neither a poll armed nor
      an entry in a ring. */
  method RunServed(f: Fixture, profile: Profile, round: nat, batches: nat, fd: int) returns (pass: bool, c: Counts)
    requires f.Idle() && f.delivery.Faithful() && f.polls == map[] && f.overflow == 0
    modifies f, f.sq, f.sq.slots, f.sq.index, f.cq, f.cq.slots
    ensures pass && KeyedTally(c, profile, batches)
    ensures f.Idle() && f.polls == map[] && f.overflow == 0 && f.Outstanding() == 0
  {
    var result := new Result();
    var b := 0;
    pass := true;
    while pass && b < batches
      invariant pass && b <= batches && f.Idle() && f.polls == map[] && f.overflow == 0
      invariant KeyedTally(result.c, profile, b)
    {
      var p := At(profile, round, b);
      var batch := ServeOneBatch(f, profile, p, fd);
      KeyedBatchIsGood(batch, profile, p, fd);
      pass := KeyedBatch(batch, profile, p, result, b);
      b := b + 1;
    }
    IdleHasNothing(f);
    c := result.c;
    pass := pass && KeyedVerdict(c, profile, batches, 0, f.overflow, f.Outstanding());
  }

  /** The requests of arm_f0. */
  function F0Polls(p: Place, target: int, decoy: int): (rs: seq<Request>)
    requires IsPlace(p)
    ensures |rs| == PENDING + DECOYS
  {
    Polls(Poll, p, target, PENDING) + Polls(Decoy, p, decoy, DECOYS)
  }

  lemma PollsPostNothing(p: Place, target: int, decoy: int)
    requires IsPlace(p)
    ensures ServeAll(Kernel(map[], []), F0Polls(p, target, decoy), PENDING + DECOYS).posted == []
  {
    var rs, qs := Polls(Poll, p, target, PENDING), Polls(Decoy, p, decoy, DECOYS);
    ServeBoth(Kernel(map[], []), rs, qs, DECOYS);
    ArmingAdds(Kernel(map[], []), Poll, p, target, PENDING, PENDING);
    ArmingAdds(ServeAll(Kernel(map[], []), rs, PENDING), Decoy, p, decoy, DECOYS, DECOYS);
  }

  method ArmBoth(f: Fixture, p: Place, target: int, decoy: int) returns (proven: bool)
    requires f.Idle() && f.delivery.Faithful() && f.polls == map[] && IsPlace(p)
    modifies f, f.sq, f.sq.slots, f.sq.index, f.cq, f.cq.slots
    ensures proven && f.Idle() && f.overflow == old(f.overflow)
    ensures f.polls == ServeAll(Kernel(map[], []), F0Polls(p, target, decoy), PENDING + DECOYS).polls
  {
    PollsPostNothing(p, target, decoy);
    var late := Submit(f, F0Polls(p, target, decoy));
    RearrangedHas(f.cq.Pending() + late, []);
    proven := Sub32(f.cq.tail, f.cq.head) == 0;
  }

  lemma F0Parts(p: Place, target: int, decoy: int)
    requires IsPlace(p) && target != decoy
    ensures var o := F0Outcome(map[], p, target, decoy);
      var armed := ServeAll(Kernel(map[], []), F0Polls(p, target, decoy), PENDING + DECOYS).polls;
      var tried := ServeAll(Kernel(armed, []), [CancelFd(target, Tag(Bulk, p, 0))], 1);
      var cleaned := ServeAll(Kernel(tried.polls, []), Cancels(Decoy, Cleanup, p, DECOYS), DECOYS);
      && o.window == tried.posted && Answers(tried.posted, FD_ALL, p)
      && o.cleanup == cleaned.posted && Answers(cleaned.posted, DECOY_CLEANUP, p) && cleaned.polls == map[]
  {
    F0IsGood(p, target, decoy);
  }

  method ServeF0Batch(f: Fixture, p: Place, target: int, decoy: int) returns (batch: Batch)
    requires f.Idle() && f.delivery.Faithful() && f.polls == map[] && IsPlace(p) && target != decoy
    modifies f, f.sq, f.sq.slots, f.sq.index, f.cq, f.cq.slots
    ensures f.Idle() && f.polls == map[] && f.overflow == old(f.overflow)
    ensures GoodF0(batch, p)
  {
    F0Parts(p, target, decoy);
    var proven := ArmBoth(f, p, target, decoy);
    ghost var tried := ServeAll(Kernel(f.polls, []), [CancelFd(target, Tag(Bulk, p, 0))], 1);
    var entered, window := SubmitAndCopy(f, [CancelFd(target, Tag(Bulk, p, 0))], PENDING + 1);
    AnswersRearranged(window, tried.posted, FD_ALL, p);
    ghost var cleaned := ServeAll(Kernel(f.polls, []), Cancels(Decoy, Cleanup, p, DECOYS), DECOYS);
    var quiet := Sub32(f.cq.tail, f.cq.head) == 0;
    var cleanupEntered, cleanup := SubmitAndCopy(f, Cancels(Decoy, Cleanup, p, DECOYS), 2 * DECOYS);
    AnswersRearranged(cleanup, cleaned.posted, DECOY_CLEANUP, p);
    batch := Batch(true, proven, entered, window, quiet, cleanupEntered, cleanup);
  }

  /** run_f0_round with such a kernel, which may end the polls on a file in any order. */
  method RunServedF0(f: Fixture, round: nat, batches: nat, target: int, decoy: int) returns (pass: bool, c: Counts)
    requires f.Idle() && f.delivery.Faithful() && f.polls == map[] && f.overflow == 0 && target != decoy
    modifies f, f.sq, f.sq.slots, f.sq.index, f.cq, f.cq.slots
    ensures pass && F0Tally(c, batches)
    ensures f.Idle() && f.polls == map[] && f.overflow == 0 && f.Outstanding() == 0
  {
    var result := new Result();
    var b := 0;
    pass := true;
    while pass && b < batches
      invariant pass && b <= batches && f.Idle() && f.polls == map[] && f.overflow == 0
      invariant F0Tally(result.c, b)
    {
      var p := Place(F0_PROFILE, round, b);
      var batch := ServeF0Batch(f, p, target, decoy);
      pass := F0Batch(batch, p, result, b);
      b := b + 1;
    }
    IdleHasNothing(f);
    c := result.c;
    pass := pass && F0Verdict(c, batches, 0, f.overflow, f.Outstanding());
  }
}
