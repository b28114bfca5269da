/** A kernel that cancels by exact match, and what the rounds of io_uring_cancel_round.c do under it. */
module CancelKernel {
  import opened Words
  import opened Completions
  import Checklist
  import opened CancelTags
  import opened CancelRounds

  datatype Request =
    | AddPoll(fd: int, userData: u64)
    | CancelKey(target: u64, userData: u64)
    | CancelFd(fd: int, userData: u64)

  /** The armed polls, by user data, with the file each waits on; and the completions posted so far. */
  datatype Kernel = Kernel(polls: map<u64, int>, posted: seq<Cqe>)

  ghost function Listed(s: set<u64>): (r: seq<u64>)
    ensures |r| == |s| && forall x :: x in r <==> x in s
  {
    if s == {} then [] else
      var x :| x in s;
      [x] + Listed(s - {x})
  }

  function Ended(userData: seq<u64>): (w: seq<Cqe>)
    ensures |w| == |userData| && forall i :: 0 <= i < |w| ==> w[i] == Cqe(userData[i], -ECANCELED, 0)
  {
    seq(|userData|, i requires 0 <= i < |userData| => Cqe(userData[i], -ECANCELED, 0))
  }

  function Waiting(polls: map<u64, int>, fd: int): set<u64> {
    set x | x in polls && polls[x] == fd
  }

  /** A request that names one poll. */
  function ServeKeyed(k: Kernel, r: Request): Kernel
    requires !r.CancelFd?
  {
    match r
    case AddPoll(fd, ud) => k.(polls := k.polls[ud := fd])
    case CancelKey(target, ud) =>
      if target in k.polls then Kernel(k.polls - {target}, k.posted + [Cqe(target, -ECANCELED, 0), Cqe(ud, 0, 0)])
      else k.(posted := k.posted + [Cqe(ud, -ENOENT, 0)])
  }

  /** One request. */
  ghost function Serve(k: Kernel, r: Request): Kernel {
    match r
    case CancelFd(fd, ud) =>
      var s := Waiting(k.polls, fd);
      Kernel(k.polls - s, k.posted + Ended(Listed(s)) + [Cqe(ud, |s|, 0)])
    case _ => ServeKeyed(k, r)
  }

  ghost function ServeAll(k: Kernel, rs: seq<Request>, n: nat): Kernel
    requires n <= |rs|
  {
    if n == 0 then k else Serve(ServeAll(k, rs, n - 1), rs[n - 1])
  }

  /** The polls of kind on fd, and the cancellations of one kind against the requests of another. */
  function Polls(kind: Kind, p: Place, fd: int, n: nat): (rs: seq<Request>)
    requires IsPlace(p) && n <= PENDING
    ensures |rs| == n
  {
    seq(n, i requires 0 <= i < n => AddPoll(fd, Tag(kind, p, i)))
  }

  function Cancels(target: Kind, kind: Kind, p: Place, n: nat): (rs: seq<Request>)
    requires IsPlace(p) && n <= PENDING
    ensures |rs| == n
  {
    seq(n, i requires 0 <= i < n => CancelKey(Tag(target, p, i), Tag(kind, p, i)))
  }

  /** The user data of the first n requests of a kind. */
  function Tags(kind: Kind, p: Place, n: nat): set<u64>
    requires IsPlace(p) && n <= PENDING
  {
    if n == 0 then {} else Tags(kind, p, n - 1) + {Tag(kind, p, n - 1)}
  }

  lemma {:induction false} TagsHold(kind: Kind, p: Place, n: nat, l: Kind, q: Place, i: nat)
    requires IsPlace(p) && IsPlace(q) && n <= PENDING && i < PENDING
    ensures |Tags(kind, p, n)| == n
    ensures Tag(l, q, i) in Tags(kind, p, n) <==> i < n && Tag(l, q, i) == Tag(kind, p, i)
  {
    if n != 0 {
      var m := n - 1;
      TagsHold(kind, p, m, l, q, i);
      TagsHold(kind, p, m, kind, p, m);
      TagsAgree(l, q, i, kind, p, m);
      TagsAgree(l, q, i, kind, p, i);
    }
  }

  function Armed(kind: Kind, p: Place, n: nat, fd: int): map<u64, int>
    requires IsPlace(p) && n <= PENDING
  {
    map x | x in Tags(kind, p, n) :: fd
  }

  lemma {:induction false} ArmingAdds(k: Kernel, kind: Kind, p: Place, fd: int, n: nat, total: nat)
    requires IsPlace(p) && n <= total <= PENDING
    ensures ServeAll(k, Polls(kind, p, fd, total), n) == k.(polls := k.polls + Armed(kind, p, n, fd))
  {
    if n == 0 {
      assert k.polls + Armed(kind, p, n, fd) == k.polls;
    } else {
      ArmingAdds(k, kind, p, fd, n - 1, total);
      ArmOne(k.polls, Armed(kind, p, n - 1, fd), Tag(kind, p, n - 1), fd);
      assert Armed(kind, p, n, fd) == Armed(kind, p, n - 1, fd)[Tag(kind, p, n - 1) := fd];
    }
  }

  lemma ArmOne(polls: map<u64, int>, more: map<u64, int>, x: u64, fd: int)
    ensures polls + more[x := fd] == (polls + more)[x := fd]
  {
  }

  /** What cancelling armed requests posts. */
  function HitPosts(target: Kind, kind: Kind, p: Place, n: nat): (w: seq<Cqe>)
    requires IsPlace(p) && n <= PENDING
    ensures |w| == 2 * n
  {
    if n == 0 then [] else
      HitPosts(target, kind, p, n - 1) + [Cqe(Tag(target, p, n - 1), -ECANCELED, 0), Cqe(Tag(kind, p, n - 1), 0, 0)]
  }

  lemma {:induction false} HitPostsHold(target: Kind, kind: Kind, p: Place, n: nat, i: nat)
    requires IsPlace(p) && n <= PENDING && i < n
    ensures Cqe(Tag(target, p, i), -ECANCELED, 0) in HitPosts(target, kind, p, n)
    ensures Cqe(Tag(kind, p, i), 0, 0) in HitPosts(target, kind, p, n)
  {
    var more := HitPosts(target, kind, p, n);
    if i == n - 1 {
      assert more[2 * i] == Cqe(Tag(target, p, i), -ECANCELED, 0) && more[2 * i + 1] == Cqe(Tag(kind, p, i), 0, 0);
    } else {
      HitPostsHold(target, kind, p, n - 1, i);
      assert more[..2 * (n - 1)] == HitPosts(target, kind, p, n - 1);
    }
  }

  lemma {:induction false} HitsCancel(k: Kernel, target: Kind, kind: Kind, p: Place, n: nat, total: nat)
    requires IsPlace(p) && n <= total <= PENDING && Tags(target, p, total) <= k.polls.Keys
    ensures ServeAll(k, Cancels(target, kind, p, total), n) ==
      Kernel(k.polls - Tags(target, p, n), k.posted + HitPosts(target, kind, p, n))
  {
    if n == 0 {
      assert k.polls - Tags(target, p, n) == k.polls && k.posted + HitPosts(target, kind, p, n) == k.posted;
    } else {
      var m := n - 1;
      HitsCancel(k, target, kind, p, m, total);
      HitNext(k, target, kind, p, m, n, total);
    }
  }

  lemma HitNext(k: Kernel, target: Kind, kind: Kind, p: Place, m: nat, n: nat, total: nat)
    requires IsPlace(p) && n == m + 1 <= total <= PENDING && Tags(target, p, total) <= k.polls.Keys
    ensures Serve(Kernel(k.polls - Tags(target, p, m), k.posted + HitPosts(target, kind, p, m)),
                  Cancels(target, kind, p, total)[m]) ==
      Kernel(k.polls - Tags(target, p, n), k.posted + HitPosts(target, kind, p, n))
  {
    TagsHold(target, p, m, target, p, m);
    TagsHold(target, p, total, target, p, m);
    HitOne(k, Tags(target, p, m), HitPosts(target, kind, p, m), Tag(target, p, m), Tag(kind, p, m));
  }

  lemma HitOne(k: Kernel, gone: set<u64>, posts: seq<Cqe>, x: u64, y: u64)
    requires x in k.polls && x !in gone
    ensures Serve(Kernel(k.polls - gone, k.posted + posts), CancelKey(x, y)) ==
      Kernel(k.polls - (gone + {x}), k.posted + (posts + [Cqe(x, -ECANCELED, 0), Cqe(y, 0, 0)]))
  {
    assert k.polls - gone - {x} == k.polls - (gone + {x});
    assert k.posted + posts + [Cqe(x, -ECANCELED, 0), Cqe(y, 0, 0)] ==
      k.posted + (posts + [Cqe(x, -ECANCELED, 0), Cqe(y, 0, 0)]);
  }

  /** Cancelling what was never queued finds nothing, however many polls are armed. */
  lemma {:induction false} MissesFindNothing(k: Kernel, p: Place, fd: int, n: nat)
    requires IsPlace(p) && n <= PENDING && k.polls == Armed(Poll, p, PENDING, fd)
    ensures var a := ServeAll(k, Cancels(Never, Cancel, p, PENDING), n);
      && a.polls == k.polls && |a.posted| == |k.posted| + n
      && forall i: nat :: i < n ==> Cqe(Tag(Cancel, p, i), -ENOENT, 0) in a.posted[|k.posted|..]
  {
    if n != 0 {
      var m := n - 1;
      MissesFindNothing(k, p, fd, m);
      TagsHold(Poll, p, PENDING, Never, p, m);
      TagsAgree(Never, p, m, Poll, p, m);
      var rs := Cancels(Never, Cancel, p, PENDING);
      var a, b := ServeAll(k, rs, m), ServeAll(k, rs, n);
      assert b.posted[|k.posted|..] == a.posted[|k.posted|..] + [Cqe(Tag(Cancel, p, m), -ENOENT, 0)];
    }
  }

  /** The kernel may deliver completions in any order. */
  ghost predicate Rearranged(w: seq<Cqe>, posted: seq<Cqe>) {
    multiset(w) == multiset(posted)
  }

  lemma RearrangedHas(w: seq<Cqe>, posted: seq<Cqe>)
    requires Rearranged(w, posted)
    ensures |w| == |posted| && forall e :: e in w <==> e in posted
  {
    assert |multiset(w)| == |multiset(posted)|;
    assert forall e :: e in w <==> e in multiset(w);
    assert forall e :: e in posted <==> e in multiset(posted);
  }

  lemma AnswersRearranged(w: seq<Cqe>, posted: seq<Cqe>, t: Pattern, p: Place)
    requires IsPattern(t) && IsPlace(p) && Rearranged(w, posted)
    ensures Answers(w, t, p) <==> Answers(posted, t, p)
  {
    RearrangedHas(w, posted);
  }

  lemma HitsAnswer(target: Kind, kind: Kind, p: Place, t: Pattern)
    requires IsPlace(p) && IsPattern(t) && t.first == target && t.second == kind
    requires t.list.firsts == t.list.seconds && t.list.firstRes == -ECANCELED && t.list.secondRes == 0
    ensures Answers(HitPosts(target, kind, p, t.list.firsts), t, p)
  {
    forall i: nat | i < t.list.firsts
      ensures Cqe(Tag(target, p, i), -ECANCELED, 0) in HitPosts(target, kind, p, t.list.firsts)
      ensures Cqe(Tag(kind, p, i), 0, 0) in HitPosts(target, kind, p, t.list.firsts)
    {
      HitPostsHold(target, kind, p, t.list.firsts, i);
    }
  }

  /** What the kernel does with one keyed batch: what the cancellations post, what the cleanup posts, and the polls
      left armed afterwards. */
  datatype Outcome = Outcome(window: seq<Cqe>, cleanup: seq<Cqe>, polls: map<u64, int>)

  ghost function ServeBatch(polls: map<u64, int>, adds: seq<Request>, cancels: seq<Request>, cleanups: seq<Request>)
    : Outcome
  {
    var armed := ServeAll(Kernel(polls, []), adds, |adds|);
    var tried := ServeAll(Kernel(armed.polls, []), cancels, |cancels|);
    var cleaned := ServeAll(Kernel(tried.polls, []), cleanups, |cleanups|);
    Outcome(tried.posted, cleaned.posted, cleaned.polls)
  }

  ghost function KeyedOutcome(polls: map<u64, int>, profile: Profile, p: Place, fd: int): Outcome
    requires IsPlace(p)
  {
    if profile.Hit? then ServeBatch(polls, Polls(Poll, p, fd, PENDING), Cancels(Poll, Cancel, p, PENDING), [])
    else ServeBatch(polls, Polls(Poll, p, fd, PENDING), Cancels(Never, Cancel, p, PENDING),
                    Cancels(Poll, Cleanup, p, PENDING))
  }

  /** Arming, then cancelling every poll, leaves none armed. */
  lemma ArmAndCancel(target: Kind, kind: Kind, p: Place, fd: int, n: nat)
    requires IsPlace(p) && n <= PENDING
    ensures ServeAll(Kernel(map[], []), Polls(target, p, fd, n), n).polls == Armed(target, p, n, fd)
    ensures ServeAll(Kernel(Armed(target, p, n, fd), []), Cancels(target, kind, p, n), n) ==
      Kernel(map[], HitPosts(target, kind, p, n))
  {
    ArmingAdds(Kernel(map[], []), target, p, fd, n, n);
    assert map[] + Armed(target, p, n, fd) == Armed(target, p, n, fd);
    var k := Kernel(Armed(target, p, n, fd), []);
    assert k.polls.Keys == Tags(target, p, n);
    HitsCancel(k, target, kind, p, n, n);
    assert k.polls - Tags(target, p, n) == map[];
    assert [] + HitPosts(target, kind, p, n) == HitPosts(target, kind, p, n);
  }

  lemma HitOutcome(p: Place, fd: int)
    requires IsPlace(p)
    ensures var o := KeyedOutcome(map[], Hit, p, fd); o.polls == map[] && Answers(o.window, HIT, p)
  {
    ArmAndCancel(Poll, Cancel, p, fd, PENDING);
    HitsAnswer(Poll, Cancel, p, HIT);
  }

  lemma MissOutcome(p: Place, fd: int)
    requires IsPlace(p)
    ensures var o := KeyedOutcome(map[], Miss, p, fd);
      o.polls == map[] && Answers(o.window, MISS, p) && Answers(o.cleanup, CLEANUP, p)
  {
    ArmAndCancel(Poll, Cleanup, p, fd, PENDING);
    var k := Kernel(Armed(Poll, p, PENDING, fd), []);
    MissesFindNothing(k, p, fd, PENDING);
    var a := ServeAll(k, Cancels(Never, Cancel, p, PENDING), PENDING);
    assert a.posted[|k.posted|..] == a.posted;
    HitsAnswer(Poll, Cleanup, p, CLEANUP);
  }

  lemma AnswersExpected(w: seq<Cqe>, p: Place)
    requires IsPlace(p) && Answers(w, CLEANUP, p)
    ensures AllExpected(w, CLEANUP, p)
  {
    ExactAnswers(w, CLEANUP, p);
    Checklist.ExactIsComplete(w, KeysAt(w, CLEANUP, p), CLEANUP.list);
  }

  /** The armed polls at the start of batch b of a round that began with none. */
  ghost function PollsAt(profile: Profile, round: nat, fd: int, b: nat): map<u64, int> {
    if b == 0 then map[] else
      KeyedOutcome(PollsAt(profile, round, fd, b - 1), profile, At(profile, round, b - 1), fd).polls
  }

  /** The script of a batch when the kernel serves it, in whatever order completions are delivered. */
  ghost predicate ServedKeyed(batch: Batch, o: Outcome, profile: Profile) {
    && batch.armed && batch.proven && batch.entered && Rearranged(batch.window, o.window)
    && (profile.Miss? ==> batch.cleanupEntered && Rearranged(batch.cleanup, o.cleanup))
  }

  ghost predicate AllServed(batches: nat -> Batch, profile: Profile, round: nat, fd: int, n: nat) {
    forall b :: 0 <= b < n ==>
      ServedKeyed(batches(b), KeyedOutcome(PollsAt(profile, round, fd, b), profile, At(profile, round, b), fd), profile)
  }

  /** With a kernel that cancels by exact match, every batch of a hit or a miss round starts and ends with no poll
      armed. */
  lemma {:induction false} NoPollSurvives(profile: Profile, round: nat, fd: int, n: nat)
    ensures PollsAt(profile, round, fd, n) == map[]
  {
    if n != 0 {
      NoPollSurvives(profile, round, fd, n - 1);
      if profile.Hit? {
        HitOutcome(At(profile, round, n - 1), fd);
      } else {
        MissOutcome(At(profile, round, n - 1), fd);
      }
    }
  }

  /** And every batch is good, whatever the order of its completions; so the round passes. */
  lemma KeyedRoundIsGood(profile: Profile, round: nat, fd: int, batches: nat -> Batch, n: nat)
    requires AllServed(batches, profile, round, fd, n)
    ensures forall b :: 0 <= b < n ==> GoodKeyed(batches(b), profile, At(profile, round, b))
  {
    forall b | 0 <= b < n ensures GoodKeyed(batches(b), profile, At(profile, round, b)) {
      NoPollSurvives(profile, round, fd, b);
      KeyedBatchIsGood(batches(b), profile, At(profile, round, b), fd);
    }
  }

  lemma KeyedBatchIsGood(batch: Batch, profile: Profile, p: Place, fd: int)
    requires IsPlace(p) && ServedKeyed(batch, KeyedOutcome(map[], profile, p, fd), profile)
    ensures GoodKeyed(batch, profile, p)
  {
    var o := KeyedOutcome(map[], profile, p, fd);
    AnswersRearranged(batch.window, o.window, KeyedPattern(profile), p);
    if profile.Hit? {
      HitOutcome(p, fd);
    } else {
      MissOutcome(p, fd);
      AnswersRearranged(batch.cleanup, o.cleanup, CLEANUP, p);
      AnswersExpected(batch.cleanup, p);
    }
  }

  /** The whole-file batch: polls on two files, one cancellation of everything on the first, and a cleanup of the
      second. */
  ghost function F0Outcome(polls: map<u64, int>, p: Place, target: int, decoy: int): Outcome
    requires IsPlace(p)
  {
    ServeBatch(polls, Polls(Poll, p, target, PENDING) + Polls(Decoy, p, decoy, DECOYS),
               [CancelFd(target, Tag(Bulk, p, 0))], Cancels(Decoy, Cleanup, p, DECOYS))
  }

  lemma {:induction false} ServeBoth(k: Kernel, rs: seq<Request>, qs: seq<Request>, n: nat)
    requires n <= |qs|
    ensures ServeAll(k, rs + qs, |rs| + n) == ServeAll(ServeAll(k, rs, |rs|), qs, n)
  {
    if n == 0 {
      ServePrefix(k, rs, qs, |rs|);
    } else {
      ServeBoth(k, rs, qs, n - 1);
    }
  }

  lemma {:induction false} ServePrefix(k: Kernel, rs: seq<Request>, qs: seq<Request>, n: nat)
    requires n <= |rs|
    ensures ServeAll(k, rs + qs, n) == ServeAll(k, rs, n)
  {
    if n != 0 {
      ServePrefix(k, rs, qs, n - 1);
    }
  }

  lemma TagsApart(k: Kind, l: Kind, p: Place, n: nat, m: nat)
    requires IsPlace(p) && k != l && n <= PENDING && m <= PENDING
    ensures Tags(k, p, n) !! Tags(l, p, m)
  {
    forall x | x in Tags(l, p, m) ensures x !in Tags(k, p, n) {
      var i := Which(l, p, m, x);
      TagsHold(k, p, n, l, p, i);
      TagsAgree(l, p, i, k, p, i);
    }
  }

  lemma {:induction false} Which(k: Kind, p: Place, n: nat, x: u64) returns (i: nat)
    requires IsPlace(p) && n <= PENDING && x in Tags(k, p, n)
    ensures i < n && x == Tag(k, p, i)
  {
    if x == Tag(k, p, n - 1) {
      i := n - 1;
    } else {
      i := Which(k, p, n - 1, x);
    }
  }

  /** The one request ends exactly the polls on the target file, and its result says how many. */
  lemma F0IsGood(p: Place, target: int, decoy: int)
    requires IsPlace(p) && target != decoy
    ensures var o := F0Outcome(map[], p, target, decoy);
      o.polls == map[] && Answers(o.window, FD_ALL, p) && Answers(o.cleanup, DECOY_CLEANUP, p)
  {
    var ps, ds := Armed(Poll, p, PENDING, target), Armed(Decoy, p, DECOYS, decoy);
    ArmingAdds(Kernel(map[], []), Poll, p, target, PENDING, PENDING);
    assert map[] + ps == ps;
    ArmingAdds(Kernel(ps, []), Decoy, p, decoy, DECOYS, DECOYS);
    ServeBoth(Kernel(map[], []), Polls(Poll, p, target, PENDING), Polls(Decoy, p, decoy, DECOYS), DECOYS);
    BulkTakesAll(ps + ds, p, target, decoy);
    ArmAndCancel(Decoy, Cleanup, p, decoy, DECOYS);
    HitsAnswer(Decoy, Cleanup, p, DECOY_CLEANUP);
  }

  lemma BulkTakesAll(polls: map<u64, int>, p: Place, target: int, decoy: int)
    requires IsPlace(p) && target != decoy
    requires polls == Armed(Poll, p, PENDING, target) + Armed(Decoy, p, DECOYS, decoy)
    ensures var k := ServeAll(Kernel(polls, []), [CancelFd(target, Tag(Bulk, p, 0))], 1);
      k.polls == Armed(Decoy, p, DECOYS, decoy) && Answers(k.posted, FD_ALL, p)
  {
    TagsApart(Poll, Decoy, p, PENDING, DECOYS);
    var s := Waiting(polls, target);
    assert s == Tags(Poll, p, PENDING);
    assert polls - s == Armed(Decoy, p, DECOYS, decoy);
    TagsHold(Poll, p, PENDING, Poll, p, 0);
    EndedAnswer(s, p);
    BulkOne(Kernel(polls, []), CancelFd(target, Tag(Bulk, p, 0)),
            Ended(Listed(s)) + [Cqe(Tag(Bulk, p, 0), PENDING, 0)]);
  }

  lemma BulkOne(k: Kernel, r: Request, posts: seq<Cqe>)
    requires r.CancelFd? && k.posted == []
    requires posts == Ended(Listed(Waiting(k.polls, r.fd))) + [Cqe(r.userData, |Waiting(k.polls, r.fd)|, 0)]
    ensures ServeAll(k, [r], 1) == Kernel(k.polls - Waiting(k.polls, r.fd), posts)
  {
    assert ServeAll(k, [r], 0) == k;
    assert [] + Ended(Listed(Waiting(k.polls, r.fd))) == Ended(Listed(Waiting(k.polls, r.fd)));
  }

  lemma EndedAnswer(s: set<u64>, p: Place)
    requires IsPlace(p) && s == Tags(Poll, p, PENDING) && |s| == PENDING
    ensures Answers(Ended(Listed(s)) + [Cqe(Tag(Bulk, p, 0), PENDING, 0)], FD_ALL, p)
  {
    var l, bulk := Listed(s), Cqe(Tag(Bulk, p, 0), PENDING, 0);
    var w := Ended(l) + [bulk];
    assert w[PENDING] == bulk;
    forall i: nat | i < PENDING ensures Cqe(Tag(Poll, p, i), -ECANCELED, 0) in w {
      TagsHold(Poll, p, PENDING, Poll, p, i);
      assert Tag(Poll, p, i) in l;
      var j :| 0 <= j < |l| && l[j] == Tag(Poll, p, i);
      assert w[j] == Cqe(Tag(Poll, p, i), -ECANCELED, 0);
    }
  }
}
