/** The MSG_RING workloads of io_uring_msg_ring_round.c and the oracle that judges them. */
module MsgRing {
  import opened Words
  import opened Counting
  import opened Completions
  import opened Bitmaps

  const QD: nat := 64
  const SENTINEL_BYTES: nat := 4096

  /** The byte of the source file at which a fixed-file read of this slot looks. */
  function Sentinel(slot: nat): nat {
    (slot % SENTINEL_BYTES * 131 + 17) % 256
  }

  /** The counters of struct result that the oracle reads. */
  datatype Counts = Counts(
    sqes: nat, sourceCqes: nat, targetCqes: nat, verifyReads: nat,
    slotsInstalled: nat, slotsVerified: nat, successfulOps: nat,
    badResults: nat, badFlags: nat, badUserData: nat, duplicates: nat, missing: nat,
    pairMismatches: nat, sentinelMismatches: nat, timeouts: nat)

  const ZERO: Counts := Counts(0, 0, 0, 0, 0, 0, 0, 0, 0, 0, 0, 0, 0, 0, 0)

  /** No error counter has been incremented. */
  predicate Clean(c: Counts) {
    && c.badResults == 0 && c.badFlags == 0 && c.badUserData == 0 && c.duplicates == 0 && c.missing == 0
    && c.pairMismatches == 0 && c.sentinelMismatches == 0 && c.timeouts == 0
  }

  class Result {
    var c: Counts

    constructor ()
      ensures c == ZERO
    {
      c := ZERO;
    }
  }

  /** One half of struct batch_map: what has been learnt about each operation of the batch. */
  class Stream {
    const seen: array<bool>
    const ok: array<bool>
    const res: array<int>

    ghost predicate Valid() {
      && seen.Length == QD && ok.Length == QD && res.Length == QD
      && seen != ok
    }

    ghost function Contents(): FullBook
      requires Valid()
      reads seen, ok, res
    {
      Book(seen[..], ok[..], res[..], 0, 0, 0, 0)
    }

    /** The arrays agree with the book. */
    ghost predicate Holds(b: FullBook)
      requires Valid()
      reads seen, ok, res
    {
      seen[..] == b.seen && ok[..] == b.ok && res[..] == b.res
    }

    constructor ()
      ensures Valid() && fresh(seen) && fresh(ok) && fresh(res) && Blank(Contents())
    {
      seen := new bool[QD](_ => false);
      ok := new bool[QD](_ => false);
      res := new int[QD](_ => 0);
    }
  }

  /** The result a completion must carry: a slot of the table, the data protocol's own answers, or the length
      of a one-byte read. */
  datatype Rule = FixedSlot(total: nat) | SourceData | TargetData | OneByte

  /** Whose completions a drain counts: the source's, the target's, or verification reads. */
  datatype Side = Source | Target | Reads

  predicate Accepts(rule: Rule, sequence: nat, res: int) {
    match rule
    case FixedSlot(total) => 0 <= res < total
    case SourceData => res == 0
    case TargetData => res == 1 + sequence % 1_000_000
    case OneByte => res == 1
  }

  /** What is known about a batch part-way through a drain: the three arrays of a Stream, and how many
      completions were strays, repeats, flagged or rejected. */
  datatype Book = Book(seen: seq<bool>, ok: seq<bool>, res: seq<int>,
                       strays: nat, repeats: nat, flagged: nat, rejected: nat)

  type FullBook = b: Book | |b.seen| == |b.ok| == |b.res| == QD
    witness Book(seq(QD, _ => false), seq(QD, _ => false), seq(QD, _ => 0), 0, 0, 0, 0)

  /** One completion, whose decoded index is k. */
  function Absorb(b: FullBook, e: Cqe, k: int, rule: Rule, base: nat): FullBook
    requires k == STRAY || 0 <= k < QD
  {
    if k == STRAY then b.(strays := b.strays + 1)
    else if b.seen[k] then b.(repeats := b.repeats + 1, ok := b.ok[k := false])
    else
      var accepted := Accepts(rule, base + k, e.res);
      b.(seen := b.seen[k := true], ok := b.ok[k := e.flags == 0 && accepted], res := b.res[k := e.res],
         flagged := b.flagged + (if e.flags != 0 then 1 else 0),
         rejected := b.rejected + (if accepted then 0 else 1))
  }

  predicate Decoded(ks: seq<int>) {
    forall j :: 0 <= j < |ks| ==> ks[j] == STRAY || 0 <= ks[j] < QD
  }

  function AbsorbAll(b: FullBook, w: seq<Cqe>, ks: seq<int>, rule: Rule, base: nat, n: nat): FullBook
    requires n <= |w| == |ks| && Decoded(ks)
  {
    if n == 0 then b else Absorb(AbsorbAll(b, w, ks, rule, base, n - 1), w[n - 1], ks[n - 1], rule, base)
  }

  /** The zeroed batch_map and counters a drain starts with. */
  predicate Blank(b: FullBook) {
    && b.strays == 0 && b.repeats == 0 && b.flagged == 0 && b.rejected == 0
    && forall i :: 0 <= i < QD ==> !b.seen[i] && !b.ok[i]
  }

  lemma {:induction false} SeenMeans(b: FullBook, w: seq<Cqe>, ks: seq<int>, rule: Rule, base: nat, n: nat)
    requires n <= |w| == |ks| && Decoded(ks) && Blank(b)
    ensures var d := AbsorbAll(b, w, ks, rule, base, n);
      forall i :: 0 <= i < QD ==> (d.seen[i] <==> i in ks[..n])
  {
    if n != 0 {
      SeenMeans(b, w, ks, rule, base, n - 1);
      assert ks[..n] == ks[..n - 1] + [ks[n - 1]];
    }
  }

  lemma {:induction false} ResMeans(b: FullBook, w: seq<Cqe>, ks: seq<int>, rule: Rule, base: nat, n: nat)
    requires n <= |w| == |ks| && Decoded(ks) && Blank(b)
    ensures var d := AbsorbAll(b, w, ks, rule, base, n);
      forall i :: 0 <= i < QD && d.seen[i] ==> d.res[i] == ResultAt(w, ks, i)
  {
    if n != 0 {
      SeenMeans(b, w, ks, rule, base, n - 1);
      ResMeans(b, w, ks, rule, base, n - 1);
      if ks[n - 1] !in ks[..n - 1] {
        IndexOfFirst(ks, n - 1);
      }
    }
  }

  /** The completion at j is the first for its operation, has no flags and carries what the rule wants. */
  ghost predicate Proper(w: seq<Cqe>, ks: seq<int>, rule: Rule, base: nat, j: nat)
    requires j < |w| == |ks|
  {
    0 <= ks[j] && ks[j] !in ks[..j] && w[j].flags == 0 && Accepts(rule, base + ks[j], w[j].res)
  }

  /** Every completion of operation i among the first n is proper. */
  ghost predicate AllProper(w: seq<Cqe>, ks: seq<int>, rule: Rule, base: nat, n: nat, i: int)
    requires n <= |w| == |ks|
  {
    forall j :: 0 <= j < n && ks[j] == i ==> Proper(w, ks, rule, base, j)
  }

  lemma {:induction false} OkMeansAt(b: FullBook, w: seq<Cqe>, ks: seq<int>, rule: Rule, base: nat, n: nat, i: nat)
    requires n <= |w| == |ks| && Decoded(ks) && Blank(b) && i < QD
    ensures AbsorbAll(b, w, ks, rule, base, n).ok[i] <==> i in ks[..n] && AllProper(w, ks, rule, base, n, i)
  {
    if n != 0 {
      var m := n - 1;
      SeenMeans(b, w, ks, rule, base, m);
      OkMeansAt(b, w, ks, rule, base, m, i);
      assert ks[..n] == ks[..m] + [ks[m]];
      AllProperGrows(w, ks, rule, base, m, i);
      OkOne(AbsorbAll(b, w, ks, rule, base, m), w, ks, rule, base, m, i);
    }
  }

  lemma AllProperGrows(w: seq<Cqe>, ks: seq<int>, rule: Rule, base: nat, m: nat, i: int)
    requires m < |w| == |ks|
    ensures AllProper(w, ks, rule, base, m + 1, i) <==>
      AllProper(w, ks, rule, base, m, i) && (ks[m] == i ==> Proper(w, ks, rule, base, m))
  {
  }

  lemma OkOne(c: FullBook, w: seq<Cqe>, ks: seq<int>, rule: Rule, base: nat, m: nat, i: nat)
    requires m < |w| == |ks| && Decoded(ks) && i < QD && forall k :: 0 <= k < QD ==> (c.seen[k] <==> k in ks[..m])
    ensures Absorb(c, w[m], ks[m], rule, base).ok[i] <==> if ks[m] == i then Proper(w, ks, rule, base, m) else c.ok[i]
  {
  }

  /** The ok flag: operation i was completed exactly once, and properly. */
  lemma OkMeans(b: FullBook, w: seq<Cqe>, ks: seq<int>, rule: Rule, base: nat, n: nat)
    requires n <= |w| == |ks| && Decoded(ks) && Blank(b)
    ensures var d := AbsorbAll(b, w, ks, rule, base, n);
      forall i :: 0 <= i < QD ==> (d.ok[i] <==> i in ks[..n] && AllProper(w, ks, rule, base, n, i))
  {
    forall i | 0 <= i < QD
      ensures AbsorbAll(b, w, ks, rule, base, n).ok[i] <==> i in ks[..n] && AllProper(w, ks, rule, base, n, i)
    {
      OkMeansAt(b, w, ks, rule, base, n, i);
    }
  }

  /** Every ok flag vouches for the recorded result. */
  predicate Vouched(b: FullBook, rule: Rule, base: nat) {
    forall i :: 0 <= i < QD ==> b.ok[i] ==> Accepts(rule, base + i, b.res[i])
  }

  /** So it stays through a drain, whatever else the window holds. */
  lemma {:induction false} OkIsAccepted(b: FullBook, w: seq<Cqe>, ks: seq<int>, rule: Rule, base: nat, n: nat)
    requires n <= |w| == |ks| && Decoded(ks) && Blank(b)
    ensures Vouched(AbsorbAll(b, w, ks, rule, base, n), rule, base)
  {
    if n != 0 {
      OkIsAccepted(b, w, ks, rule, base, n - 1);
      var c, k := AbsorbAll(b, w, ks, rule, base, n - 1), ks[n - 1];
      assert Vouched(c, rule, base);
      forall i | 0 <= i < QD && i != k ensures c.ok[i] ==> Accepts(rule, base + i, c.res[i]) {
      }
      assert Vouched(Absorb(c, w[n - 1], k, rule, base), rule, base);
    }
  }

  predicate NoErrors(b: FullBook) {
    b.strays == 0 && b.repeats == 0 && b.flagged == 0 && b.rejected == 0
  }

  /** A drain counts no error exactly when every completion was proper. */
  lemma {:induction false} NoErrorsMeans(b: FullBook, w: seq<Cqe>, ks: seq<int>, rule: Rule, base: nat, n: nat)
    requires n <= |w| == |ks| && Decoded(ks) && Blank(b)
    ensures NoErrors(AbsorbAll(b, w, ks, rule, base, n)) <==>
      forall j :: 0 <= j < n ==> Proper(w, ks, rule, base, j)
  {
    if n != 0 {
      SeenMeans(b, w, ks, rule, base, n - 1);
      NoErrorsMeans(b, w, ks, rule, base, n - 1);
      var d := AbsorbAll(b, w, ks, rule, base, n - 1);
      assert NoErrors(Absorb(d, w[n - 1], ks[n - 1], rule, base)) <==>
        NoErrors(d) && Proper(w, ks, rule, base, n - 1);
    }
  }

  function Shortfall(w: seq<Cqe>): nat {
    if |w| < QD then QD - |w| else 0
  }

  function Excess(w: seq<Cqe>): nat {
    if |w| > QD then |w| - QD else 0
  }

  /** The counters after draining n completions of w. */
  function Drained(c: Counts, side: Side, b: FullBook, w: seq<Cqe>, n: nat): Counts {
    c.(sourceCqes := c.sourceCqes + (if side.Source? then n else 0),
       targetCqes := c.targetCqes + (if side.Target? then n else 0),
       missing := c.missing + Shortfall(w),
       badUserData := c.badUserData + Excess(w) + b.strays,
       duplicates := c.duplicates + b.repeats,
       badFlags := c.badFlags + b.flagged,
       badResults := c.badResults + b.rejected)
  }

  function Received(c: Counts, side: Side): Counts {
    match side
    case Source => c.(sourceCqes := c.sourceCqes + 1)
    case Target => c.(targetCqes := c.targetCqes + 1)
    case Reads => c
  }

  /** The counters after one more completion takes the book from b to b'. */
  function Counted(c: Counts, b: FullBook, b': FullBook): Counts
    requires b.strays <= b'.strays && b.repeats <= b'.repeats
    requires b.flagged <= b'.flagged && b.rejected <= b'.rejected
  {
    c.(badUserData := c.badUserData + (b'.strays - b.strays),
       duplicates := c.duplicates + (b'.repeats - b.repeats),
       badFlags := c.badFlags + (b'.flagged - b.flagged),
       badResults := c.badResults + (b'.rejected - b.rejected))
  }

  lemma CountOne(c: Counts, side: Side, w: seq<Cqe>, n: nat, b: FullBook, b': FullBook)
    requires b.strays <= b'.strays && b.repeats <= b'.repeats
    requires b.flagged <= b'.flagged && b.rejected <= b'.rejected
    ensures Counted(Received(Drained(c, side, b, w, n), side), b, b') == Drained(c, side, b', w, n + 1)
  {
  }

  /** drain_data_cq, drain_send_fd_cq and the drain of verification reads, which differ only in what they
      accept and count. The window may hold any completions and any number of them. */
  method Drain(w: seq<Cqe>, side: Side, tag: u64, rule: Rule, base: nat, stream: Stream, result: Result)
    requires IsTag(tag) && stream.Valid()
    modifies stream.seen, stream.ok, stream.res, result
    ensures var b := AbsorbAll(old(stream.Contents()), w, Keys(w, tag, base, QD), rule, base, |w|);
      stream.Holds(b) && result.c == Drained(old(result.c), side, b, w, |w|)
  {
    ghost var ks, b0 := Keys(w, tag, base, QD), stream.Contents();
    var c := result.c;
    if |w| != QD {
      if |w| < QD {
        c := c.(missing := c.missing + (QD - |w|));
      } else {
        c := c.(badUserData := c.badUserData + (|w| - QD));
      }
    }
    c := DrainAll(w, side, tag, rule, base, stream, c, old(result.c), b0, ks);
    result.c := c;
  }

  method DrainAll(w: seq<Cqe>, side: Side, tag: u64, rule: Rule, base: nat, stream: Stream, start: Counts,
                  ghost c0: Counts, ghost b0: FullBook, ghost ks: seq<int>)
    returns (c: Counts)
    requires IsTag(tag) && stream.Valid() && stream.Holds(b0) && ks == Keys(w, tag, base, QD)
    requires start == Drained(c0, side, b0, w, 0)
    modifies stream.seen, stream.ok, stream.res
    ensures stream.Holds(AbsorbAll(b0, w, ks, rule, base, |w|))
    ensures c == Drained(c0, side, AbsorbAll(b0, w, ks, rule, base, |w|), w, |w|)
  {
    c := start;
    for n := 0 to |w|
      invariant stream.Holds(AbsorbAll(b0, w, ks, rule, base, n))
      invariant c == Drained(c0, side, AbsorbAll(b0, w, ks, rule, base, n), w, n)
    {
      var k := Decode(w[n].userData, tag, base, QD);
      c := DrainNext(w, n, k, side, rule, base, stream, c, c0, AbsorbAll(b0, w, ks, rule, base, n));
    }
  }

  method DrainNext(w: seq<Cqe>, n: nat, k: int, side: Side, rule: Rule, base: nat, stream: Stream, start: Counts,
                   ghost c0: Counts, ghost b: FullBook)
    returns (c: Counts)
    requires n < |w| && (k == STRAY || 0 <= k < QD) && stream.Valid() && stream.Holds(b)
    requires start == Drained(c0, side, b, w, n)
    modifies stream.seen, stream.ok, stream.res
    ensures stream.Holds(Absorb(b, w[n], k, rule, base))
    ensures c == Drained(c0, side, Absorb(b, w[n], k, rule, base), w, n + 1)
  {
    CountOne(c0, side, w, n, b, Absorb(b, w[n], k, rule, base));
    c := Received(start, side);
    c := DrainOne(w[n], k, rule, base, stream, c, b);
  }

  /** The body of the drain loop. */
  method DrainOne(e: Cqe, index: int, rule: Rule, base: nat, stream: Stream, c: Counts, ghost b: FullBook)
    returns (c': Counts)
    requires stream.Valid() && stream.Holds(b) && (index == STRAY || 0 <= index < QD)
    modifies stream.seen, stream.ok, stream.res
    ensures var b' := Absorb(b, e, index, rule, base);
      stream.Holds(b') && c' == Counted(c, b, b')
  {
    c' := c;
    if index == STRAY {
      c' := c'.(badUserData := c'.badUserData + 1);
      return;
    }
    if stream.seen[index] {
      c' := c'.(duplicates := c'.duplicates + 1);
      stream.ok[index] := false;
      return;
    }
    stream.seen[index] := true;
    stream.ok[index] := true;
    stream.res[index] := e.res;
    if e.flags != 0 {
      c' := c'.(badFlags := c'.badFlags + 1);
      stream.ok[index] := false;
    }
    if !Accepts(rule, base + index, e.res) {
      c' := c'.(badResults := c'.badResults + 1);
      stream.ok[index] := false;
    }
  }

  // ---- what a drain says about its window ----

  /** The same result for every operation of a batch. */
  function Uniform(res: int): (rs: seq<int>)
    ensures |rs| == QD && forall i :: 0 <= i < QD ==> rs[i] == res
  {
    seq(QD, _ => res)
  }

  /** The results a window reports for the operations of a batch. */
  ghost function ResultsOf(w: seq<Cqe>, tag: u64, base: nat): (rs: seq<int>)
    requires IsTag(tag)
    ensures |rs| == QD
  {
    seq(QD, i requires 0 <= i < QD => ResultAt(w, Keys(w, tag, base, QD), i))
  }

  /** The window describes one acceptable result for each operation of the batch. */
  ghost predicate Good(w: seq<Cqe>, tag: u64, rule: Rule, base: nat, rs: seq<int>)
    requires IsTag(tag)
  {
    && |rs| == QD && Describes(w, tag, base, rs)
    && forall i :: 0 <= i < QD ==> Accepts(rule, base + i, rs[i])
  }

  /** The errors of a drain and of the seen tests after it. */
  predicate Spotless(w: seq<Cqe>, b: FullBook) {
    |w| == QD && NoErrors(b) && forall i :: 0 <= i < QD ==> b.seen[i]
  }

  lemma GoodIsUnique(w: seq<Cqe>, tag: u64, rule: Rule, base: nat, rs: seq<int>)
    requires IsTag(tag) && base + QD <= TWO48 && Good(w, tag, rule, base, rs)
    ensures rs == ResultsOf(w, tag, base)
  {
    DescribedWindow(w, tag, base, rs);
    var ks := Keys(w, tag, base, QD);
    forall i | 0 <= i < QD ensures rs[i] == ResultAt(w, ks, i) {
      assert i in ks;
    }
  }

  /** The book is spotless exactly when the window describes the batch; then it records every result. */
  ghost predicate Judges(b: FullBook, w: seq<Cqe>, tag: u64, rule: Rule, base: nat)
    requires IsTag(tag)
  {
    && (Spotless(w, b) <==> Good(w, tag, rule, base, ResultsOf(w, tag, base)))
    && (Spotless(w, b) ==> b.res == ResultsOf(w, tag, base))
    && (NoErrors(b) ==> forall i :: 0 <= i < QD && b.seen[i] ==> b.ok[i])
  }

  lemma DrainVerdict(b0: FullBook, w: seq<Cqe>, tag: u64, rule: Rule, base: nat)
    requires IsTag(tag) && base + QD <= TWO48 && Blank(b0)
    ensures Judges(AbsorbAll(b0, w, Keys(w, tag, base, QD), rule, base, |w|), w, tag, rule, base)
  {
    var ks := Keys(w, tag, base, QD);
    var b := AbsorbAll(b0, w, ks, rule, base, |w|);
    assert ks[..|w|] == ks;
    SeenMeans(b0, w, ks, rule, base, |w|);
    OkMeans(b0, w, ks, rule, base, |w|);
    ResMeans(b0, w, ks, rule, base, |w|);
    NoErrorsMeans(b0, w, ks, rule, base, |w|);
    if Spotless(w, b) {
      SpotlessIsGood(w, tag, rule, base);
    }
    if Good(w, tag, rule, base, ResultsOf(w, tag, base)) {
      GoodIsProper(w, tag, rule, base);
    }
  }

  lemma SpotlessIsGood(w: seq<Cqe>, tag: u64, rule: Rule, base: nat)
    requires IsTag(tag) && base + QD <= TWO48 && |w| == QD
    requires var ks := Keys(w, tag, base, QD);
      Covers(ks, QD) && forall j :: 0 <= j < |w| ==> Proper(w, ks, rule, base, j)
    ensures Good(w, tag, rule, base, ResultsOf(w, tag, base))
  {
    var ks, rs := Keys(w, tag, base, QD), ResultsOf(w, tag, base);
    forall j | 0 <= j < |w| ensures w[j].flags == 0 {
      assert Proper(w, ks, rule, base, j);
    }
    CleanWindow(w, tag, base, rs);
    forall i | 0 <= i < QD ensures Accepts(rule, base + i, rs[i]) {
      assert i in ks;
      assert Proper(w, ks, rule, base, IndexOf(ks, i));
    }
  }

  lemma GoodIsProper(w: seq<Cqe>, tag: u64, rule: Rule, base: nat)
    requires IsTag(tag) && base + QD <= TWO48 && Good(w, tag, rule, base, ResultsOf(w, tag, base))
    ensures |w| == QD
    ensures var ks := Keys(w, tag, base, QD);
      Covers(ks, QD) && forall j :: 0 <= j < |w| ==> Proper(w, ks, rule, base, j)
  {
    var ks, rs := Keys(w, tag, base, QD), ResultsOf(w, tag, base);
    DescribedWindow(w, tag, base, rs);
    forall j | 0 <= j < |w| ensures Proper(w, ks, rule, base, j) {
      assert w[j].flags == 0 && w[j].res == rs[ks[j]];
    }
  }
}
