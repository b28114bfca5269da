/** The rounds of weighted_payload.c: main, the two foreground threads and the competitor, kept in step by two
    barriers. */
module HandoffRounds {
  import opened Words
  import Lcg
  import Handoff

  const MAIN: nat := 0
  const BUSY: nat := 3

  /** The passes of one block of the competitor. */
  const BLOCK: nat := 4096

  datatype Barrier = Start | Finish

  /** A participant has passed some barriers, is perhaps waiting at the next one, and has done some of
      the actions that come before it. */
  datatype Place = Place(passed: nat, waiting: bool, actions: nat)

  /** Where the competitor stands: before the load of phase in its first loop, before a block, before the load in its
      second loop, or through. */
  datatype BusyPc = Spinning | Computing | Checking | Ended

  datatype Busy = Busy(pc: BusyPc, blocks: nat, checksum: u64)

  const FRESH: Busy := Busy(Spinning, 0, 3)

  datatype State = State(places: seq<Place>, hand: Handoff.State, busy: Busy, verdicts: seq<bool>)

  datatype Action =
    | ResetTurn
    | ResetPhase
    | InitStats(worker: nat)
    | Foreground(inner: Handoff.Action)
    | Compete
    | Report
    | Arrive(who: nat)
    | Release(barrier: Barrier)

  datatype Config = Config(options: Handoff.Options, rounds: nat, competitor: bool)

  predicate ValidConfig(c: Config) {
    Handoff.ValidOptions(c.options)
  }

  /** The threads counted by pthread_barrier_init. */
  function Participants(c: Config): nat {
    if c.competitor then 4 else 3
  }

  /** Each round waits at start, finish, finish, start. */
  function BarrierAfter(passed: nat): Barrier {
    if passed % 4 == 0 || passed % 4 == 3 then Start else Finish
  }

  function Initial(c: Config, hand: Handoff.State, busy: Busy): State {
    State(seq(Participants(c), _ => Place(0, false, 0)), hand, busy, [])
  }

  /** p runs between barriers, in the given segment of some round. */
  predicate Running(c: Config, s: State, p: nat, segment: nat) {
    && p < |s.places| && !s.places[p].waiting
    && s.places[p].passed < 4 * c.rounds && s.places[p].passed % 4 == segment
  }

  /** p has done all that comes before its next barrier. */
  predicate ReadyToArrive(c: Config, s: State, p: nat) {
    && p < |s.places| && !s.places[p].waiting && s.places[p].passed < 4 * c.rounds
    && var segment := s.places[p].passed % 4;
    if p == MAIN then
      (segment == 0 ==> s.places[p].actions == 2) && (segment == 3 ==> s.places[p].actions == 1)
    else
      (segment == 0 ==> s.places[p].actions == 1) && (segment == 1 ==> Through(s, p))
  }

  /** A worker has returned from foreground or background. */
  predicate Through(s: State, p: nat) {
    if p == BUSY then s.busy.pc.Ended? else 1 <= p <= 2 && s.hand.Get(p - 1).pc.Done?
  }

  predicate Enabled(c: Config, s: State, a: Action) {
    match a
    case ResetTurn => Running(c, s, MAIN, 0) && s.places[MAIN].actions == 0
    case ResetPhase => Running(c, s, MAIN, 0) && s.places[MAIN].actions == 1
    case InitStats(worker) => 1 <= worker <= 3 && Running(c, s, worker, 0) && s.places[worker].actions == 0
    case Foreground(inner) => Handoff.Enabled(s.hand, inner) && Running(c, s, inner.index + 1, 1)
    case Compete => Running(c, s, BUSY, 1) && !s.busy.pc.Ended?
    case Report => Running(c, s, MAIN, 3) && s.places[MAIN].actions == 0
    case Arrive(who) => ReadyToArrive(c, s, who)
    case Release(barrier) =>
      forall p :: 0 <= p < |s.places| ==> s.places[p].waiting && BarrierAfter(s.places[p].passed) == barrier
  }

  function Act(s: State, p: nat): State
    requires p < |s.places|
  {
    s.(places := s.places[p := s.places[p].(actions := s.places[p].actions + 1)])
  }

  /** background: the competitor spins until the handoff has begun, and then computes whole blocks until it sees that
      it is over. */
  function Background(phase: nat, b: Busy): Busy {
    match b.pc
    case Spinning => b.(pc := if phase == 0 then Spinning else if phase == 1 then Computing else Ended)
    case Computing => Busy(Checking, b.blocks + 1, Lcg.Iterate(b.checksum, BLOCK))
    case Checking => b.(pc := if phase == 1 then Computing else Ended)
    case Ended => b
  }

  function Fresh(s: State, worker: nat): State
    requires 1 <= worker <= 3
  {
    if worker == BUSY then s.(busy := FRESH) else s.(hand := s.hand.Set(worker - 1, Handoff.Fresh(worker - 1)))
  }

  /** The tests of report, clocks left aside. */
  ghost predicate ReportPasses(c: Config, s: State) {
    && Handoff.ReportPasses(c.options, s.hand)
    && (c.competitor ==> s.busy.checksum == Lcg.Iterate(3, s.busy.blocks * BLOCK))
  }

  ghost function Step(c: Config, s: State, a: Action): State
    requires Enabled(c, s, a)
  {
    match a
    case ResetTurn => Act(s, MAIN).(hand := s.hand.(turn := 2))
    case ResetPhase => Act(s, MAIN).(hand := s.hand.(phase := 0))
    case InitStats(worker) => Fresh(Act(s, worker), worker)
    case Foreground(inner) => s.(hand := Handoff.Step(c.options, s.hand, inner))
    case Compete => s.(busy := Background(s.hand.phase, s.busy))
    case Report => Act(s, MAIN).(verdicts := s.verdicts + [ReportPasses(c, s)])
    case Arrive(who) => s.(places := s.places[who := s.places[who].(waiting := true)])
    case Release(_) =>
      s.(places := seq(|s.places|, p requires 0 <= p < |s.places| => Place(s.places[p].passed + 1, false, 0)))
  }

  /** The competitor has computed whole blocks from its seed; it has not begun before the handoff, nor ended before
      it. */
  ghost predicate BusyInv(b: Busy, phase: nat) {
    && b.checksum == Lcg.Iterate(3, b.blocks * BLOCK)
    && (b.pc.Spinning? ==> b.blocks == 0)
    && (b.pc.Computing? || b.pc.Checking? ==> phase > 0)
    && (b.pc.Ended? ==> phase == 2)
  }

  lemma BackgroundKeepsInv(b: Busy, phase: nat)
    requires BusyInv(b, phase) && phase <= 2
    ensures BusyInv(Background(phase, b), phase)
  {
    if b.pc.Computing? {
      Lcg.IterateAdds(3, b.blocks * BLOCK, BLOCK);
      assert b.blocks * BLOCK + BLOCK == (b.blocks + 1) * BLOCK;
    }
  }

  lemma FreshBusy(phase: nat)
    ensures BusyInv(FRESH, phase)
  {
    assert FRESH.blocks * BLOCK == 0;
  }

  ghost predicate SegmentInv(c: Config, s: State, segment: nat)
    requires |s.places| == Participants(c)
  {
    match segment
    case 0 =>
      && s.places[MAIN].actions <= 2
      && (s.places[MAIN].actions >= 1 ==> s.hand.turn == 2)
      && (s.places[MAIN].actions == 2 ==> s.hand.phase == 0)
      && (s.places[MAIN].waiting ==> s.places[MAIN].actions == 2)
      && forall w :: 1 <= w < |s.places| ==> Prepared(s, w)
    case 1 =>
      && Handoff.Inv(c.options, s.hand) && (c.competitor ==> BusyInv(s.busy, s.hand.phase))
      && forall w :: 1 <= w < |s.places| ==> (s.places[w].waiting ==> Through(s, w))
    case _ =>
      && Handoff.Inv(c.options, s.hand) && Handoff.Final(s.hand)
      && (c.competitor ==> BusyInv(s.busy, s.hand.phase) && s.busy.pc.Ended?)
      && s.places[MAIN].actions <= 1
      && (segment == 3 && s.places[MAIN].waiting ==> s.places[MAIN].actions == 1)
  }

  /** A worker before the start barrier. */
  ghost predicate Prepared(s: State, w: nat)
    requires 1 <= w < |s.places| <= 4
  {
    && s.places[w].actions <= 1 && (s.places[w].waiting ==> s.places[w].actions == 1)
    && (s.places[w].actions == 1 ==>
          if w == BUSY then s.busy == FRESH else s.hand.Get(w - 1) == Handoff.Fresh(w - 1))
  }

  ghost predicate Inv(c: Config, s: State) {
    && |s.places| == Participants(c)
    && (forall p :: 0 <= p < |s.places| ==> s.places[p].passed == s.places[MAIN].passed)
    && s.places[MAIN].passed <= 4 * c.rounds
    && (forall i :: 0 <= i < |s.verdicts| ==> s.verdicts[i])
    && (s.places[MAIN].passed == 4 * c.rounds ==> forall p :: 0 <= p < |s.places| ==> !s.places[p].waiting)
    && (s.places[MAIN].passed < 4 * c.rounds ==> SegmentInv(c, s, s.places[MAIN].passed % 4))
    && |s.verdicts| == s.places[MAIN].passed / 4
         + (if s.places[MAIN].passed % 4 == 3 then s.places[MAIN].actions else 0)
  }

  lemma InitialInv(c: Config, hand: Handoff.State, busy: Busy)
    requires ValidConfig(c)
    ensures Inv(c, Initial(c, hand, busy))
  {
  }

  /** Every action of main, of a worker or of a barrier keeps the invariant. */
  lemma StepKeepsInv(c: Config, s: State, a: Action)
    requires ValidConfig(c) && Inv(c, s) && Enabled(c, s, a)
    ensures Inv(c, Step(c, s, a))
  {
    match a
    case Foreground(inner) => ForegroundKeepsInv(c, s, inner);
    case Compete => BackgroundKeepsInv(s.busy, s.hand.phase);
    case Release(_) => ReleaseKeepsInv(c, s, a);
    case Report => Handoff.FinalStatePasses(c.options, s.hand);
    case InitStats(worker) => InitKeepsInv(c, s, worker);
    case Arrive(who) => ArriveKeepsInv(c, s, who);
    case _ => ResetKeepsInv(c, s, a);
  }

  lemma ResetKeepsInv(c: Config, s: State, a: Action)
    requires ValidConfig(c) && Inv(c, s) && (a.ResetTurn? || a.ResetPhase?) && Enabled(c, s, a)
    ensures Inv(c, Step(c, s, a))
  {
    var t := Step(c, s, a);
    forall w | 1 <= w < |t.places| ensures Prepared(t, w) {
      assert Prepared(s, w);
    }
  }

  lemma ForegroundKeepsInv(c: Config, s: State, inner: Handoff.Action)
    requires ValidConfig(c) && Inv(c, s) && Enabled(c, s, Foreground(inner))
    ensures Inv(c, Step(c, s, Foreground(inner)))
  {
    Handoff.StepKeepsInv(c.options, s.hand, inner);
    PhaseGrows(c.options, s.hand, inner);
  }

  /** The phase only advances, and at its end it stays. */
  lemma PhaseGrows(o: Handoff.Options, s: Handoff.State, a: Handoff.Action)
    requires Handoff.Inv(o, s) && Handoff.Enabled(s, a)
    ensures s.phase <= Handoff.Step(o, s, a).phase <= 2
  {
  }

  lemma InitKeepsInv(c: Config, s: State, worker: nat)
    requires ValidConfig(c) && Inv(c, s) && Enabled(c, s, InitStats(worker))
    ensures Inv(c, Step(c, s, InitStats(worker)))
  {
    var t := Step(c, s, InitStats(worker));
    forall w | 1 <= w < |t.places| ensures Prepared(t, w) {
      assert Prepared(s, w);
    }
  }

  lemma ArriveKeepsInv(c: Config, s: State, who: nat)
    requires ValidConfig(c) && Inv(c, s) && Enabled(c, s, Arrive(who))
    ensures Inv(c, Step(c, s, Arrive(who)))
  {
    var t := Step(c, s, Arrive(who));
    if s.places[MAIN].passed % 4 == 0 {
      forall w | 1 <= w < |t.places| ensures Prepared(t, w) {
        assert Prepared(s, w);
      }
    }
  }

  lemma ReleaseKeepsInv(c: Config, s: State, a: Action)
    requires ValidConfig(c) && Inv(c, s) && a.Release? && Enabled(c, s, a)
    ensures Inv(c, Step(c, s, a))
  {
    var n := s.places[MAIN].passed;
    assert n < 4 * c.rounds;
    if n % 4 == 0 {
      assert Prepared(s, 1) && Prepared(s, 2) && (c.competitor ==> Prepared(s, BUSY));
      assert s.hand == Handoff.Initial() && (c.competitor ==> s.busy == FRESH);
      Handoff.InitialInv(c.options);
      FreshBusy(0);
    } else if n % 4 == 1 {
      assert s.places[1].waiting && s.places[2].waiting && (c.competitor ==> s.places[BUSY].waiting);
    }
  }

  ghost predicate IsRun(c: Config, run: seq<State>, hand: Handoff.State, busy: Busy) {
    && |run| > 0 && run[0] == Initial(c, hand, busy)
    && forall i :: 0 < i < |run| ==> Next(c, run[i - 1], run[i])
  }

  ghost predicate Next(c: Config, s: State, s': State) {
    exists a :: Enabled(c, s, a) && s' == Step(c, s, a)
  }

  lemma {:induction false} RunsKeepInv(c: Config, run: seq<State>, hand: Handoff.State, busy: Busy, i: nat)
    requires ValidConfig(c) && IsRun(c, run, hand, busy) && i < |run|
    ensures Inv(c, run[i])
  {
    if i == 0 {
      InitialInv(c, hand, busy);
    } else {
      RunsKeepInv(c, run, hand, busy, i - 1);
      assert Next(c, run[i - 1], run[i]);
      var a :| Enabled(c, run[i - 1], a) && run[i] == Step(c, run[i - 1], a);
      StepKeepsInv(c, run[i - 1], a);
    }
  }

  /** The barriers keep main away from the workers: while report can read the statistics no worker can
      write them, and while main can reset turn and phase none of the three threads can run. */
  lemma BarriersSeparate(c: Config, run: seq<State>, hand: Handoff.State, busy: Busy, i: nat, a: Action)
    requires ValidConfig(c) && IsRun(c, run, hand, busy) && i < |run| && Enabled(c, run[i], a)
    ensures Enabled(c, run[i], Report) ==> !a.InitStats? && !a.Foreground? && !a.Compete?
    ensures Enabled(c, run[i], ResetTurn) || Enabled(c, run[i], ResetPhase) ==> !a.Foreground? && !a.Compete?
    ensures a.Foreground? || a.Compete? ==> run[i].places[MAIN].passed % 4 == 1
  {
    RunsKeepInv(c, run, hand, busy, i);
  }

  /** While the competitor computes, the handoff has begun; and it stops only when the handoff is over. */
  lemma CompetitorCovers(c: Config, run: seq<State>, hand: Handoff.State, busy: Busy, i: nat)
    requires ValidConfig(c) && IsRun(c, run, hand, busy) && i < |run| && c.competitor
    requires |run[i].places| > 0 && run[i].places[MAIN].passed < 4 * c.rounds && run[i].places[MAIN].passed % 4 == 1
    ensures run[i].busy.pc.Computing? ==> !run[i].hand.ping.pc.StorePhase?
    ensures run[i].busy.pc.Ended? ==> run[i].hand.ping.pc.Done?
  {
    RunsKeepInv(c, run, hand, busy, i);
  }

  predicate Finished(c: Config, s: State)
    requires |s.places| > 0
  {
    s.places[MAIN].passed == 4 * c.rounds
  }

  /** Every report of every run passes, the competitor's checksum included, and a finished run has made one per
      round. */
  lemma AllReportsPass(c: Config, run: seq<State>, hand: Handoff.State, busy: Busy, i: nat)
    requires ValidConfig(c) && IsRun(c, run, hand, busy) && i < |run|
    ensures forall k :: 0 <= k < |run[i].verdicts| ==> run[i].verdicts[k]
    ensures |run[i].places| > 0 && (Finished(c, run[i]) ==> |run[i].verdicts| == c.rounds)
  {
    RunsKeepInv(c, run, hand, busy, i);
  }

  // ---- report itself ----

  datatype Clocks = Clocks(begin: u64, end: u64, cpuBegin: seq<u64>, cpuEnd: seq<u64>)

  /** What the clocks read is up to the machine; report asks that they advance. */
  predicate ClocksAdvance(k: Clocks, threads: nat)
    requires |k.cpuBegin| == |k.cpuEnd| == threads
  {
    k.begin < k.end && forall i :: 0 <= i < threads ==> k.cpuBegin[i] <= k.cpuEnd[i]
  }

  function ChecksumOf(s: State, i: nat): u64
    requires i < 3
  {
    if i == 2 then s.busy.checksum else s.hand.Get(i).checksum
  }

  /** The number of passes thread i should have made, as the program computes it: it may wrap. */
  function Passes(c: Config, s: State, i: nat): u64
    requires ValidConfig(c) && i < 3
  {
    if i == 2 then s.busy.blocks * BLOCK % TWO64 else
      Handoff.ProductBound(c.options.ops, c.options.work);
      c.options.ops * c.options.work
  }

  ghost predicate ChecksumRight(c: Config, s: State, i: nat)
    requires ValidConfig(c) && i < 3
  {
    ChecksumOf(s, i) == Lcg.Iterate(i + 1, Passes(c, s, i))
  }

  /** The loop of report over the threads. */
  method ReportThreads(c: Config, s: State, k: Clocks, threads: nat) returns (passes: bool)
    requires ValidConfig(c) && threads <= 3 && |k.cpuBegin| == |k.cpuEnd| == threads
    ensures passes <==>
      forall i: nat :: i < threads ==> ChecksumRight(c, s, i) && k.cpuBegin[i] <= k.cpuEnd[i]
  {
    for i := 0 to threads
      invariant forall j: nat :: j < i ==> ChecksumRight(c, s, j) && k.cpuBegin[j] <= k.cpuEnd[j]
    {
      var expected := Lcg.Expected(i + 1, Passes(c, s, i));
      if ChecksumOf(s, i) != expected || k.cpuEnd[i] < k.cpuBegin[i] {
        assert !(ChecksumRight(c, s, i) && k.cpuBegin[i] <= k.cpuEnd[i]);
        return false;
      }
    }
    passes := true;
  }

  /** report: it fails exactly when a clock did not advance or one of the tests of the model fails. That the
      competitor's passes are counted modulo 2^64 makes no difference. */
  method ReportRound(c: Config, s: State, k: Clocks) returns (passes: bool)
    requires ValidConfig(c) && |k.cpuBegin| == |k.cpuEnd| == Participants(c) - 1
    ensures passes <==> ClocksAdvance(k, Participants(c) - 1) && ReportPasses(c, s)
  {
    if k.end <= k.begin || !Handoff.Protocol(c.options, s.hand) {
      return false;
    }
    passes := ReportThreads(c, s, k, Participants(c) - 1);
    ChecksumsAre(c, s);
    assert passes ==> ChecksumRight(c, s, 0) && ChecksumRight(c, s, 1);
    assert passes && c.competitor ==> ChecksumRight(c, s, 2);
  }

  lemma ChecksumsAre(c: Config, s: State)
    requires ValidConfig(c)
    ensures Handoff.ReportPasses(c.options, s.hand) <==>
      Handoff.Protocol(c.options, s.hand) && ChecksumRight(c, s, 0) && ChecksumRight(c, s, 1)
    ensures ChecksumRight(c, s, 2) <==> s.busy.checksum == Lcg.Iterate(3, s.busy.blocks * BLOCK)
  {
    Lcg.WrappedPasses(3, s.busy.blocks * BLOCK);
  }

  // ---- how long the rounds can take ----

  /** A step that uses up nothing: a signal, or the competitor spinning or computing while the handoff goes on. */
  predicate Free(s: State, a: Action) {
    (a.Foreground? && a.inner.Interrupt?) || (a.Compete? && s.hand.phase != 2)
  }

  /** The program never deadlocks: until every round is over something that is not free can happen. */
  lemma AlwaysProgress(c: Config, s: State) returns (a: Action)
    requires ValidConfig(c) && Inv(c, s) && !Finished(c, s)
    ensures Enabled(c, s, a) && !Free(s, a)
  {
    var segment := s.places[MAIN].passed % 4;
    var main := s.places[MAIN];
    if segment == 0 && main.actions == 0 {
      a := ResetTurn;
    } else if segment == 0 && main.actions == 1 {
      a := ResetPhase;
    } else if w :| segment == 0 && 1 <= w < |s.places| && s.places[w].actions == 0 {
      assert Prepared(s, w);
      a := InitStats(w);
    } else if segment == 3 && main.actions == 0 {
      a := Report;
    } else if segment == 1 && !Handoff.Final(s.hand) {
      Handoff.NeverStuck(c.options, s.hand);
      var index := if Handoff.Enabled(s.hand, Handoff.Run(0)) then 0 else 1;
      a := Foreground(Handoff.Run(index));
    } else if segment == 1 && c.competitor && !s.busy.pc.Ended? {
      a := Compete;
    } else if p :| 0 <= p < |s.places| && !s.places[p].waiting {
      assert segment == 0 && p != MAIN ==> Prepared(s, p);
      a := Arrive(p);
    } else {
      a := Release(BarrierAfter(main.passed));
    }
  }

  /** What a participant may still do before its next barrier opens. */
  function PlaceWork(p: Place): nat {
    if p.waiting then 0 else if p.actions < 2 then 3 - p.actions else 1
  }

  function PlacesWork(places: seq<Place>): nat
    requires 3 <= |places| <= 4
  {
    PlaceWork(places[0]) + PlaceWork(places[1]) + PlaceWork(places[2]) +
    if |places| == 4 then PlaceWork(places[3]) else 0
  }

  /** What the two foreground threads may still do in the current round. */
  function HandWork(c: Config, s: State): nat
    requires |s.places| > 0
  {
    if s.places[MAIN].passed % 4 == 1 &&
       s.hand.ping.completed <= c.options.ops && s.hand.pong.completed <= c.options.ops
    then Handoff.Measure(c.options, s.hand) else 0
  }

  /** And the competitor, once the handoff is over. */
  function BusyWork(s: State): nat
    requires |s.places| > 0
  {
    if s.places[MAIN].passed % 4 != 1 then 0
    else if s.hand.phase != 2 then 3
    else match s.busy.pc
      case Computing => 2
      case Ended => 0
      case _ => 1
  }

  /** More than anything between two barriers can cost. */
  function Segment(c: Config): nat {
    40 * c.options.ops + 58
  }

  function Segments(c: Config, n: nat): nat {
    n * Segment(c)
  }

  function Left(c: Config, s: State): nat
    requires 3 <= |s.places| <= 4 && s.places[MAIN].passed <= 4 * c.rounds
  {
    Segments(c, 4 * c.rounds - s.places[MAIN].passed) + PlacesWork(s.places) + HandWork(c, s) + BusyWork(s)
  }

  /** Every step that is not free uses some of it up, and the competitor's free steps use up nothing. */
  lemma StepShrinks(c: Config, s: State, a: Action)
    requires ValidConfig(c) && Inv(c, s) && Enabled(c, s, a) && !(a.Foreground? && a.inner.Interrupt?)
    ensures Inv(c, Step(c, s, a)) && Left(c, Step(c, s, a)) + (if Free(s, a) then 0 else 1) <= Left(c, s)
  {
    StepKeepsInv(c, s, a);
    match a
    case Foreground(inner) => ForegroundShrinks(c, s, inner);
    case Release(_) => ReleaseShrinks(c, s, a);
    case Compete => CompeteShrinks(c, s);
    case Arrive(who) => ArriveShrinks(c, s, who);
    case _ => ActShrinks(c, s, a);
  }

  lemma ActShrinks(c: Config, s: State, a: Action)
    requires ValidConfig(c) && Inv(c, s) && Enabled(c, s, a)
    requires a.ResetTurn? || a.ResetPhase? || a.InitStats? || a.Report?
    ensures Left(c, Step(c, s, a)) < Left(c, s)
  {
    if a.InitStats? {
      assert Prepared(s, a.worker);
    }
  }

  lemma ArriveShrinks(c: Config, s: State, who: nat)
    requires ValidConfig(c) && Inv(c, s) && Enabled(c, s, Arrive(who))
    ensures Left(c, Step(c, s, Arrive(who))) < Left(c, s)
  {
  }

  lemma CompeteShrinks(c: Config, s: State)
    requires ValidConfig(c) && Inv(c, s) && Enabled(c, s, Compete)
    ensures Left(c, Step(c, s, Compete)) + (if s.hand.phase == 2 then 1 else 0) <= Left(c, s)
  {
  }

  lemma ForegroundShrinks(c: Config, s: State, inner: Handoff.Action)
    requires ValidConfig(c) && Inv(c, s) && Enabled(c, s, Foreground(inner)) && inner.Run?
    requires Inv(c, Step(c, s, Foreground(inner)))
    ensures Left(c, Step(c, s, Foreground(inner))) < Left(c, s)
  {
    Handoff.StepDecreases(c.options, s.hand, inner.index);
    PhaseGrows(c.options, s.hand, inner);
  }

  lemma ReleaseShrinks(c: Config, s: State, a: Action)
    requires ValidConfig(c) && Inv(c, s) && a.Release? && Enabled(c, s, a) && Inv(c, Step(c, s, a))
    ensures Left(c, Step(c, s, a)) < Left(c, s)
  {
    var n, s' := s.places[MAIN].passed, Step(c, s, a);
    assert PlacesWork(s'.places) <= 12;
    if n % 4 == 0 {
      assert Prepared(s, 1) && Prepared(s, 2);
      assert s'.hand == Handoff.Initial();
    }
    assert HandWork(c, s') <= 40 * c.options.ops + 42;
    OneFewer(c, 4 * c.rounds - n);
  }

  lemma OneFewer(c: Config, n: nat)
    requires n > 0
    ensures Segments(c, n - 1) + Segment(c) == Segments(c, n)
  {
  }

  /** A run with its actions, none of them a signal. */
  ghost predicate IsQuietRun(c: Config, run: seq<State>, acts: seq<Action>, hand: Handoff.State, busy: Busy) {
    && |run| == |acts| + 1 && run[0] == Initial(c, hand, busy)
    && forall i :: 0 <= i < |acts| ==> QuietNext(c, run[i], acts[i], run[i + 1])
  }

  ghost predicate QuietNext(c: Config, s: State, a: Action, s': State) {
    Enabled(c, s, a) && !(a.Foreground? && a.inner.Interrupt?) && s' == Step(c, s, a)
  }

  /** The steps among the first n that are not free. */
  function Counted(run: seq<State>, acts: seq<Action>, n: nat): nat
    requires n <= |acts| < |run|
  {
    if n == 0 then 0 else Counted(run, acts, n - 1) + if Free(run[n - 1], acts[n - 1]) then 0 else 1
  }

  lemma {:induction false} QuietRunsShrink(c: Config, run: seq<State>, acts: seq<Action>, hand: Handoff.State,
                                           busy: Busy, n: nat)
    requires ValidConfig(c) && IsQuietRun(c, run, acts, hand, busy) && n <= |acts|
    ensures Inv(c, run[n]) && Left(c, run[n]) + Counted(run, acts, n) <= Segments(c, 4 * c.rounds) + 12
  {
    if n == 0 {
      InitialInv(c, hand, busy);
    } else {
      QuietRunsShrink(c, run, acts, hand, busy, n - 1);
      assert QuietNext(c, run[n - 1], acts[n - 1], run[n]);
      StepShrinks(c, run[n - 1], acts[n - 1]);
    }
  }

  /** Nothing can happen but free steps. */
  ghost predicate Halted(c: Config, s: State) {
    forall a :: Enabled(c, s, a) ==> Free(s, a)
  }

  /** Without signals all the rounds together take a bounded number of steps, not counting what the competitor does
      while a handoff goes on; and a run in which nothing else can happen has finished them, with a passing report for
      each. */
  lemma AllRoundsComplete(c: Config, run: seq<State>, acts: seq<Action>, hand: Handoff.State, busy: Busy)
    requires ValidConfig(c) && IsQuietRun(c, run, acts, hand, busy)
    ensures Counted(run, acts, |acts|) <= 4 * c.rounds * (40 * c.options.ops + 58) + 12
    ensures var last := run[|acts|];
      Halted(c, last) ==> |last.places| > 0 && Finished(c, last) && last.verdicts == seq(c.rounds, _ => true)
  {
    var last := run[|acts|];
    QuietRunsShrink(c, run, acts, hand, busy, |acts|);
    if Halted(c, last) && !Finished(c, last) {
      var a := AlwaysProgress(c, last);
      assert false;
    }
  }
}
