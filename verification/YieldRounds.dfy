/** The two-thread yield rounds of sched_fair_control_v2_bench.c: run_yield_dual and its peer, kept in step by four
    generation counters. */
module YieldRounds {
  datatype MainPc = AwaitReady | Go | MainYield | AwaitPeer | Read
  datatype PeerPc = Announce | AwaitGo | PeerYield | PeerDone | AwaitMain

  /** i counts the yields of the round, errors those that failed. */
  datatype Main = Main(pc: MainPc, round: nat, i: nat, errors: nat, previous: nat, rows: seq<nat>)
  datatype Peer = Peer(pc: PeerPc, round: nat, i: nat, errors: nat)

  /** The shared generations and error total, and, for the record, each thread's errors by round. */
  datatype State = State(m: Main, p: Peer, ready: nat, go: nat, mainDone: nat, peerDone: nat, total: nat,
                         mainErrors: seq<nat>, peerErrors: seq<nat>)

  datatype Options = Options(rounds: nat, ops: nat)

  /** Either thread takes one step; failed tells how a yield went. */
  datatype Action = StepMain(failed: bool) | StepPeer(failed: bool)

  function Initial(): State {
    State(Main(AwaitReady, 1, 0, 0, 0, []), Peer(Announce, 1, 0, 0), 0, 0, 0, 0, 0, [], [])
  }

  predicate MainEnabled(s: State, o: Options) {
    && s.m.round <= o.rounds
    && (s.m.pc.AwaitReady? ==> s.ready >= s.m.round) && (s.m.pc.AwaitPeer? ==> s.peerDone >= s.m.round)
  }

  predicate PeerEnabled(s: State, o: Options) {
    && s.p.round <= o.rounds
    && (s.p.pc.AwaitGo? ==> s.go >= s.p.round) && (s.p.pc.AwaitMain? ==> s.mainDone >= s.p.round)
  }

  predicate Enabled(s: State, a: Action, o: Options) {
    if a.StepMain? then MainEnabled(s, o) else PeerEnabled(s, o)
  }

  function MainStep(s: State, failed: bool, o: Options): State
    requires MainEnabled(s, o)
  {
    var m := s.m;
    match m.pc
    case AwaitReady => s.(m := m.(pc := Go))
    case Go => s.(go := m.round, m := m.(pc := MainYield, i := 0, errors := 0))
    case MainYield =>
      if m.i < o.ops then s.(m := m.(i := m.i + 1, errors := m.errors + if failed then 1 else 0))
      else s.(mainDone := m.round, mainErrors := s.mainErrors + [m.errors], m := m.(pc := AwaitPeer))
    case AwaitPeer => s.(m := m.(pc := Read))
    case Read =>
      var extra := if s.total >= m.previous then s.total - m.previous else 0;
      s.(m := m.(pc := AwaitReady, round := m.round + 1, previous := s.total, rows := m.rows + [m.errors + extra]))
  }

  function PeerStep(s: State, failed: bool, o: Options): State
    requires PeerEnabled(s, o)
  {
    var p := s.p;
    match p.pc
    case Announce => s.(ready := p.round, p := p.(pc := AwaitGo, i := 0, errors := 0))
    case AwaitGo => s.(p := p.(pc := PeerYield))
    case PeerYield =>
      if p.i < o.ops then s.(p := p.(i := p.i + 1, errors := p.errors + if failed then 1 else 0))
      else s.(total := s.total + p.errors, peerErrors := s.peerErrors + [p.errors], p := p.(pc := PeerDone))
    case PeerDone => s.(peerDone := p.round, p := p.(pc := AwaitMain))
    case AwaitMain => s.(p := p.(pc := Announce, round := p.round + 1))
  }

  function Step(s: State, a: Action, o: Options): State
    requires Enabled(s, a, o)
  {
    if a.StepMain? then MainStep(s, a.failed, o) else PeerStep(s, a.failed, o)
  }

  /** Each generation tells how far its thread has come. */
  predicate Counters(s: State) {
    && s.m.round >= 1 && s.p.round >= 1
    && s.go == (if s.m.pc.AwaitReady? || s.m.pc.Go? then s.m.round - 1 else s.m.round)
    && s.mainDone == (if s.m.pc.AwaitPeer? || s.m.pc.Read? then s.m.round else s.m.round - 1)
    && s.ready == (if s.p.pc.Announce? then s.p.round - 1 else s.p.round)
    && s.peerDone == (if s.p.pc.AwaitMain? then s.p.round else s.p.round - 1)
  }

  /** No thread is past a wait that the other has not satisfied. */
  predicate InOrder(s: State, o: Options) {
    && (!s.m.pc.AwaitReady? ==> s.ready >= s.m.round) && (s.m.pc.Read? ==> s.peerDone >= s.m.round)
    && (s.p.pc.PeerYield? || s.p.pc.PeerDone? || s.p.pc.AwaitMain? ==> s.go >= s.p.round)
    && s.peerDone >= s.m.round - 1 && s.mainDone >= s.p.round - 1
    && s.m.i <= o.ops && s.p.i <= o.ops && (s.p.pc.AwaitGo? ==> s.p.i == 0)
    && s.m.round <= o.rounds + 1 && s.p.round <= o.rounds + 1
    && (s.m.round > o.rounds ==> s.m.pc.AwaitReady?) && (s.p.round > o.rounds ==> s.p.pc.Announce?)
  }

  /** Every finished row holds that round's errors of both threads, and nothing of any other round. */
  predicate Books(s: State)
    requires s.m.round >= 1
  {
    var done := s.m.round - 1;
    && |s.mainErrors| == s.mainDone && |s.peerErrors| == (if s.p.pc.PeerDone? then s.peerDone + 1 else s.peerDone)
    && done <= |s.peerErrors| <= done + 1 && |s.mainErrors| >= done && |s.m.rows| == done
    && s.total == s.m.previous + (if |s.peerErrors| > done then s.peerErrors[done] else 0)
    && (s.m.pc.AwaitPeer? || s.m.pc.Read? ==> |s.mainErrors| > done && s.m.errors == s.mainErrors[done])
    && forall k :: 0 <= k < done ==> s.m.rows[k] == s.mainErrors[k] + s.peerErrors[k]
  }

  predicate Inv(s: State, o: Options) {
    Counters(s) && InOrder(s, o) && Books(s)
  }

  lemma InitialInv(o: Options)
    ensures Inv(Initial(), o)
  {
  }

  lemma MainKeepsOrder(s: State, failed: bool, o: Options)
    requires Counters(s) && InOrder(s, o) && MainEnabled(s, o)
    ensures Counters(MainStep(s, failed, o)) && InOrder(MainStep(s, failed, o), o)
  {
  }

  lemma PeerKeepsOrder(s: State, failed: bool, o: Options)
    requires Counters(s) && InOrder(s, o) && PeerEnabled(s, o)
    ensures Counters(PeerStep(s, failed, o)) && InOrder(PeerStep(s, failed, o), o)
  {
  }

  /** When main reads the total, the peer has added exactly the rounds up to this one. */
  lemma ReadKeepsBooks(s: State, o: Options)
    requires Inv(s, o) && MainEnabled(s, o) && s.m.pc.Read?
    ensures Books(MainStep(s, false, o)) && MainStep(s, true, o) == MainStep(s, false, o)
  {
    assert |s.peerErrors| == s.m.round;
  }

  lemma MainKeepsBooks(s: State, failed: bool, o: Options)
    requires Inv(s, o) && MainEnabled(s, o) && !s.m.pc.Read?
    ensures Books(MainStep(s, failed, o))
  {
    var done := s.m.round - 1;
    var more := s.mainErrors + [s.m.errors];
    assert forall k :: 0 <= k < done ==> more[k] == s.mainErrors[k];
  }

  lemma PeerKeepsBooks(s: State, failed: bool, o: Options)
    requires Inv(s, o) && PeerEnabled(s, o)
    ensures Books(PeerStep(s, failed, o))
  {
    var done := s.m.round - 1;
    var more := s.peerErrors + [s.p.errors];
    assert forall k :: 0 <= k < done ==> more[k] == s.peerErrors[k];
  }

  lemma StepKeepsInv(s: State, a: Action, o: Options)
    requires Inv(s, o) && Enabled(s, a, o)
    ensures Inv(Step(s, a, o), o)
  {
    if a.StepMain? {
      MainKeepsOrder(s, a.failed, o);
      if s.m.pc.Read? {
        ReadKeepsBooks(s, o);
      } else {
        MainKeepsBooks(s, a.failed, o);
      }
    } else {
      PeerKeepsOrder(s, a.failed, o);
      PeerKeepsBooks(s, a.failed, o);
    }
  }

  /** A run from the start: every action enabled where it is taken. */
  function Run(acts: seq<Action>, n: nat, o: Options): State
    requires n <= |acts|
  {
    if n == 0 then Initial() else
      var s := Run(acts, n - 1, o);
      if Enabled(s, acts[n - 1], o) then Step(s, acts[n - 1], o) else s
  }

  lemma {:induction false} RunsKeepInv(acts: seq<Action>, n: nat, o: Options)
    requires n <= |acts|
    ensures Inv(Run(acts, n, o), o)
  {
    if n == 0 {
      InitialInv(o);
    } else {
      RunsKeepInv(acts, n - 1, o);
      var s, a := Run(acts, n - 1, o), acts[n - 1];
      if Enabled(s, a, o) {
        StepKeepsInv(s, a, o);
      }
    }
  }

  /** Whatever the interleaving, the threads are never more than one round apart, and each row's error count is that
      round's errors of main and peer together. */
  lemma RowsAreExact(acts: seq<Action>, o: Options)
    ensures var s := Run(acts, |acts|, o);
      && -1 <= s.m.round - s.p.round <= 1
      && |s.m.rows| == s.m.round - 1 <= |s.mainErrors| && |s.m.rows| <= |s.peerErrors|
      && forall k :: 0 <= k < |s.m.rows| ==> s.m.rows[k] == s.mainErrors[k] + s.peerErrors[k]
  {
    RunsKeepInv(acts, |acts|, o);
  }

  predicate Finished(s: State, o: Options) {
    s.m.round > o.rounds && s.p.round > o.rounds
  }

  /** No interleaving gets stuck before both threads have finished. */
  lemma NeverStuck(acts: seq<Action>, o: Options)
    ensures var s := Run(acts, |acts|, o); Finished(s, o) || MainEnabled(s, o) || PeerEnabled(s, o)
  {
    RunsKeepInv(acts, |acts|, o);
  }

  /** How much of a round each program counter leaves to do, and how much of the run is left. */
  function MainLeft(m: Main, o: Options): int {
    match m.pc
    case AwaitReady => o.ops + 5
    case Go => o.ops + 4
    case MainYield => 3 + o.ops - m.i
    case AwaitPeer => 2
    case Read => 1
  }

  function PeerLeft(p: Peer, o: Options): int {
    match p.pc
    case Announce => o.ops + 5
    case AwaitGo => o.ops + 4
    case PeerYield => 3 + o.ops - p.i
    case PeerDone => 2
    case AwaitMain => 1
  }

  function Left(s: State, o: Options): int {
    Whole(o.rounds - s.m.round, o) + MainLeft(s.m, o) + Whole(o.rounds - s.p.round, o) + PeerLeft(s.p, o)
  }

  /** The steps in n whole rounds of one thread. */
  function Whole(n: int, o: Options): int {
    n * (o.ops + 5)
  }

  lemma NextRound(rounds: int, round: int, o: Options)
    ensures Whole(rounds - (round + 1), o) == Whole(rounds - round, o) - (o.ops + 5)
  {
    assert (rounds - round - 1) * (o.ops + 5) == (rounds - round) * (o.ops + 5) - (o.ops + 5);
  }

  /** Every step brings the end one step nearer, whoever takes it: both threads finish, after a number of steps that
      does not depend on the interleaving. */
  lemma StepsCountDown(s: State, a: Action, o: Options)
    requires Inv(s, o) && Enabled(s, a, o)
    ensures Left(Step(s, a, o), o) == Left(s, o) - 1
  {
    NextRound(o.rounds, s.m.round, o);
    NextRound(o.rounds, s.p.round, o);
  }

  /** A run in which every action was enabled when it was taken. */
  ghost predicate Proper(acts: seq<Action>, o: Options) {
    forall n :: 0 <= n < |acts| ==> Enabled(Run(acts, n, o), acts[n], o)
  }

  lemma {:induction false} LeftAfter(acts: seq<Action>, n: nat, o: Options)
    requires n <= |acts| && Proper(acts, o)
    ensures Left(Run(acts, n, o), o) == Left(Initial(), o) - n
  {
    if n != 0 {
      var m := n - 1;
      LeftAfter(acts, m, o);
      RunsKeepInv(acts, m, o);
      assert Enabled(Run(acts, m, o), acts[m], o);
      StepsCountDown(Run(acts, m, o), acts[m], o);
    }
  }

  lemma StoppedState(s: State, o: Options)
    requires Inv(s, o) && !MainEnabled(s, o) && !PeerEnabled(s, o)
    ensures Left(s, o) == 0 && |s.m.rows| == o.rounds
  {
    assert s.m.round == o.rounds + 1 && s.p.round == o.rounds + 1;
    assert Whole(-1, o) == -(o.ops + 5);
  }

  lemma LeftAtStart(s: State, o: Options)
    requires s == Initial()
    ensures Left(s, o) == 2 * Whole(o.rounds, o)
  {
    NextRound(o.rounds, 0, o);
  }

  /** So every run that goes on until nothing is enabled has the same length and a full set of rows. */
  lemma EveryRunFinishes(acts: seq<Action>, o: Options)
    requires Proper(acts, o)
    requires var s := Run(acts, |acts|, o); !MainEnabled(s, o) && !PeerEnabled(s, o)
    ensures |acts| == 2 * Whole(o.rounds, o) && |Run(acts, |acts|, o).m.rows| == o.rounds
  {
    var n := |acts|;
    LeftAfter(acts, n, o);
    RunsKeepInv(acts, n, o);
    StoppedState(Run(acts, n, o), o);
    LeftAtStart(Initial(), o);
  }
}
