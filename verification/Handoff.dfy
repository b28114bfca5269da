/** The two-thread futex handoff of weighted_payload.c, one atomic action per step. */
module Handoff {
  import opened Words
  import Lcg

  /** Where a foreground thread stands. Waiting(v) has loaded v and is about to call FUTEX_WAIT with
      it; Working has seen its turn; Storing has finished compute; Waking is between its turn store
      and its FUTEX_WAKE; Counting is about to do completed++. */
  datatype Pc =
    | StorePhase
    | StoreTurn
    | Load
    | Waiting(value: nat)
    | Parked
    | Working
    | Storing
    | Waking
    | Counting
    | Finishing
    | Done

  datatype Thread = Thread(
    pc: Pc,
    completed: nat,
    waits: nat,
    wakes: nat,
    woken: nat,
    eagain: nat,
    eintr: nat,
    checksum: u64)

  datatype Options = Options(ops: nat, work: nat)

  /** What number() accepts for --ops and --work-iterations. */
  predicate ValidOptions(o: Options) {
    1 <= o.ops <= 10_000_000 && o.work <= 1_000_000
  }

  datatype State = State(turn: nat, phase: nat, ping: Thread, pong: Thread) {
    function Get(index: nat): Thread
      requires index < 2
    {
      if index == 0 then ping else pong
    }

    function Set(index: nat, t: Thread): State
      requires index < 2
    {
      if index == 0 then this.(ping := t) else this.(pong := t)
    }
  }

  function Fresh(index: nat): Thread
    requires index < 2
  {
    Thread(if index == 0 then StorePhase else Load, 0, 0, 0, 0, 0, 0, index + 1)
  }

  /** The state both threads leave the start barrier with. */
  function Initial(): State {
    State(2, 0, Fresh(0), Fresh(1))
  }

  /** What the kernel and the scheduler may do next: let a thread take its next action, or
      interrupt a thread inside FUTEX_WAIT. */
  datatype Action = Run(index: nat) | Interrupt(index: nat)

  predicate Enabled(s: State, a: Action) {
    a.index < 2 &&
    var pc := s.Get(a.index).pc;
    match a
    case Run(_) => !pc.Parked? && !pc.Done?
    case Interrupt(_) => pc.Parked? || pc.Waiting?
  }

  /** One thread's next action. */
  function RunThread(o: Options, s: State, index: nat): State
    requires index < 2 && Enabled(s, Run(index))
  {
    var t := s.Get(index);
    match t.pc
    case StorePhase =>
      s.(phase := 1).Set(index, t.(pc := StoreTurn))
    case StoreTurn =>
      s.(turn := 0).Set(index, t.(pc := Load))
    case Load =>
      if s.turn != index then
        s.Set(index, t.(pc := Waiting(s.turn), waits := t.waits + 1))
      else
        s.Set(index, t.(pc := if t.completed < o.ops then Working else Finishing))
    case Waiting(value) =>
      // FUTEX_WAIT compares the word and parks in one action
      if s.turn == value then
        s.Set(index, t.(pc := Parked))
      else
        s.Set(index, t.(pc := Load, eagain := t.eagain + 1))
    case Working =>
      s.Set(index, t.(pc := Storing, checksum := Lcg.Iterate(t.checksum, o.work)))
    case Storing =>
      s.(turn := 1 - index).Set(index, t.(pc := Waking))
    case Waking =>
      // FUTEX_WAKE of one: the waker itself is running, so only the other thread can be parked
      var other := s.Get(1 - index);
      var hit := other.pc.Parked?;
      var s' := if hit then s.Set(1 - index, other.(pc := Load)) else s;
      s'.Set(index, t.(pc := Counting, wakes := t.wakes + 1, woken := t.woken + if hit then 1 else 0))
    case Counting =>
      var done := t.completed + 1;
      s.Set(index, t.(completed := done, pc := if done < o.ops || index == 0 then Load else Done))
    case Finishing =>
      s.(phase := 2).Set(index, t.(pc := Done))
  }

  function Step(o: Options, s: State, a: Action): State
    requires Enabled(s, a)
  {
    match a
    case Run(index) => RunThread(o, s, index)
    case Interrupt(index) =>
      var t := s.Get(index);
      s.Set(index, t.(pc := Load, eintr := t.eintr + 1))
  }

  /** The turn stores a thread has made; completed lags behind by one until Counting is over. */
  function Stores(t: Thread): nat {
    t.completed + if t.pc.Waking? || t.pc.Counting? then 1 else 0
  }

  predicate InWait(t: Thread) {
    t.pc.Load? || t.pc.Waiting? || t.pc.Parked?
  }

  /** compute is running, or has just finished with the turn not yet passed on. */
  predicate Computing(t: Thread) {
    t.pc.Working? || t.pc.Storing?
  }

  ghost predicate ThreadInv(o: Options, s: State, index: nat)
    requires index < 2
  {
    var t := s.Get(index);
    var other := s.Get(1 - index);
    && t.completed <= o.ops
    && (index == 1 && InWait(t) ==> t.completed < o.ops)
    && (Computing(t) || t.pc.Waking? || t.pc.Counting? ==> t.completed < o.ops)
    && (Computing(t) ==> s.turn == index)
    && (t.pc.Waiting? ==> t.pc.value != index)
    && (t.pc.Parked? && s.turn == index ==> other.pc.Waking?)
    && (t.pc.Done? ==> t.completed == o.ops)
    && (index == 1 ==> !t.pc.Finishing? && !t.pc.StorePhase? && !t.pc.StoreTurn?)
  }

  ghost predicate Control(o: Options, s: State) {
    && s.turn <= 2
    && ThreadInv(o, s, 0) && ThreadInv(o, s, 1)
    && (s.turn == 2 <==> s.ping.pc.StorePhase? || s.ping.pc.StoreTurn?)
    && (s.turn == 2 ==> Stores(s.ping) == 0 && Stores(s.pong) == 0 && InWait(s.pong))
    && (s.turn < 2 ==> Stores(s.ping) == Stores(s.pong) + s.turn)
    && (s.ping.pc.Finishing? || s.ping.pc.Done? ==>
          s.turn == 0 && s.ping.completed == o.ops)
    && s.phase == if s.ping.pc.StorePhase? then 0 else if s.ping.pc.Done? then 2 else 1
  }

  /** The runs of compute a thread has finished. */
  function Computed(t: Thread): nat {
    Stores(t) + if t.pc.Storing? then 1 else 0
  }

  ghost predicate Checksums(o: Options, s: State) {
    && s.ping.checksum == Lcg.Iterate(1, Computed(s.ping) * o.work)
    && s.pong.checksum == Lcg.Iterate(2, Computed(s.pong) * o.work)
  }

  /** One thread's tallies: a FUTEX_WAIT ends by EAGAIN, by EINTR or by the other thread's wake. */
  predicate Books(t: Thread, other: Thread) {
    && t.wakes == t.completed + (if t.pc.Counting? then 1 else 0)
    && t.woken <= t.wakes
    && t.waits == t.eagain + t.eintr + other.woken + (if t.pc.Waiting? || t.pc.Parked? then 1 else 0)
  }

  ghost predicate Inv(o: Options, s: State) {
    Control(o, s) && Checksums(o, s) && Books(s.ping, s.pong) && Books(s.pong, s.ping)
  }

  lemma InitialInv(o: Options)
    requires ValidOptions(o)
    ensures Inv(o, Initial())
  {
    assert Computed(Fresh(0)) == 0 && Computed(Fresh(1)) == 0;
  }

  lemma PingKeepsControl(o: Options, s: State)
    requires Control(o, s) && Enabled(s, Run(0))
    ensures Control(o, Step(o, s, Run(0)))
  {
    match s.ping.pc
    case Storing =>
    case Waking =>
    case Load =>
    case _ =>
  }

  lemma PongKeepsControl(o: Options, s: State)
    requires Control(o, s) && Enabled(s, Run(1))
    ensures Control(o, Step(o, s, Run(1)))
  {
    match s.pong.pc
    case Storing =>
    case Waking =>
    case Load =>
    case _ =>
  }

  lemma InterruptKeepsControl(o: Options, s: State, index: nat)
    requires Control(o, s) && Enabled(s, Interrupt(index))
    ensures Control(o, Step(o, s, Interrupt(index)))
  {
  }

  lemma StepKeepsBooks(o: Options, s: State, a: Action)
    requires Books(s.ping, s.pong) && Books(s.pong, s.ping) && Enabled(s, a)
    ensures var s' := Step(o, s, a); Books(s'.ping, s'.pong) && Books(s'.pong, s'.ping)
  {
    if a.index == 0 {
      match s.ping.pc
      case Waking =>
      case _ =>
    } else {
      match s.pong.pc
      case Waking =>
      case _ =>
    }
  }

  lemma StepKeepsChecksums(o: Options, s: State, a: Action)
    requires Checksums(o, s) && Enabled(s, a)
    ensures Checksums(o, Step(o, s, a))
  {
    var t := s.Get(a.index);
    var s' := Step(o, s, a);
    if a.Run? && t.pc.Working? {
      WorkAdds(a.index, t.completed, o.work);
    } else {
      assert Computed(s'.ping) == Computed(s.ping) && Computed(s'.pong) == Computed(s.pong);
    }
  }

  /** Every action keeps the invariant, interrupts included. */
  lemma StepKeepsInv(o: Options, s: State, a: Action)
    requires Inv(o, s) && Enabled(s, a)
    ensures Inv(o, Step(o, s, a))
  {
    StepKeepsChecksums(o, s, a);
    StepKeepsBooks(o, s, a);
    if a == Run(0) {
      PingKeepsControl(o, s);
    } else if a == Run(1) {
      PongKeepsControl(o, s);
    } else {
      InterruptKeepsControl(o, s, a.index);
    }
  }

  lemma WorkAdds(index: nat, done: nat, work: nat)
    requires index < 2
    ensures Lcg.Iterate(Lcg.Iterate(index + 1, done * work), work) == Lcg.Iterate(index + 1, (done + 1) * work)
  {
    Lcg.IterateAdds(index + 1, done * work, work);
    assert done * work + work == (done + 1) * work;
  }

  // ---- whole rounds ----

  ghost predicate Next(o: Options, s: State, s': State) {
    exists a :: Enabled(s, a) && s' == Step(o, s, a)
  }

  /** A step no signal interferes with. */
  ghost predicate QuietNext(o: Options, s: State, s': State) {
    exists index :: 0 <= index < 2 && Enabled(s, Run(index)) && s' == Step(o, s, Run(index))
  }

  ghost predicate IsRun(o: Options, run: seq<State>) {
    && |run| > 0 && run[0] == Initial()
    && forall i :: 0 < i < |run| ==> Next(o, run[i - 1], run[i])
  }

  ghost predicate IsQuietRun(o: Options, run: seq<State>) {
    && |run| > 0 && run[0] == Initial()
    && forall i :: 0 < i < |run| ==> QuietNext(o, run[i - 1], run[i])
  }

  lemma {:induction false} RunsKeepInv(o: Options, run: seq<State>, i: nat)
    requires ValidOptions(o) && IsRun(o, run) && i < |run|
    ensures Inv(o, run[i])
  {
    if i == 0 {
      InitialInv(o);
    } else {
      RunsKeepInv(o, run, i - 1);
      assert Next(o, run[i - 1], run[i]);
      var a :| Enabled(run[i - 1], a) && run[i] == Step(o, run[i - 1], a);
      StepKeepsInv(o, run[i - 1], a);
    }
  }

  /** In every state of every run the compute sections exclude each other, the turn stores alternate,
      and no wake-up is lost. */
  lemma HandoffSafety(o: Options, run: seq<State>, i: nat)
    requires ValidOptions(o) && IsRun(o, run) && i < |run|
    ensures !(Computing(run[i].ping) && Computing(run[i].pong))
    ensures 0 <= Stores(run[i].ping) - Stores(run[i].pong) <= 1
    ensures !(run[i].ping.pc.Parked? && run[i].pong.pc.Parked?)
    ensures run[i].ping.pc.Parked? && run[i].turn == 0 ==> run[i].pong.pc.Waking?
    ensures run[i].pong.pc.Parked? && run[i].turn == 1 ==> run[i].ping.pc.Waking?
    ensures run[i].ping.waits - run[i].ping.eagain - run[i].ping.eintr - run[i].pong.woken
         == if run[i].ping.pc.Waiting? || run[i].ping.pc.Parked? then 1 else 0
    ensures run[i].pong.waits - run[i].pong.eagain - run[i].pong.eintr - run[i].ping.woken
         == if run[i].pong.pc.Waiting? || run[i].pong.pc.Parked? then 1 else 0
  {
    RunsKeepInv(o, run, i);
  }

  predicate Final(s: State) {
    s.ping.pc.Done? && s.pong.pc.Done?
  }

  /** No thread can move on its own. */
  predicate Stopped(s: State) {
    !Enabled(s, Run(0)) && !Enabled(s, Run(1))
  }

  /** A state in which no thread can move on its own is a finished round. */
  lemma NeverStuck(o: Options, s: State)
    requires ValidOptions(o) && Inv(o, s)
    ensures Final(s) <==> Stopped(s)
  {
  }

  /** What a thread may still do, counted so that a handoff pays for the retries it can cause. */
  function Rank(pc: Pc, turn: nat): nat {
    match pc
    case StorePhase => 30
    case StoreTurn => 25
    case Waiting(value) => if value == turn then 11 else 13
    case Load => 12
    case Parked => 10
    case Working => 9
    case Finishing => 9
    case Storing => 8
    case Waking => 4
    case Counting => 1
    case Done => 0
  }

  function Measure(o: Options, s: State): nat
    requires s.ping.completed <= o.ops && s.pong.completed <= o.ops
  {
    20 * (2 * o.ops - s.ping.completed - s.pong.completed) + Rank(s.ping.pc, s.turn) + Rank(s.pong.pc, s.turn)
  }

  lemma PingDecreases(o: Options, s: State)
    requires Control(o, s) && Enabled(s, Run(0))
    ensures Control(o, Step(o, s, Run(0))) && Measure(o, Step(o, s, Run(0))) < Measure(o, s)
  {
    PingKeepsControl(o, s);
    match s.ping.pc
    case Load =>
    case Storing =>
    case Waking =>
    case Counting =>
    case _ =>
  }

  lemma PongDecreases(o: Options, s: State)
    requires Control(o, s) && Enabled(s, Run(1))
    ensures Control(o, Step(o, s, Run(1))) && Measure(o, Step(o, s, Run(1))) < Measure(o, s)
  {
    PongKeepsControl(o, s);
    match s.pong.pc
    case Load =>
    case Storing =>
    case Waking =>
    case Counting =>
    case _ =>
  }

  /** Every step decreases the measure: an EAGAIN, or a retry after a stale wake, included. */
  lemma StepDecreases(o: Options, s: State, index: nat)
    requires Control(o, s) && Enabled(s, Run(index))
    ensures Control(o, Step(o, s, Run(index)))
    ensures Measure(o, Step(o, s, Run(index))) < Measure(o, s)
  {
    if index == 0 {
      PingDecreases(o, s);
    } else {
      PongDecreases(o, s);
    }
  }

  lemma {:induction false} QuietRunsAreRuns(o: Options, run: seq<State>)
    requires IsQuietRun(o, run)
    ensures IsRun(o, run)
  {
    forall i | 0 < i < |run| ensures Next(o, run[i - 1], run[i]) {
      assert QuietNext(o, run[i - 1], run[i]);
      var index :| 0 <= index < 2 && Enabled(run[i - 1], Run(index)) && run[i] == Step(o, run[i - 1], Run(index));
      assert Enabled(run[i - 1], Run(index)) && run[i] == Step(o, run[i - 1], Run(index));
    }
  }

  lemma QuietStepDecreases(o: Options, s: State, t: State)
    requires Control(o, s) && QuietNext(o, s, t)
    ensures Control(o, t) && Measure(o, t) < Measure(o, s)
  {
    var index :| 0 <= index < 2 && Enabled(s, Run(index)) && t == Step(o, s, Run(index));
    StepDecreases(o, s, index);
  }

  lemma {:induction false} QuietRunsShrink(o: Options, run: seq<State>, i: nat)
    requires ValidOptions(o) && IsQuietRun(o, run) && i < |run|
    ensures Control(o, run[i]) && Measure(o, run[i]) + i <= Measure(o, Initial())
  {
    if i == 0 {
      InitialInv(o);
    } else {
      QuietRunsShrink(o, run, i - 1);
      assert QuietNext(o, run[i - 1], run[i]);
      QuietStepDecreases(o, run[i - 1], run[i]);
    }
  }

  /** The protocol tests of report. */
  predicate Protocol(o: Options, s: State) {
    && s.turn == 0 && s.phase == 2
    && s.ping.completed == o.ops && s.pong.completed == o.ops
    && s.ping.wakes == o.ops && s.pong.wakes == o.ops
  }

  /** What report demands of the two foreground threads, clocks left aside. */
  ghost predicate ReportPasses(o: Options, s: State) {
    && Protocol(o, s)
    && s.ping.checksum == Lcg.Iterate(1, o.ops * o.work)
    && s.pong.checksum == Lcg.Iterate(2, o.ops * o.work)
  }

  lemma ProductBound(a: nat, b: nat)
    requires a <= 10_000_000 && b <= 1_000_000
    ensures a * b <= 10_000_000 * 1_000_000
  {
    Monotone(a, 10_000_000, b);
    Monotone(b, 1_000_000, 10_000_000);
  }

  lemma Monotone(x: nat, y: nat, z: nat)
    requires x <= y
    ensures x * z <= y * z && z * x <= z * y
  {
    var d := y - x;
    assert y * z == x * z + d * z;
  }

  /** Every round passes report, however its two threads were interleaved and interrupted. */
  lemma FinalStatePasses(o: Options, s: State)
    requires ValidOptions(o) && Inv(o, s) && Final(s)
    ensures ReportPasses(o, s)
  {
  }

  /** Without interrupts a round takes a bounded number of steps, and one that cannot go on passes report. */
  lemma RoundsComplete(o: Options, run: seq<State>)
    requires ValidOptions(o) && IsQuietRun(o, run)
    ensures |run| <= 40 * o.ops + 43
    ensures Stopped(run[|run| - 1]) ==> ReportPasses(o, run[|run| - 1])
  {
    var last := run[|run| - 1];
    QuietRunsShrink(o, run, |run| - 1);
    QuietRunsAreRuns(o, run);
    RunsKeepInv(o, run, |run| - 1);
    if Stopped(last) {
      NeverStuck(o, last);
      FinalStatePasses(o, last);
    }
  }
}
