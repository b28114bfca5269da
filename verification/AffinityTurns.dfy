/** The queued affinity round of sched_fair_control_v2_bench.c: two controllers move a target thread between two
    CPUs, taking turns by a counter. */
module AffinityTurns {
  datatype Cpu = A | B
  datatype Pc = Waiting | Calling | Storing

  /** i is the turn a controller takes next. */
  datatype Controller = Controller(pc: Pc, i: nat)

  datatype Call = Call(target: Cpu, ok: bool)

  /** The turn counter, the target's mask, and the calls made so far. */
  datatype State = State(turn: nat, a: Controller, b: Controller, mask: Cpu, calls: seq<Call>)

  /** Controller A or controller B takes a step; ok tells how a call went. */
  datatype Action = StepA(ok: bool) | StepB(ok: bool)

  function Initial(): State {
    State(0, Controller(Waiting, 0), Controller(Waiting, 1), A, [])
  }

  predicate Able(c: Controller, turn: nat, ops: nat) {
    c.i < ops && (c.pc.Waiting? ==> turn >= c.i)
  }

  predicate Enabled(s: State, act: Action, ops: nat) {
    if act.StepA? then Able(s.a, s.turn, ops) else Able(s.b, s.turn, ops)
  }

  function Called(s: State, call: Call): State {
    s.(calls := s.calls + [call], mask := if call.ok then call.target else s.mask)
  }

  function Step(s: State, act: Action, ops: nat): State
    requires Enabled(s, act, ops)
  {
    match act
    case StepA(ok) =>
      (match s.a.pc
       case Waiting => s.(a := s.a.(pc := Calling))
       case Calling => Called(s, Call(B, ok)).(a := s.a.(pc := Storing))
       case Storing => s.(turn := s.a.i + 1, a := Controller(Waiting, s.a.i + 2)))
    case StepB(ok) =>
      (match s.b.pc
       case Waiting => s.(b := s.b.(pc := Calling))
       case Calling => Called(s, Call(A, ok)).(b := s.b.(pc := Storing))
       case Storing => s.(turn := s.b.i + 1, b := Controller(Waiting, s.b.i + 2)))
  }

  predicate Alternating(calls: seq<Call>) {
    forall k :: 0 <= k < |calls| ==> calls[k].target == if k % 2 == 0 then B else A
  }

  /** The target of the last successful call, or CPU A, where the target starts. */
  function MaskAfter(calls: seq<Call>, n: nat): Cpu
    requires n <= |calls|
  {
    if n == 0 then A else if calls[n - 1].ok then calls[n - 1].target else MaskAfter(calls, n - 1)
  }

  predicate Inv(s: State, ops: nat) {
    && s.turn <= ops
    && s.a.i == s.turn + s.turn % 2 && s.b.i == s.turn + (s.turn + 1) % 2
    && (!s.a.pc.Waiting? ==> s.a.i == s.turn < ops) && (!s.b.pc.Waiting? ==> s.b.i == s.turn < ops)
    && |s.calls| == (if s.a.pc.Storing? || s.b.pc.Storing? then s.turn + 1 else s.turn)
    && Alternating(s.calls) && s.mask == MaskAfter(s.calls, |s.calls|)
  }

  lemma {:induction false} MaskKeeps(calls: seq<Call>, call: Call, n: nat)
    requires n <= |calls|
    ensures MaskAfter(calls + [call], n) == MaskAfter(calls, n)
  {
    if n != 0 {
      MaskKeeps(calls, call, n - 1);
    }
  }

  lemma StepKeepsInv(s: State, act: Action, ops: nat)
    requires Inv(s, ops) && Enabled(s, act, ops)
    ensures Inv(Step(s, act, ops), ops)
  {
    MaskKeeps(s.calls, Call(if act.StepA? then B else A, act.ok), |s.calls|);
  }

  function Run(acts: seq<Action>, n: nat, ops: nat): State
    requires n <= |acts|
  {
    if n == 0 then Initial() else
      var s := Run(acts, n - 1, ops);
      if Enabled(s, acts[n - 1], ops) then Step(s, acts[n - 1], ops) else s
  }

  lemma {:induction false} RunsKeepInv(acts: seq<Action>, n: nat, ops: nat)
    requires n <= |acts|
    ensures Inv(Run(acts, n, ops), ops)
  {
    if n != 0 {
      RunsKeepInv(acts, n - 1, ops);
      if Enabled(Run(acts, n - 1, ops), acts[n - 1], ops) {
        StepKeepsInv(Run(acts, n - 1, ops), acts[n - 1], ops);
      }
    }
  }

  /** In every interleaving the calls alternate, CPU B first; the two controllers are never both between their wait
      and their store; and although a wait only tests that the turn has come, it never lets a turn go by. */
  lemma TurnsAreTaken(acts: seq<Action>, ops: nat)
    ensures var s := Run(acts, |acts|, ops);
      && Alternating(s.calls) && s.mask == MaskAfter(s.calls, |s.calls|) && |s.calls| <= ops
      && (s.a.pc.Waiting? || s.b.pc.Waiting?)
      && (!s.a.pc.Waiting? ==> s.turn == s.a.i) && (!s.b.pc.Waiting? ==> s.turn == s.b.i)
  {
    RunsKeepInv(acts, |acts|, ops);
  }

  /** Until every call has been made, exactly one controller can move; so no run gets stuck. */
  lemma OneCanMove(acts: seq<Action>, ops: nat)
    ensures var s := Run(acts, |acts|, ops);
      && (s.turn < ops ==> (Able(s.a, s.turn, ops) <==> !Able(s.b, s.turn, ops)))
      && (s.turn == ops ==> |s.calls| == ops && !Able(s.a, s.turn, ops) && !Able(s.b, s.turn, ops))
  {
    RunsKeepInv(acts, |acts|, ops);
  }

  /** The index of the last successful call, or -1. */
  function LastSuccess(calls: seq<Call>, n: nat): (k: int)
    requires n <= |calls|
    ensures -1 <= k < n
  {
    if n == 0 then -1 else if calls[n - 1].ok then n - 1 else LastSuccess(calls, n - 1)
  }

  /** The final mask is CPU A exactly when no call succeeded or the last that did was one of controller B's. */
  lemma {:induction false} FinalMask(calls: seq<Call>, n: nat)
    requires n <= |calls| && Alternating(calls)
    ensures MaskAfter(calls, n) == A <==> LastSuccess(calls, n) == -1 || LastSuccess(calls, n) % 2 == 1
  {
    if n != 0 && !calls[n - 1].ok {
      FinalMask(calls, n - 1);
    }
  }

  /** If every call succeeds, the mask the round verifies at the end is CPU A exactly for an even number of
      operations, which is why an odd number is refused. */
  lemma EvenOperationsReturn(acts: seq<Action>, ops: nat)
    requires Run(acts, |acts|, ops).turn == ops
    requires forall k :: 0 <= k < |Run(acts, |acts|, ops).calls| ==> Run(acts, |acts|, ops).calls[k].ok
    ensures Run(acts, |acts|, ops).mask == A <==> ops % 2 == 0
  {
    var s := Run(acts, |acts|, ops);
    TurnsAreTaken(acts, ops);
    OneCanMove(acts, ops);
    AllSucceeded(s.calls);
  }

  lemma AllSucceeded(calls: seq<Call>)
    requires Alternating(calls) && forall k :: 0 <= k < |calls| ==> calls[k].ok
    ensures MaskAfter(calls, |calls|) == A <==> |calls| % 2 == 0
  {
    FinalMask(calls, |calls|);
  }
}
