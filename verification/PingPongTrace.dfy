/** The hand-off as the reader thinks of it: a token that alternates between two holders.
    Every run of either program is a run of this machine with stuttering. */
module PingPongTrace {
  import opened Futex
  import opened PingPong
  import opened PingPongSafety

  /** The abstract machine: who may wake next, and how many rounds have been handed back. */
  datatype Token = Token(holder: Task, round: nat)

  ghost predicate TokenStep(n: nat, a: Token, b: Token, h: Handoff) {
    && a.round < n
    && h == Handoff(a.holder, Other(a.holder))
    && b == Token(Other(a.holder), if a.holder == Child then a.round + 1 else a.round)
  }

  /** The machine accepts `trace` from its initial state and ends in `end`. */
  ghost predicate Accepts(n: nat, trace: seq<Handoff>, end: Token) {
    if trace == [] then end == Token(Main, 0)
    else
      var last := |trace| - 1;
      exists mid :: Accepts(n, trace[..last], mid) && TokenStep(n, mid, end, trace[last])
  }

  /** The first `k` hand-offs of the abstract protocol: main wakes child, child wakes main, ... */
  function Alternating(k: nat): seq<Handoff> {
    seq(k, i => if i % 2 == 0 then Handoff(Main, Child) else Handoff(Child, Main))
  }

  lemma NextHandoff(rounds: nat)
    ensures Alternating(2 * rounds + 1) == Alternating(2 * rounds) + [Handoff(Main, Child)]
    ensures Alternating(2 * rounds + 2) == Alternating(2 * rounds + 1) + [Handoff(Child, Main)]
  {
  }

  /** The abstract machine has exactly one kind of trace. */
  lemma {:induction false} AcceptedTraces(n: nat, trace: seq<Handoff>, end: Token)
    requires Accepts(n, trace, end)
    ensures trace == Alternating(|trace|)
    ensures |trace| == 2 * end.round + If(end.holder == Child)
    ensures |trace| <= 2 * n
  {
    if trace == [] {
    } else {
      var last := |trace| - 1;
      var mid :| Accepts(n, trace[..last], mid) && TokenStep(n, mid, end, trace[last]);
      AcceptedTraces(n, trace[..last], mid);
      NextHandoff(mid.round);
      assert trace == trace[..last] + [trace[last]];
    }
  }

  function Abstract(s: State): Token {
    Token(if s.child.pc in {Dequeued, Store, TryWake, WakeRetry} then Child else Main, s.child.round)
  }

  /** A concrete step is either invisible, or it appends one hand-off and the abstract machine
      takes the same hand-off. */
  ghost predicate Simulated(n: nat, s: State, s': State) {
    || (s'.trace == s.trace && Abstract(s') == Abstract(s))
    || exists h :: s'.trace == s.trace + [h] && TokenStep(n, Abstract(s), Abstract(s'), h)
  }

  lemma WakeRefines(n: nat, s: State, t: Task)
    requires Inv(n, s) && s.Get(t).pc == TryWake && s.queue != []
    ensures Simulated(n, s, RunTask(n, s, t))
  {
    var s' := RunTask(n, s, t);
    var h := Handoff(t, Other(t));
    assert s.queue == [Other(t)];
    assert s'.trace == s.trace + [h];
    assert TokenStep(n, Abstract(s), Abstract(s'), h);
  }

  lemma StepRefines(n: nat, s: State, a: Action)
    requires Inv(n, s) && Step(n, s, a).spurious == 0
    ensures Simulated(n, s, Step(n, s, a))
  {
    if a.Run? && s.Get(a.t).pc == TryWake && s.queue != [] {
      WakeRefines(n, s, a.t);
    } else {
      assert Step(n, s, a).trace == s.trace;
    }
  }

  lemma SimulationExtends(n: nat, s: State, s': State)
    requires Accepts(n, s.trace, Abstract(s)) && Simulated(n, s, s')
    ensures Accepts(n, s'.trace, Abstract(s'))
  {
    if s'.trace != s.trace || Abstract(s') != Abstract(s) {
      assert s'.trace[..|s'.trace| - 1] == s.trace;
    }
  }

  lemma StepKeepsAccepted(n: nat, s: State, a: Action)
    requires Inv(n, s) && Step(n, s, a).spurious == 0
    requires Accepts(n, s.trace, Abstract(s))
    ensures Accepts(n, Step(n, s, a).trace, Abstract(Step(n, s, a)))
  {
    StepRefines(n, s, a);
    SimulationExtends(n, s, Step(n, s, a));
  }

  lemma NoSpuriousBefore(n: nat, s: State, a: Action)
    ensures s.spurious <= Step(n, s, a).spurious
  {
  }

  /** Refinement over whole runs, for every interleaving, any signals and both start-ups. */
  lemma {:induction false} RunsRefine(n: nat, p: Program, acts: seq<Action>, i: nat)
    requires i <= |acts|
    ensures var s := At(n, Start(p), acts, i); s.spurious == 0 ==> Accepts(n, s.trace, Abstract(s))
  {
    if i == 0 {
    } else {
      RunsRefine(n, p, acts, i - 1);
      InvOrStuck(n, p, acts, i - 1);
      var s := At(n, Start(p), acts, i - 1);
      NoSpuriousBefore(n, s, acts[i-1]);
      if At(n, Start(p), acts, i).spurious == 0 {
        StepKeepsAccepted(n, s, acts[i-1]);
      }
    }
  }

  /** The wakes of any run are a prefix of (main wakes child, child wakes main)^n. */
  lemma TraceAlternates(n: nat, p: Program, acts: seq<Action>)
    requires RunAll(n, p, acts).spurious == 0
    ensures var s := RunAll(n, p, acts);
            s.trace == Alternating(|s.trace|) && |s.trace| <= 2 * n
  {
    RunsRefine(n, p, acts, |acts|);
    var s := RunAll(n, p, acts);
    AcceptedTraces(n, s.trace, Abstract(s));
  }

  // ----- what callers see

  /** In every reachable state at most one task sleeps; a sleeping child waits on 0xA with main
      at or before its wake loop, a sleeping main waits on 0xB with the child in its wake loop. */
  lemma HandoffInvariant(n: nat, p: Program, acts: seq<Action>)
    requires RunAll(n, p, acts).spurious == 0
    ensures var s := RunAll(n, p, acts);
            && |s.queue| <= 1
            && (forall t :: t in s.queue <==> s.Get(t).pc == Blocked)
            && (s.queue == [Child] ==>
                  s.word == 0xA && s.main.round < n && s.main.pc in {Init, Head, Store, TryWake, WakeRetry})
            && (s.queue == [Main] ==> s.word == 0xB && s.child.pc in {TryWake, WakeRetry})
            && s.main.round <= s.child.round <= s.main.round + 1
  {
    InvOrStuck(n, p, acts, |acts|);
    var s := RunAll(n, p, acts);
    forall t ensures t in s.queue <==> s.Get(t).pc == Blocked {
    }
  }

  /** In every reachable state each side's successful wakes equal the other side's returned waits
      plus the one taken off the queue but not yet returned; sleeps balance in the same way. */
  lemma RoundAccounting(n: nat, p: Program, acts: seq<Action>, t: Task)
    requires RunAll(n, p, acts).spurious == 0
    ensures var s := RunAll(n, p, acts);
            var me, peer := s.Get(t), s.Get(Other(t));
            && peer.wakes == me.returned + If(me.pc == Dequeued)
            && me.blocks == me.returned + me.interrupts + If(me.pc == Blocked) + If(me.pc == Dequeued)
            && |s.trace| == me.wakes + peer.wakes
  {
    InvOrStuck(n, p, acts, |acts|);
  }

  /** A FUTEX_WAKE that returns 1 released the other task, and the release is never lost: the
      only way on for that task is to return 0 from its wait. */
  lemma WakeReleasesPeer(n: nat, p: Program, acts: seq<Action>, t: Task)
    requires var s := RunAll(n, p, acts); s.spurious == 0 && s.Get(t).pc == TryWake && s.queue != []
    ensures var s := RunAll(n, p, acts);
            var s' := Step(n, s, Run(t));
            && s.Get(Other(t)).pc == Blocked && s'.Get(Other(t)).pc == Dequeued
            && s'.queue == [] && s'.trace == s.trace + [Handoff(t, Other(t))]
            && Step(n, s', Run(Other(t))).Get(Other(t)).returned == s.Get(Other(t)).returned + 1
            && Step(n, s', Interrupt(Other(t))) == s'
  {
    InvOrStuck(n, p, acts, |acts|);
  }

  /** When main has left its loop, every wake and every wait of the run has happened. */
  lemma MainLeavesLoop(n: nat, p: Program, acts: seq<Action>)
    requires var s := RunAll(n, p, acts); s.spurious == 0 && s.main.pc == Done
    ensures var s := RunAll(n, p, acts);
            && s.main.round == s.child.round == n
            && s.main.wakes == s.child.wakes == n
            && s.main.returned == s.child.returned == n
            && s.main.blocks + s.child.blocks == 2 * n + s.main.interrupts + s.child.interrupts
            && s.trace == Alternating(2 * n)
            && s.queue == []
  {
    InvOrStuck(n, p, acts, |acts|);
    TraceAlternates(n, p, acts);
  }
}
