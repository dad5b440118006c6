/** Both tasks may spin for as long as the scheduler likes, so termination rests on fairness: at
    any moment one named task makes progress whenever it runs, and the spinning of the other
    never undoes that progress. */
module PingPongLiveness {
  import opened Futex
  import opened PingPong
  import opened PingPongSafety
  import opened PingPongTrace
  import opened Progress

  function Sleeps(side: Side): bool { side.pc == Blocked }

  /** The task whose next step brings the run closer to its end. */
  function Helpful(s: State): Task {
    match s.main.pc
    case Done => Child
    case TryWake | WakeRetry => if Sleeps(s.child) then Main else Child
    case Yield | TryWait | WaitRetry => if s.child.pc in {Dequeued, Store} then Child else Main
    case Blocked => Child
    case _ => Main
  }

  /** Steps before the child sleeps. */
  function ToSleep(pc: Pc): nat {
    match pc
    case Init => 5 case Head => 4 case Yield => 3 case WaitRetry => 2 case _ => 1
  }

  /** Useful steps left in the round main has not completed. */
  function Local(s: State): nat {
    match s.main.pc
    case Init => 17
    case Head => 16
    case Store => 15
    case TryWake | WakeRetry =>
      if Sleeps(s.child) then 7 + (if s.main.pc == TryWake then 1 else 2)
      else 9 + ToSleep(s.child.pc)
    case Yield | TryWait | WaitRetry =>
      (match s.child.pc
       case Dequeued => 7
       case Store => 6
       case _ => 2 + ToSleep(s.main.pc))
    case Blocked =>
      (match s.child.pc
       case Dequeued => 7
       case Store => 6
       case TryWake => 1
       case _ => 2)
    case _ => 0
  }

  /** Useful steps left in the whole run. */
  function Rank(n: nat, s: State): nat {
    if s.main.round < n then 17 * (n - s.main.round - 1) + Local(s) + 4
    else
      match s.main.pc
      case Init => 4
      case Done => (match s.child.pc case Init => 2 case Head => 1 case _ => 0)
      case _ => 3
  }

  function Interrupted(s: State): nat { s.main.interrupts + s.child.interrupts }

  lemma RankAtEnds(n: nat, p: Program, s: State)
    ensures Rank(n, Start(p)) == 17 * n + 4
    ensures Inv(n, s) ==> (Rank(n, s) == 0 <==> s.Finished())
  {
  }

  /** The helpful task makes progress... */
  lemma HelpfulStepDescends(n: nat, s: State)
    requires Inv(n, s) && !s.Finished()
    ensures Rank(n, RunTask(n, s, Helpful(s))) < Rank(n, s)
  {
  }

  /** ...and the other task cannot undo it, nor take over without progress. */
  lemma MainStepHarmless(n: nat, s: State)
    requires Inv(n, s)
    ensures var s' := RunTask(n, s, Main);
            Rank(n, s') < Rank(n, s) || (Rank(n, s') == Rank(n, s) && Helpful(s') == Helpful(s))
  {
  }

  lemma ChildStepHarmless(n: nat, s: State)
    requires Inv(n, s)
    ensures var s' := RunTask(n, s, Child);
            Rank(n, s') < Rank(n, s) || (Rank(n, s') == Rank(n, s) && Helpful(s') == Helpful(s))
  {
  }

  /** A signal costs at most three useful steps. */
  lemma InterruptCost(n: nat, s: State, t: Task)
    requires Inv(n, s) && s.Get(t).pc == Blocked
    ensures var s' := Step(n, s, Interrupt(t));
            Rank(n, s') <= Rank(n, s) + 3 && Interrupted(s') == Interrupted(s) + 1
  {
  }

  lemma RunInterruptsNobody(n: nat, s: State, t: Task)
    requires Inv(n, s)
    ensures Interrupted(RunTask(n, s, t)) == Interrupted(s)
  {
  }

  /** What is left, when `budget` sleeps are still to be interrupted or were already. */
  function Potential(n: nat, s: State, budget: nat): nat {
    if s.Finished() || budget < Interrupted(s) then 0 else Rank(n, s) + 4 * (budget - Interrupted(s))
  }

  lemma StepDescends(n: nat, s: State, a: Action, budget: nat)
    requires Inv(n, s) && Step(n, s, a).spurious == 0
    requires Interrupted(Step(n, s, a)) <= budget
    ensures Interrupted(s) <= budget
    ensures var s' := Step(n, s, a);
            var before, after := Potential(n, s, budget), Potential(n, s', budget);
            && (after < before || (after == before && Helpful(s') == Helpful(s)) || after == before == 0)
            && (0 < before && a == Run(Helpful(s)) ==> after < before)
  {
    var s' := Step(n, s, a);
    match a
    case Run(t) =>
      RunInterruptsNobody(n, s, t);
      if t == Main { MainStepHarmless(n, s); } else { ChildStepHarmless(n, s); }
      if t == Helpful(s) && !s.Finished() {
        HelpfulStepDescends(n, s);
      }
    case Interrupt(t) => if s.Get(t).pc == Blocked { InterruptCost(n, s, t); }
    case Spurious(t) => assert s' == s;
  }

  /** Every window of `k` actions runs each task that is runnable when the window opens; nothing
      is asked for a task that is asleep or has finished. */
  ghost predicate Fair(n: nat, p: Program, acts: seq<Action>, k: nat) {
    forall i: nat, t :: i + k <= |acts| && At(n, Start(p), acts, i).Get(t).pc !in {Blocked, Done}
                        ==> Offered(acts, i, k, Run(t))
  }

  lemma {:induction false} NoSpuriousAfter(n: nat, s: State, acts: seq<Action>, i: nat, j: nat)
    requires i <= j <= |acts|
    ensures At(n, s, acts, i).spurious <= At(n, s, acts, j).spurious
    decreases j - i
  {
    if i == j {
    } else {
      NoSpuriousAfter(n, s, acts, i, j - 1);
      NoSpuriousBefore(n, At(n, s, acts, j - 1), acts[j-1]);
    }
  }

  lemma NoInterruptUndone(n: nat, s: State, a: Action)
    ensures Interrupted(s) <= Interrupted(Step(n, s, a))
  {
  }

  lemma {:induction false} InterruptsGrow(n: nat, s: State, acts: seq<Action>, i: nat, j: nat)
    requires i <= j <= |acts|
    ensures Interrupted(At(n, s, acts, i)) <= Interrupted(At(n, s, acts, j))
    decreases j - i
  {
    if i == j {
    } else {
      InterruptsGrow(n, s, acts, i, j - 1);
      NoInterruptUndone(n, At(n, s, acts, j - 1), acts[j-1]);
    }
  }

  lemma HelpfulRunnable(n: nat, s: State)
    requires Inv(n, s) && !s.Finished()
    ensures s.Get(Helpful(s)).pc !in {Blocked, Done}
  {
  }

  function Potentials(n: nat, p: Program, acts: seq<Action>, budget: nat): seq<nat> {
    seq(|acts| + 1, i requires 0 <= i <= |acts| => Potential(n, At(n, Start(p), acts, i), budget))
  }

  function HelpfulActions(n: nat, p: Program, acts: seq<Action>): seq<Action> {
    seq(|acts| + 1, i requires 0 <= i <= |acts| => Run(Helpful(At(n, Start(p), acts, i))))
  }

  lemma GoodThroughout(n: nat, p: Program, acts: seq<Action>, i: nat)
    requires i <= |acts| && RunAll(n, p, acts).spurious == 0
    ensures Inv(n, At(n, Start(p), acts, i)) && At(n, Start(p), acts, i).spurious == 0
    ensures Interrupted(At(n, Start(p), acts, i)) <= Interrupted(RunAll(n, p, acts))
  {
    NoSpuriousAfter(n, Start(p), acts, i, |acts|);
    InvOrStuck(n, p, acts, i);
    InterruptsGrow(n, Start(p), acts, i, |acts|);
  }

  lemma StepIsRanked(n: nat, p: Program, acts: seq<Action>, budget: nat, i: nat)
    requires RunAll(n, p, acts).spurious == 0 && budget == Interrupted(RunAll(n, p, acts)) && i < |acts|
    ensures var phi, helpful := Potentials(n, p, acts, budget), HelpfulActions(n, p, acts);
            && (phi[i+1] < phi[i] || (phi[i+1] == phi[i] && helpful[i+1] == helpful[i]) || phi[i] == phi[i+1] == 0)
            && (0 < phi[i] && acts[i] == helpful[i] ==> phi[i+1] < phi[i])
  {
    GoodThroughout(n, p, acts, i);
    GoodThroughout(n, p, acts, i + 1);
    StepDescends(n, At(n, Start(p), acts, i), acts[i], budget);
  }

  lemma RunIsRanked(n: nat, p: Program, acts: seq<Action>, budget: nat, phi: seq<nat>, helpful: seq<Action>)
    requires RunAll(n, p, acts).spurious == 0 && budget == Interrupted(RunAll(n, p, acts))
    requires phi == Potentials(n, p, acts, budget) && helpful == HelpfulActions(n, p, acts)
    ensures Ranked(acts, phi, helpful)
  {
    hide Step, Potential, Helpful;
    forall i | 0 <= i < |acts|
      ensures phi[i+1] < phi[i] || (phi[i+1] == phi[i] && helpful[i+1] == helpful[i]) || phi[i] == phi[i+1] == 0
      ensures 0 < phi[i] && acts[i] == helpful[i] ==> phi[i+1] < phi[i]
    {
      StepIsRanked(n, p, acts, budget, i);
    }
  }

  lemma PotentialAtEnds(n: nat, p: Program, acts: seq<Action>, budget: nat)
    requires RunAll(n, p, acts).spurious == 0 && budget == Interrupted(RunAll(n, p, acts))
    ensures Potentials(n, p, acts, budget)[0] == 17 * n + 4 + 4 * budget
    ensures Potentials(n, p, acts, budget)[|acts|] == 0 ==> RunAll(n, p, acts).Finished()
  {
    RankAtEnds(n, p, RunAll(n, p, acts));
    GoodThroughout(n, p, acts, |acts|);
  }

  lemma HelpfulIsOffered(n: nat, p: Program, acts: seq<Action>, k: nat, budget: nat, i: nat)
    requires Fair(n, p, acts, k) && RunAll(n, p, acts).spurious == 0
    requires i + k <= |acts|
    ensures 0 < Potentials(n, p, acts, budget)[i] ==> Offered(acts, i, k, HelpfulActions(n, p, acts)[i])
  {
    GoodThroughout(n, p, acts, i);
    if 0 < Potentials(n, p, acts, budget)[i] {
      HelpfulRunnable(n, At(n, Start(p), acts, i));
    }
  }

  lemma FairRunFinishes(n: nat, p: Program, acts: seq<Action>, k: nat)
    requires Fair(n, p, acts, k)
    requires RunAll(n, p, acts).spurious == 0
    requires k * (17 * n + 4 + 4 * Interrupted(RunAll(n, p, acts))) <= |acts|
    ensures RunAll(n, p, acts).Finished()
  {
    hide Step, Potential, Helpful, Fair;
    var budget := Interrupted(RunAll(n, p, acts));
    var phi, helpful := Potentials(n, p, acts, budget), HelpfulActions(n, p, acts);
    RunIsRanked(n, p, acts, budget, phi, helpful);
    forall i: nat | i + k <= |acts| && 0 < phi[i] ensures Offered(acts, i, k, helpful[i]) {
      HelpfulIsOffered(n, p, acts, k, budget, i);
    }
    PotentialAtEnds(n, p, acts, budget);
    FairRunsFinish(acts, phi, helpful, k);
  }

  /** The `j`-th action makes a FUTEX_WAIT return 0 that nobody woke. */
  ghost predicate SpuriousAt(n: nat, p: Program, acts: seq<Action>, j: nat)
    requires j < |acts|
  {
    acts[j].Spurious? && At(n, Start(p), acts, j).Get(acts[j].t).pc == Blocked
  }

  lemma OnlySpuriousReturnsCount(n: nat, s: State, a: Action)
    ensures Step(n, s, a).spurious
         == s.spurious + If(a.Spurious? && s.Get(a.t).pc == Blocked)
  {
  }

  lemma OneMoreAction(n: nat, p: Program, acts: seq<Action>, i: nat)
    requires i < |acts|
    ensures At(n, Start(p), acts, i + 1).spurious > 0
       <==> At(n, Start(p), acts, i).spurious > 0 || SpuriousAt(n, p, acts, i)
  {
    hide Step;
    OnlySpuriousReturnsCount(n, At(n, Start(p), acts, i), acts[i]);
  }

  lemma {:induction false} SpuriousIffScheduled(n: nat, p: Program, acts: seq<Action>, i: nat)
    requires i <= |acts|
    ensures At(n, Start(p), acts, i).spurious > 0 <==> exists j :: 0 <= j < i && SpuriousAt(n, p, acts, j)
  {
    hide Step, SpuriousAt;
    if i == 0 {
    } else {
      hide At;
      SpuriousIffScheduled(n, p, acts, i - 1);
      OneMoreAction(n, p, acts, i - 1);
    }
  }

  /** No run, fair or not, finishes once its schedule has made a wait return spuriously. */
  lemma FinishedRunsHadNoSpuriousReturn(n: nat, p: Program, acts: seq<Action>)
    requires RunAll(n, p, acts).Finished()
    ensures !exists j :: 0 <= j < |acts| && SpuriousAt(n, p, acts, j)
  {
    InvOrStuck(n, p, acts, |acts|);
    SpuriousIffScheduled(n, p, acts, |acts|);
  }

  lemma FinishedOrStuck(n: nat, p: Program, acts: seq<Action>)
    ensures RunAll(n, p, acts).spurious > 0 ==> !RunAll(n, p, acts).Finished()
  {
    InvOrStuck(n, p, acts, |acts|);
  }

  /** The main result: a fair run of sufficient length finishes if and only if its schedule never
      makes a FUTEX_WAIT return 0 without a wake.  Waits cut short by signals only cost time. */
  lemma FinishesIffNoSpuriousReturn(n: nat, p: Program, acts: seq<Action>, k: nat)
    requires Fair(n, p, acts, k)
    requires k * (17 * n + 4 + 4 * Interrupted(RunAll(n, p, acts))) <= |acts|
    ensures RunAll(n, p, acts).Finished() <==> !exists j :: 0 <= j < |acts| && SpuriousAt(n, p, acts, j)
  {
    SpuriousIffScheduled(n, p, acts, |acts|);
    if RunAll(n, p, acts).spurious == 0 {
      FairRunFinishes(n, p, acts, k);
    } else {
      FinishedOrStuck(n, p, acts);
    }
  }

  /** A failing schedule: the child falls asleep in its first round and returns spuriously. */
  const SPURIOUS_RUN: seq<Action> := [Run(Main), Run(Child), Run(Child), Run(Child), Spurious(Child)]

  lemma SpuriousRunSticks(n: nat)
    requires 0 < n
    ensures SpuriousAt(n, Threads, SPURIOUS_RUN, 4)
    ensures Stuck(RunAll(n, Threads, SPURIOUS_RUN))
  {
    var s0, acts := Start(Threads), SPURIOUS_RUN;
    var s1 := s0.(word := TURN_CHILD).Goto(Main, Head);
    assert At(n, s0, acts, 1) == s1;
    assert At(n, s0, acts, 2) == s1.Goto(Child, Yield);
    assert At(n, s0, acts, 3) == s1.Goto(Child, TryWait);
    assert At(n, s0, acts, 4) == s1.(queue := [Child], child := s1.child.(pc := Blocked, blocks := 1));
  }

  lemma {:induction false} SamePrefix(n: nat, s: State, acts: seq<Action>, more: seq<Action>, i: nat)
    requires i <= |acts|
    ensures At(n, s, acts + more, i) == At(n, s, acts, i)
  {
    if i == 0 {
    } else {
      SamePrefix(n, s, acts, more, i - 1);
    }
  }

  /** Whatever follows, that run never finishes. */
  lemma SpuriousRunNeverFinishes(n: nat, more: seq<Action>)
    requires 0 < n
    ensures !RunAll(n, Threads, SPURIOUS_RUN + more).Finished()
  {
    SpuriousRunSticks(n);
    SamePrefix(n, Start(Threads), SPURIOUS_RUN, more, 4);
    assert SpuriousAt(n, Threads, SPURIOUS_RUN + more, 4);
    if RunAll(n, Threads, SPURIOUS_RUN + more).Finished() {
      FinishedRunsHadNoSpuriousReturn(n, Threads, SPURIOUS_RUN + more);
      assert false;
    }
  }

  /** What is certain about the state `s` that a schedule leads to. */
  ghost predicate Outcome(n: nat, p: Program, acts: seq<Action>, k: nat, s: State) {
    var spurious := exists j :: 0 <= j < |acts| && SpuriousAt(n, p, acts, j);
    && (!spurious ==> s.trace == Alternating(|s.trace|) && |s.trace| <= 2 * n)
    && (Fair(n, p, acts, k) && k * (17 * n + 4 + 4 * Interrupted(s)) <= |acts| ==>
          (s.Finished() <==> !spurious))
  }

  lemma RunOutcome(n: nat, p: Program, acts: seq<Action>, k: nat)
    ensures Outcome(n, p, acts, k, RunAll(n, p, acts))
  {
    SpuriousIffScheduled(n, p, acts, |acts|);
    if RunAll(n, p, acts).spurious == 0 {
      TraceAlternates(n, p, acts);
    }
    if Fair(n, p, acts, k) && k * (17 * n + 4 + 4 * Interrupted(RunAll(n, p, acts))) <= |acts| {
      FinishesIffNoSpuriousReturn(n, p, acts, k);
    }
  }

  lemma {:induction false} OnlySteps(n: nat, s: State, acts: seq<Action>, i: nat)
    requires i <= |acts| && forall a :: a in acts ==> a.Run?
    ensures At(n, s, acts, i).spurious == s.spurious
    ensures Inv(n, s) ==> Inv(n, At(n, s, acts, i)) && Interrupted(At(n, s, acts, i)) == Interrupted(s)
  {
    if i == 0 {
    } else {
      OnlySteps(n, s, acts, i - 1);
      if Inv(n, s) {
        RunKeepsInv(n, At(n, s, acts, i - 1), acts[i-1].t);
        RunInterruptsNobody(n, At(n, s, acts, i - 1), acts[i-1].t);
      }
    }
  }

  lemma UndisturbedRun(n: nat, p: Program, acts: seq<Action>)
    requires forall a :: a in acts ==> a.Run?
    ensures RunAll(n, p, acts).spurious == 0 && Interrupted(RunAll(n, p, acts)) == 0
  {
    StartInv(n, p);
    OnlySteps(n, Start(p), acts, |acts|);
  }

  lemma BoundSuffices(n: nat, k: nat)
    ensures k * (17 * n + 4 + 4 * 0) <= 17 * k * (n + 1)
  {
    assert 17 * k * (n + 1) == k * (17 * n + 17);
    assert k * (17 * n + 17) == k * (17 * n + 4) + k * 13;
  }

  /** Without signals and spurious returns, 17 * k * (n + 1) actions are enough. */
  lemma BoundedTermination(n: nat, p: Program, acts: seq<Action>, k: nat)
    requires Fair(n, p, acts, k) && forall a :: a in acts ==> a.Run?
    requires 17 * k * (n + 1) <= |acts|
    ensures RunAll(n, p, acts).Finished()
  {
    UndisturbedRun(n, p, acts);
    BoundSuffices(n, k);
    FairRunFinishes(n, p, acts, k);
  }

  /** In particular strict alternation, the schedule of a single core that yields, is fair. */
  lemma RoundRobinFinishes(n: nat, p: Program, acts: seq<Action>)
    requires |acts| == 34 * (n + 1)
    requires forall i :: 0 <= i < |acts| ==> acts[i] == Run(if i % 2 == 0 then Main else Child)
    ensures RunAll(n, p, acts).Finished()
  {
    forall i: nat, t | i + 2 <= |acts| ensures Offered(acts, i, 2, Run(t)) {
      var j := if (i % 2 == 0) == (t == Main) then i else i + 1;
      assert acts[j] == Run(t);
    }
    BoundedTermination(n, p, acts, 2);
  }
}
