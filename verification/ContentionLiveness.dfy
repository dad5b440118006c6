/** The benchmark gets through all its iterations: under a fair schedule it ends if and only if
    no operation failed. */
module ContentionLiveness {
  import opened Contention
  import opened ContentionSafety
  import opened Progress

  /** Whom the benchmark is waiting for. */
  function Helpful(s: State): Party {
    if s.pc == MainWaits then Kid(s.i) else MainThread
  }

  function ToArrival(pc: ChildPc): nat {
    match pc
    case Begin => 4 case Prepare => 3 case LoadBarrier => 2 case _ => 1
  }

  /** Useful steps left in the current iteration, beyond those of an iteration that ended. */
  function Local(s: State): nat {
    match s.pc
    case Setup => 12 case Head => 11 case InitBarrier => 10 case SetId => 9 case SetBarrier => 8 case Create => 7
    case MainArrives => 6
    case MainWaits => if s.i < |s.children| then 1 + ToArrival(s.children[s.i].pc) else 1
    case Measure => 1
    case Finished => 0
  }

  function Rank(m: nat, s: State): nat {
    if s.exited || s.pc == Finished then 0
    else if s.i < m then 11 * (m - s.i - 1) + Local(s) + 1
    else if s.pc == Setup then 2
    else 1
  }

  lemma HelpfulDescends(m: nat, s: State)
    requires Inv(m, s) && 0 < Rank(m, s)
    ensures Rank(m, Step(m, s, Run(Helpful(s)))) < Rank(m, s)
  {
    if s.i < m {
      assert ChildOk(s, s.i);
    }
  }

  lemma MainHarmless(m: nat, s: State)
    requires Inv(m, s)
    ensures var s' := Step(m, s, Run(MainThread));
            Rank(m, s') < Rank(m, s) || (Rank(m, s') == Rank(m, s) && Helpful(s') == Helpful(s))
  {
    if 0 < Rank(m, s) && s.pc != MainWaits {
      HelpfulDescends(m, s);
    }
  }

  lemma KidHarmless(m: nat, s: State, k: nat)
    requires Inv(m, s)
    ensures var s' := Step(m, s, Run(Kid(k)));
            Rank(m, s') < Rank(m, s) || (Rank(m, s') == Rank(m, s) && Helpful(s') == Helpful(s))
  {
    if k < m {
      assert ChildOk(s, k);
    }
  }

  lemma StepDescends(m: nat, s: State, a: Action)
    requires Inv(m, s)
    ensures var s' := Step(m, s, a);
            && (Rank(m, s') < Rank(m, s) || (Rank(m, s') == Rank(m, s) && Helpful(s') == Helpful(s)))
            && (0 < Rank(m, s) && a == Run(Helpful(s)) ==> Rank(m, s') < Rank(m, s))
  {
    match a
    case Run(MainThread) =>
      MainHarmless(m, s);
      if 0 < Rank(m, s) && Helpful(s) == MainThread { HelpfulDescends(m, s); }
    case Run(Kid(k)) =>
      KidHarmless(m, s, k);
      if 0 < Rank(m, s) && Helpful(s) == Kid(k) { HelpfulDescends(m, s); }
    case Fail(_) =>
  }

  /** A party that is awake and still has steps to take towards the end of the benchmark. */
  ghost predicate Runnable(s: State, p: Party) {
    match p
    case MainThread => s.pc !in {MainWaits, Finished}
    case Kid(k) => k < |s.children| && s.children[k].pc in {Begin, Prepare, LoadBarrier, ChildArrives}
  }

  /** Every window of `w` actions runs each party that is runnable when the window opened. */
  ghost predicate Fair(m: nat, garbage: Baton, acts: seq<Action>, w: nat) {
    forall i: nat, p :: i + w <= |acts| && Runnable(At(m, Start(m, garbage), acts, i), p)
                        ==> Offered(acts, i, w, Run(p))
  }

  ghost predicate Visits(m: nat, garbage: Baton, acts: seq<Action>, states: seq<State>) {
    && |states| == |acts| + 1
    && forall i :: 0 <= i <= |acts| ==> states[i] == At(m, Start(m, garbage), acts, i)
  }

  lemma StepIsRanked(m: nat, garbage: Baton, acts: seq<Action>, states: seq<State>, i: nat)
    requires Visits(m, garbage, acts, states) && i < |acts|
    ensures var (s, s') := (states[i], states[i+1]);
            && (Rank(m, s') < Rank(m, s) || (Rank(m, s') == Rank(m, s) && Helpful(s') == Helpful(s)))
            && (0 < Rank(m, s) && acts[i] == Run(Helpful(s)) ==> Rank(m, s') < Rank(m, s))
  {
    Reachable(m, garbage, acts, i);
    StepDescends(m, states[i], acts[i]);
    assert states[i+1] == Step(m, states[i], acts[i]);
  }

  lemma HelpfulRunnable(m: nat, s: State)
    requires Inv(m, s) && 0 < Rank(m, s)
    ensures Runnable(s, Helpful(s))
  {
    if s.pc == MainWaits {
      assert ChildOk(s, s.i);
    }
  }

  lemma HelpfulIsOffered(m: nat, garbage: Baton, acts: seq<Action>, states: seq<State>, w: nat, i: nat)
    requires Visits(m, garbage, acts, states) && Fair(m, garbage, acts, w)
    requires i + w <= |acts| && 0 < Rank(m, states[i])
    ensures Offered(acts, i, w, Run(Helpful(states[i])))
  {
    Reachable(m, garbage, acts, i);
    HelpfulRunnable(m, states[i]);
  }

  lemma RankAtEnds(m: nat, garbage: Baton, s: State)
    ensures Rank(m, Start(m, garbage)) == 11 * m + 2
    ensures Inv(m, s) && Rank(m, s) == 0 ==> s.pc == Finished || s.exited
  {
  }

  lemma RankRunsOut(m: nat, garbage: Baton, acts: seq<Action>, states: seq<State>, w: nat)
    requires Visits(m, garbage, acts, states) && Fair(m, garbage, acts, w)
    requires w * Rank(m, states[0]) <= |acts|
    ensures Rank(m, states[|acts|]) == 0
  {
    hide Step, Rank, Helpful;
    var phi := seq(|acts| + 1, i requires 0 <= i <= |acts| => Rank(m, states[i]));
    var helpful := seq(|acts| + 1, i requires 0 <= i <= |acts| => Run(Helpful(states[i])));
    forall i | 0 <= i < |acts|
      ensures phi[i+1] < phi[i] || (phi[i+1] == phi[i] && helpful[i+1] == helpful[i])
      ensures 0 < phi[i] && acts[i] == helpful[i] ==> phi[i+1] < phi[i]
    {
      StepIsRanked(m, garbage, acts, states, i);
    }
    forall i: nat | i + w <= |acts| && 0 < phi[i] ensures Offered(acts, i, w, helpful[i]) {
      HelpfulIsOffered(m, garbage, acts, states, w, i);
    }
    FairRunsFinish(acts, phi, helpful, w);
  }

  /** Long enough fair runs end: finished, or by a failure. */
  lemma FairRunEnds(m: nat, garbage: Baton, acts: seq<Action>, w: nat)
    requires Fair(m, garbage, acts, w) && w * (11 * m + 2) <= |acts|
    ensures var s := RunAll(m, garbage, acts); s.pc == Finished || s.exited
  {
    var states := seq(|acts| + 1, i requires 0 <= i <= |acts| => At(m, Start(m, garbage), acts, i));
    RankAtEnds(m, garbage, states[|acts|]);
    RankRunsOut(m, garbage, acts, states, w);
    Reachable(m, garbage, acts, |acts|);
  }

  /** The `j`-th action lets an operation fail that can. */
  ghost predicate FailsAt(m: nat, garbage: Baton, acts: seq<Action>, j: nat)
    requires j < |acts|
  {
    acts[j].Fail? && Failing(At(m, Start(m, garbage), acts, j), acts[j].p)
  }

  /** Exactly these operations end the process when they fail, wherever the run stands. */
  lemma WhatCanFail(m: nat, s: State, p: Party)
    requires !s.exited
    ensures Step(m, s, Fail(MainThread)).exited <==> s.pc in {Setup, InitBarrier, Create, Measure}
    ensures forall k: nat :: Step(m, s, Fail(Kid(k))).exited
                             <==> k < |s.children| && s.children[k].pc == Prepare
    ensures Step(m, s, Fail(p)).(exited := false) == s
    ensures Step(m, s.(exited := true), Run(p)) == Step(m, s.(exited := true), Fail(p)) == s.(exited := true)
  {
  }

  lemma OnlyFailuresExit(m: nat, s: State, a: Action)
    ensures Step(m, s, a).exited <==> s.exited || (a.Fail? && Failing(s, a.p))
  {
  }

  /** The process exits early exactly if the schedule lets an operation fail. */
  lemma {:induction false} ExitedIffFailed(m: nat, garbage: Baton, acts: seq<Action>, i: nat)
    requires i <= |acts|
    ensures At(m, Start(m, garbage), acts, i).exited <==> exists j :: 0 <= j < i && FailsAt(m, garbage, acts, j)
  {
    if i == 0 {
    } else {
      ExitedIffFailed(m, garbage, acts, i - 1);
      OnlyFailuresExit(m, At(m, Start(m, garbage), acts, i - 1), acts[i-1]);
      assert FailsAt(m, garbage, acts, i - 1)
          <==> acts[i-1].Fail? && Failing(At(m, Start(m, garbage), acts, i - 1), acts[i-1].p);
    }
  }

  /** After the loop nothing is left that could end the process early. */
  lemma FinishedCannotFail(m: nat, s: State, a: Action)
    requires Inv(m, s) && !(s.pc == Finished && s.exited)
    ensures !(Step(m, s, a).pc == Finished && Step(m, s, a).exited)
  {
    OnlyFailuresExit(m, s, a);
    if a.Fail? && a.p.Kid? && a.p.k < m {
      assert ChildOk(s, a.p.k);
    }
  }

  lemma {:induction false} FinishedDidNotFail(m: nat, garbage: Baton, acts: seq<Action>, i: nat)
    requires i <= |acts|
    ensures var s := At(m, Start(m, garbage), acts, i); !(s.pc == Finished && s.exited)
  {
    if i == 0 {
    } else {
      FinishedDidNotFail(m, garbage, acts, i - 1);
      Reachable(m, garbage, acts, i - 1);
      FinishedCannotFail(m, At(m, Start(m, garbage), acts, i - 1), acts[i-1]);
    }
  }

  /** The main result: a fair run of sufficient length reports all `m` measurements if and only
      if its schedule lets no operation fail. */
  lemma AllMeasuredIffNoFailure(m: nat, garbage: Baton, acts: seq<Action>, w: nat)
    requires Fair(m, garbage, acts, w) && w * (11 * m + 2) <= |acts|
    ensures var s := RunAll(m, garbage, acts);
            (s.pc == Finished && s.measures == Counting(m))
            <==> !exists j :: 0 <= j < |acts| && FailsAt(m, garbage, acts, j)
  {
    FairRunEnds(m, garbage, acts, w);
    FinishedDidNotFail(m, garbage, acts, |acts|);
    Reachable(m, garbage, acts, |acts|);
    ExitedIffFailed(m, garbage, acts, |acts|);
  }

  /** A failing schedule: without the rights to drop the caches the very first measurement ends
      the process, with nothing reported, however the run goes on. */
  const NO_RIGHTS: seq<Action> :=
    [Run(MainThread), Run(MainThread), Run(MainThread), Run(MainThread), Run(MainThread), Run(MainThread),
     Run(MainThread), Run(Kid(0)), Run(Kid(0)), Run(Kid(0)), Run(Kid(0)), Fail(MainThread)]

  lemma MainReachesBarrier(m: nat, garbage: Baton, acts: seq<Action>)
    requires 0 < m && |acts| >= 7 && forall i :: 0 <= i < 7 ==> acts[i] == Run(MainThread)
    ensures var s := At(m, Start(m, garbage), acts, 7);
            && s.pc == MainWaits && s.i == 0 && s.measures == [] && !s.exited
            && s.baton == Baton(0, 0) && s.barriers == [[MainThread]]
            && |s.children| == m && s.children[0].pc == Begin
  {
    var s0 := Start(m, garbage);
    assert At(m, s0, acts, 1) == s0.(pc := Head);
    assert At(m, s0, acts, 2) == s0.(pc := InitBarrier);
    assert At(m, s0, acts, 3) == s0.(pc := SetId, barriers := [[]]);
    assert At(m, s0, acts, 4).pc == SetBarrier;
    assert At(m, s0, acts, 5).pc == Create;
    assert At(m, s0, acts, 6).pc == MainArrives;
  }

  lemma FirstMeasurementFails(m: nat, garbage: Baton)
    requires 0 < m
    ensures At(m, Start(m, garbage), NO_RIGHTS, 11).pc == Measure
    ensures FailsAt(m, garbage, NO_RIGHTS, 11)
    ensures var s := RunAll(m, garbage, NO_RIGHTS); s.exited && s.measures == []
  {
    var s0, acts := Start(m, garbage), NO_RIGHTS;
    MainReachesBarrier(m, garbage, acts);
    assert At(m, s0, acts, 8).children[0].pc == Prepare;
    assert At(m, s0, acts, 9).children[0].pc == LoadBarrier;
    assert At(m, s0, acts, 10).children[0].pc == ChildArrives;
    assert At(m, s0, acts, 11).pc == Measure;
  }
}
