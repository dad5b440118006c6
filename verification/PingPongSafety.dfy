/** What every reachable state of the hand-off satisfies, and what a finished run has done. */
module PingPongSafety {
  import opened Futex
  import opened PingPong

  // ----- the inductive invariant: who holds the turn

  function QueueOf(t: Task, side: Side): seq<Task> {
    if side.pc == Blocked then [t] else []
  }

  /** The main task still owes the wake of this round. */
  ghost predicate MainTurn(n: nat, s: State) {
    && s.main.round == s.child.round <= n
    && s.main.pc in {Init, Head, Store, TryWake, WakeRetry, Done}
    && s.child.pc in {Init, Head, Yield, TryWait, WaitRetry, Blocked, Done}
    && (s.main.pc == Init || s.child.pc == Init ==> s.main.round == 0)
    && (s.main.pc in {Store, TryWake, WakeRetry} ==> s.main.round < n)
    && (s.main.pc == Done ==> s.main.round == n)
    && (s.child.pc in {Yield, TryWait, WaitRetry, Blocked} ==> s.main.round < n)
    && (s.child.pc == Done ==> s.main.round == n)
    && (s.main.pc in {TryWake, WakeRetry} || s.child.pc == Blocked ==> s.word == TURN_CHILD)
    && s.queue == QueueOf(Child, s.child)
  }

  /** The child has been woken and owes the wake back. */
  ghost predicate ChildTurn(n: nat, s: State) {
    && s.main.round == s.child.round < n
    && s.main.pc in {Yield, TryWait, WaitRetry, Blocked}
    && s.child.pc in {Dequeued, Store, TryWake, WakeRetry}
    && s.word == (if s.child.pc in {Dequeued, Store} then TURN_CHILD else TURN_MAIN)
    && (s.main.pc == Blocked ==> s.word == TURN_MAIN)
    && s.queue == QueueOf(Main, s.main)
  }

  /** The child has woken the main task, whose wait is about to return. */
  ghost predicate HandBack(n: nat, s: State) {
    && s.child.round == s.main.round + 1 <= n
    && s.main.pc == Dequeued
    && s.child.pc in {Head, Yield, TryWait, WaitRetry, Done}
    && (s.child.pc in {Yield, TryWait, WaitRetry} ==> s.child.round < n)
    && (s.child.pc == Done ==> s.child.round == n)
    && s.word == TURN_MAIN
    && s.queue == []
  }

  /** Sleeps that began equal sleeps that ended plus sleeps in progress; wakes made by one side
      equal waits returned on the other plus the one dequeued but not yet returned. */
  ghost predicate Accounted(s: State, t: Task) {
    var me, peer := s.Get(t), s.Get(Other(t));
    && me.blocks == me.returned + me.interrupts + If(me.pc == Blocked) + If(me.pc == Dequeued)
    && peer.wakes == me.returned + If(me.pc == Dequeued)
  }

  ghost predicate Turn(n: nat, s: State) {
    MainTurn(n, s) || ChildTurn(n, s) || HandBack(n, s)
  }

  ghost predicate Tallied(s: State) {
    && s.spurious == 0
    && Accounted(s, Main) && Accounted(s, Child)
    && s.main.wakes == s.main.round + If(s.main.pc in {Yield, TryWait, WaitRetry, Blocked, Dequeued})
    && s.child.wakes == s.child.round
    && s.main.returned == s.main.round
    && |s.trace| == s.main.wakes + s.child.wakes
  }

  ghost predicate Inv(n: nat, s: State) {
    Turn(n, s) && Tallied(s)
  }

  lemma StartInv(n: nat, p: Program)
    ensures Inv(n, Start(p))
  {
  }

  lemma MainStepKeepsTurn(n: nat, s: State)
    requires Turn(n, s) && s.main.pc != TryWake
    ensures Turn(n, RunTask(n, s, Main))
  {
  }

  lemma ChildStepKeepsTurn(n: nat, s: State)
    requires Turn(n, s) && s.child.pc != TryWake
    ensures Turn(n, RunTask(n, s, Child))
  {
  }

  lemma MainStepKeepsTallies(n: nat, s: State)
    requires Turn(n, s) && Tallied(s) && s.main.pc != TryWake
    ensures Tallied(RunTask(n, s, Main))
  {
    assert RunTask(n, s, Main).trace == s.trace;
  }

  lemma ChildStepKeepsTallies(n: nat, s: State)
    requires Turn(n, s) && Tallied(s) && s.child.pc != TryWake
    ensures Tallied(RunTask(n, s, Child))
  {
    assert RunTask(n, s, Child).trace == s.trace;
  }

  /** A wake that finds the child asleep passes it the turn, else main tries again. */
  lemma MainWakeKeepsInv(n: nat, s: State)
    requires Inv(n, s) && s.main.pc == TryWake
    ensures Inv(n, RunTask(n, s, Main))
  {
    var s' := RunTask(n, s, Main);
    if s.queue != [] {
      assert s'.trace == s.trace + [Handoff(Main, Child)];
      assert ChildTurn(n, s');
    } else {
      assert MainTurn(n, s');
    }
  }

  /** A wake that finds the main task asleep hands the turn back, else the child tries again. */
  lemma ChildWakeKeepsInv(n: nat, s: State)
    requires Inv(n, s) && s.child.pc == TryWake
    ensures Inv(n, RunTask(n, s, Child))
  {
    var s' := RunTask(n, s, Child);
    if s.queue != [] {
      assert s'.trace == s.trace + [Handoff(Child, Main)];
      assert HandBack(n, s');
    } else {
      assert ChildTurn(n, s');
    }
  }

  lemma RunKeepsInv(n: nat, s: State, t: Task)
    requires Inv(n, s)
    ensures Inv(n, RunTask(n, s, t))
  {
    match (t, s.Get(t).pc)
    case (Main, TryWake) => MainWakeKeepsInv(n, s);
    case (Child, TryWake) => ChildWakeKeepsInv(n, s);
    case (Main, _) => MainStepKeepsTurn(n, s); MainStepKeepsTallies(n, s);
    case (Child, _) => ChildStepKeepsTurn(n, s); ChildStepKeepsTallies(n, s);
  }

  lemma InterruptKeepsInv(n: nat, s: State, t: Task)
    requires Inv(n, s)
    ensures Inv(n, Step(n, s, Interrupt(t)))
  {
  }

  // ----- what one spurious return does

  /** Nobody sleeps, nobody will ever sleep again, and the child spins in its wake loop. */
  ghost predicate Stuck(s: State) {
    && s.queue == []
    && s.child.pc in {Dequeued, Store, TryWake, WakeRetry}
    && s.main.pc in {Init, Head, Store, TryWake, WakeRetry, Dequeued, Done}
    && 0 < s.spurious
  }

  /** From any reachable state, one wait that returns 0 without a wake is fatal... */
  lemma SpuriousReturnIsFatal(n: nat, s: State, t: Task)
    requires Inv(n, s) && s.Get(t).pc == Blocked
    ensures Stuck(Step(n, s, Spurious(t)))
  {
  }

  /** ...because no action whatsoever leaves the stuck states. */
  lemma StuckIsClosed(n: nat, s: State, a: Action)
    requires Stuck(s)
    ensures Stuck(Step(n, s, a))
  {
  }

  // ----- over whole runs

  /** Every reachable state satisfies the invariant, until a spurious return sticks the run. */
  lemma {:induction false} InvOrStuck(n: nat, p: Program, acts: seq<Action>, i: nat)
    requires i <= |acts|
    ensures var s := At(n, Start(p), acts, i);
            if s.spurious == 0 then Inv(n, s) else Stuck(s)
  {
    if i == 0 {
      StartInv(n, p);
    } else {
      InvOrStuck(n, p, acts, i - 1);
      var s := At(n, Start(p), acts, i - 1);
      if s.spurious > 0 {
        StuckIsClosed(n, s, acts[i-1]);
      } else {
        match acts[i-1]
        case Run(t) => RunKeepsInv(n, s, t);
        case Interrupt(t) => InterruptKeepsInv(n, s, t);
        case Spurious(t) => if s.Get(t).pc == Blocked { SpuriousReturnIsFatal(n, s, t); }
      }
    }
  }
}
