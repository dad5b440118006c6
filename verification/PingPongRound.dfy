/** How the hand-off starts, and one round of it step by step: what the shared word holds, who
    sleeps, and where the two tasks are. */
module PingPongRound {
  import opened Futex
  import opened PingPong

  // ----- start-up

  /** The word stays 0 until somebody has passed a store, and until then nobody can sleep; it is
      0xB only once the child has stored that.  Whoever sleeps does so on the value it waits for. */
  ghost predicate StartedUp(p: Program, s: State) {
    && (p == Threads ==> s.child.pc != Init)
    && s.word in {0, 0xA, 0xB}
    && (s.word == 0 <==> s.main.pc == Init && (p == Threads || s.child.pc == Init))
    && (s.child.pc == Init ==> s.child.round == 0)
    && (s.word == 0xB ==> 0 < s.child.round || s.child.pc in {TryWake, WakeRetry})
    && s.queue == (if s.child.pc == Blocked then [Child] else if s.main.pc == Blocked then [Main] else [])
    && (s.child.pc == Blocked ==> s.word == 0xA)
    && (s.main.pc == Blocked ==> s.word == 0xB)
    && (s.word == 0 ==> s.child.pc in {Init, Head, Yield, TryWait, WaitRetry, Done})
  }

  lemma MainKeepsStartedUp(n: nat, p: Program, s: State)
    requires StartedUp(p, s)
    ensures StartedUp(p, RunTask(n, s, Main))
  {
  }

  lemma ChildKeepsStartedUp(n: nat, p: Program, s: State)
    requires StartedUp(p, s)
    ensures StartedUp(p, RunTask(n, s, Child))
  {
  }

  lemma StepKeepsStartedUp(n: nat, p: Program, s: State, a: Action)
    requires StartedUp(p, s)
    ensures StartedUp(p, Step(n, s, a))
  {
    match a
    case Run(Main) => MainKeepsStartedUp(n, p, s);
    case Run(Child) => ChildKeepsStartedUp(n, p, s);
    case _ =>
  }

  /** In every reachable state, whatever was scheduled: the word is 0 exactly as long as no task
      that stores 0xA before its loop has done so, then 0xA, and 0xB at the earliest after the
      child's first store. */
  lemma {:induction false} WordIsSetFirst(n: nat, p: Program, acts: seq<Action>, i: nat)
    requires i <= |acts|
    ensures StartedUp(p, At(n, Start(p), acts, i))
  {
    if i == 0 {
    } else {
      hide StartedUp, Step;
      WordIsSetFirst(n, p, acts, i - 1);
      StepKeepsStartedUp(n, p, At(n, Start(p), acts, i - 1), acts[i-1]);
    }
  }

  /** A sleep that ends without a wake, in any reachable state: a signal sends the sleeper round
      its retry loop, while a return of 0 passes for a wake; nothing else changes. */
  lemma EarlyReturn(n: nat, p: Program, acts: seq<Action>, t: Task)
    requires RunAll(n, p, acts).Get(t).pc == Blocked
    ensures var s := RunAll(n, p, acts);
            var me := s.Get(t);
            && s.queue == [t]
            && Step(n, s, Interrupt(t)) == s.(queue := []).Put(t, me.(pc := WaitRetry, interrupts := me.interrupts + 1))
            && Step(n, s, Spurious(t)) == s.(queue := [], spurious := s.spurious + 1).Put(t, me.(pc := Dequeued))
  {
    WordIsSetFirst(n, p, acts, |acts|);
  }

  // ----- runs given by their states

  /** `states` lists the states a schedule runs through, from the first to the last. */
  ghost predicate Follows(n: nat, acts: seq<Action>, states: seq<State>) {
    |states| == |acts| + 1 && forall i :: 0 <= i < |acts| ==> states[i+1] == Step(n, states[i], acts[i])
  }

  lemma {:induction false} FollowedRun(n: nat, acts: seq<Action>, states: seq<State>, i: nat)
    requires Follows(n, acts, states) && i <= |acts|
    ensures At(n, states[0], acts, i) == states[i]
  {
    if i == 0 {
    } else {
      hide Step;
      FollowedRun(n, acts, states, i - 1);
      assert states[i-1+1] == Step(n, states[i-1], acts[i-1]);
    }
  }

  /** A child process that runs alone stores 0xA itself, and sleeps at once. */
  lemma ProcessSleepsAlone(n: nat, acts: seq<Action>)
    requires 0 < n && acts == [Run(Child), Run(Child), Run(Child), Run(Child)]
    ensures At(n, Start(Processes), acts, 1).word == 0xA
    ensures RunAll(n, Processes, acts)
         == State(0xA, [Child], Side(Init, 0, 0, 0, 0, 0), Side(Blocked, 0, 0, 0, 1, 0), [], 0)
  {
    var s := Start(Processes);
    var c := s.child;
    FollowedRun(n, acts, [s, s.(word := 0xA, child := c.(pc := Head)), s.(word := 0xA, child := c.(pc := Yield)),
                          s.(word := 0xA, child := c.(pc := TryWait)),
                          s.(word := 0xA, queue := [Child], child := c.(pc := Blocked, blocks := 1))], 4);
    assert At(n, s, acts, 0) == s;
  }

  function LoneThread(i: nat): State {
    var pc := if i == 0 then Head else if i == 1 then Yield else if i % 2 == 0 then TryWait else WaitRetry;
    State(0, [], Side(Init, 0, 0, 0, 0, 0), Side(pc, 0, 0, 0, 0, 0), [], 0)
  }

  lemma LoneThreadStep(n: nat, i: nat)
    requires 0 < n
    ensures RunTask(n, LoneThread(i), Child) == LoneThread(i + 1)
  {
  }

  /** A child thread that runs alone stores nothing: it yields once, and from then on its wait is
      refused every second step until main has stored 0xA. */
  lemma {:induction false} ThreadIsRefusedAlone(n: nat, acts: seq<Action>, i: nat)
    requires 0 < n && i <= |acts| && forall j :: 0 <= j < i ==> acts[j] == Run(Child)
    ensures At(n, Start(Threads), acts, i) == LoneThread(i)
  {
    if i == 0 {
    } else {
      hide RunTask;
      ThreadIsRefusedAlone(n, acts, i - 1);
      LoneThreadStep(n, i - 1);
    }
  }

  // ----- one round

  /** A schedule that takes both tasks through every point of their loops: main wakes too early,
      the child's first sleep is interrupted, main's first wait is refused because the word is
      still 0xA, and the child wakes too early. */
  const ROUND: seq<Action> :=
    [Run(Main), Run(Main), Run(Main), Run(Child), Run(Main), Run(Child), Run(Child), Interrupt(Child), Run(Child),
     Run(Child), Run(Main), Run(Main), Run(Main), Run(Child), Run(Main), Run(Child), Run(Child), Run(Main),
     Run(Child), Run(Child), Run(Main)]

  function RoundStates(s: State): seq<State> {
    var m, c := s.main, s.child;
    var c1 := c.(blocks := c.blocks + 1);
    var c2 := c.(blocks := c.blocks + 1, interrupts := c.interrupts + 1);
    var c3 := c.(blocks := c.blocks + 2, interrupts := c.interrupts + 1);
    var c4 := c3.(returned := c.returned + 1);
    var c5 := c4.(wakes := c.wakes + 1, round := c.round + 1);
    var m1 := m.(wakes := m.wakes + 1);
    var m2 := m1.(blocks := m.blocks + 1);
    var m3 := m2.(returned := m.returned + 1, round := m.round + 1);
    var a, woken := s.(word := 0xA), s.(word := 0xA, trace := s.trace + [Handoff(Main, Child)]);
    var b := woken.(word := 0xB);
    var back := b.(trace := s.trace + [Handoff(Main, Child), Handoff(Child, Main)]);
    [s,
     s.(main := m.(pc := Store)),
     a.(main := m.(pc := TryWake)),
     a.(main := m.(pc := WakeRetry)),
     a.(main := m.(pc := WakeRetry), child := c.(pc := Yield)),
     a.(main := m.(pc := TryWake), child := c.(pc := Yield)),
     a.(main := m.(pc := TryWake), child := c.(pc := TryWait)),
     a.(main := m.(pc := TryWake), child := c1.(pc := Blocked), queue := [Child]),
     a.(main := m.(pc := TryWake), child := c2.(pc := WaitRetry)),
     a.(main := m.(pc := TryWake), child := c2.(pc := TryWait)),
     a.(main := m.(pc := TryWake), child := c3.(pc := Blocked), queue := [Child]),
     woken.(main := m1.(pc := Yield), child := c3.(pc := Dequeued)),
     woken.(main := m1.(pc := TryWait), child := c3.(pc := Dequeued)),
     woken.(main := m1.(pc := WaitRetry), child := c3.(pc := Dequeued)),
     woken.(main := m1.(pc := WaitRetry), child := c4.(pc := Store)),
     woken.(main := m1.(pc := TryWait), child := c4.(pc := Store)),
     b.(main := m1.(pc := TryWait), child := c4.(pc := TryWake)),
     b.(main := m1.(pc := TryWait), child := c4.(pc := WakeRetry)),
     b.(main := m2.(pc := Blocked), child := c4.(pc := WakeRetry), queue := [Main]),
     b.(main := m2.(pc := Blocked), child := c4.(pc := TryWake), queue := [Main]),
     back.(main := m2.(pc := Dequeued), child := c5.(pc := Head)),
     back.(main := m3.(pc := Head), child := c5.(pc := Head))]
  }

  ghost predicate AtHeads(n: nat, s: State) {
    s.main.pc == s.child.pc == Head && s.queue == [] && s.main.round < n && s.child.round < n
  }

  lemma ChildFallsAsleep(n: nat, s: State, i: nat)
    requires AtHeads(n, s) && i < 7
    ensures RoundStates(s)[i+1] == Step(n, RoundStates(s)[i], ROUND[i])
  {
  }

  lemma ChildIsWoken(n: nat, s: State, i: nat)
    requires AtHeads(n, s) && 7 <= i < 14
    ensures RoundStates(s)[i+1] == Step(n, RoundStates(s)[i], ROUND[i])
  {
  }

  lemma MainIsWoken(n: nat, s: State, i: nat)
    requires AtHeads(n, s) && 14 <= i < |ROUND|
    ensures RoundStates(s)[i+1] == Step(n, RoundStates(s)[i], ROUND[i])
  {
  }

  lemma RoundFollows(n: nat, s: State)
    requires AtHeads(n, s)
    ensures Follows(n, ROUND, RoundStates(s))
  {
    hide Step, AtHeads;
    forall i | 0 <= i < |ROUND| ensures RoundStates(s)[i+1] == Step(n, RoundStates(s)[i], ROUND[i]) {
      if i < 7 {
        ChildFallsAsleep(n, s, i);
      } else if i < 14 {
        ChildIsWoken(n, s, i);
      } else {
        MainIsWoken(n, s, i);
      }
    }
  }

  /** In any round, from the head of both loops, that schedule goes through exactly these states. */
  lemma RoundStepByStep(n: nat, s: State, i: nat)
    requires AtHeads(n, s) && i <= |ROUND|
    ensures |RoundStates(s)| == |ROUND| + 1 && At(n, s, ROUND, i) == RoundStates(s)[i]
  {
    hide Step;
    RoundFollows(n, s);
    FollowedRun(n, ROUND, RoundStates(s), i);
  }
}
