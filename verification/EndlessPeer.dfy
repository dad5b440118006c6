/** futex_wait and futex_wake: the parent times `n` calls of one futex operation while its child
    performs the opposite operation for ever.  Neither looks at what the calls return. */
module EndlessPeer {
  import opened Futex
  import opened Progress

  datatype Pc = Init | Loop | Blocked | Dequeued | Done

  /** Tallies of completed calls, of calls that woke somebody, of waits refused because the word
      differed, of waits that returned after a wake and of sleeps that ended without one. */
  datatype Peer = Peer(pc: Pc, calls: nat, wakes: nat, refused: nat, returned: nat, unwoken: nat)

  datatype State = State(word: int, queue: seq<Task>, main: Peer, child: Peer)
  {
    function Get(t: Task): Peer {
      if t == Main then main else child
    }

    function Put(t: Task, peer: Peer): State {
      if t == Main then this.(main := peer) else this.(child := peer)
    }
  }

  function Start(): State {
    State(0, [], Peer(Init, 0, 0, 0, 0, 0), Peer(Init, 0, 0, 0, 0, 0))
  }

  function CallWait(s: State, t: Task): State {
    var me := s.Get(t);
    if s.word == TURN_CHILD then s.(queue := s.queue + [t]).Put(t, me.(pc := Blocked))
    else s.Put(t, me.(calls := me.calls + 1, refused := me.refused + 1))
  }

  function CallWake(s: State, t: Task): State {
    var me := s.Get(t);
    if s.queue == [] then s.Put(t, me.(calls := me.calls + 1))
    else
      var s1 := s.Put(t, me.(calls := me.calls + 1, wakes := me.wakes + 1));
      var woken := s.queue[0];
      s1.(queue := s.queue[1..]).Put(woken, s1.Get(woken).(pc := Dequeued))
  }

  /** The next step of `t`; `waiter` is the task whose loop calls FUTEX_WAIT. */
  function RunTask(waiter: Task, n: nat, s: State, t: Task): State {
    var me := s.Get(t);
    match me.pc
    case Init => s.(word := TURN_CHILD).Put(t, me.(pc := Loop))
    case Loop =>
      if t == Main && n <= me.calls then s.Put(t, me.(pc := Done))
      else if t == waiter then CallWait(s, t)
      else CallWake(s, t)
    case Blocked => s
    case Dequeued => s.Put(t, me.(pc := Loop, calls := me.calls + 1, returned := me.returned + 1))
    case Done => s
  }

  /** Whatever the early return value is, the loops count the call and go on. */
  function EndSleep(s: State, t: Task): State {
    var me := s.Get(t);
    if me.pc != Blocked then s
    else s.(queue := Without(s.queue, t)).Put(t, me.(pc := Loop, calls := me.calls + 1, unwoken := me.unwoken + 1))
  }

  function Step(waiter: Task, n: nat, s: State, a: Action): State {
    match a
    case Run(t) => RunTask(waiter, n, s, t)
    case Interrupt(t) => EndSleep(s, t)
    case Spurious(t) => EndSleep(s, t)
  }

  function At(waiter: Task, n: nat, s: State, acts: seq<Action>, i: nat): State
    requires i <= |acts|
  {
    if i == 0 then s else Step(waiter, n, At(waiter, n, s, acts, i - 1), acts[i-1])
  }

  function RunAll(waiter: Task, n: nat, acts: seq<Action>): State {
    At(waiter, n, Start(), acts, |acts|)
  }

  ghost predicate Inv(waiter: Task, n: nat, s: State) {
    var w, k := s.Get(waiter), s.Get(Other(waiter));
    && k.pc in {Init, Loop, Done}
    && (w.pc != Init ==> s.word == TURN_CHILD)
    && s.queue == (if w.pc == Blocked then [waiter] else [])
    && w.refused == 0
    && w.calls == w.returned + w.unwoken
    && k.wakes == w.returned + If(w.pc == Dequeued)
    && k.wakes <= k.calls
    && s.child.pc != Done
    && s.main.calls <= n
    && (s.main.pc in {Blocked, Dequeued} ==> s.main.calls < n)
    && (s.main.pc == Init ==> s.main.calls == 0)
    && (s.main.pc == Done ==> s.main.calls == n)
  }

  lemma WaiterKeepsInv(waiter: Task, n: nat, s: State)
    requires Inv(waiter, n, s)
    ensures Inv(waiter, n, RunTask(waiter, n, s, waiter))
    ensures Inv(waiter, n, EndSleep(s, waiter))
  {
  }

  lemma WakerKeepsInv(waiter: Task, n: nat, s: State)
    requires Inv(waiter, n, s)
    ensures Inv(waiter, n, RunTask(waiter, n, s, Other(waiter)))
    ensures EndSleep(s, Other(waiter)) == s
  {
  }

  lemma StepKeepsInv(waiter: Task, n: nat, s: State, a: Action)
    requires Inv(waiter, n, s)
    ensures Inv(waiter, n, Step(waiter, n, s, a))
  {
    if a.t == waiter {
      WaiterKeepsInv(waiter, n, s);
    } else {
      WakerKeepsInv(waiter, n, s);
    }
  }

  lemma {:induction false} Reachable(waiter: Task, n: nat, acts: seq<Action>, i: nat)
    requires i <= |acts|
    ensures Inv(waiter, n, At(waiter, n, Start(), acts, i))
  {
    if i == 0 {
    } else {
      Reachable(waiter, n, acts, i - 1);
      StepKeepsInv(waiter, n, At(waiter, n, Start(), acts, i - 1), acts[i-1]);
    }
  }

  // ----- step by step

  /** The word is 0 until one of the two has stored 0xA, and 0xA from then on. */
  lemma {:induction false} WordIsSetFirst(waiter: Task, n: nat, acts: seq<Action>, i: nat)
    requires i <= |acts|
    ensures var s := At(waiter, n, Start(), acts, i);
            s.word == if s.main.pc == Init && s.child.pc == Init then 0 else 0xA
  {
    if i == 0 {
    } else {
      WordIsSetFirst(waiter, n, acts, i - 1);
      Reachable(waiter, n, acts, i - 1);
    }
  }

  /** A signal, or a return without a wake, counts as a call like any other. */
  lemma EarlyReturnCounts(waiter: Task, n: nat, acts: seq<Action>, t: Task)
    requires RunAll(waiter, n, acts).Get(t).pc == Blocked
    ensures t == waiter
    ensures var s := RunAll(waiter, n, acts);
            && s.queue == [t]
            && forall a | a in {Interrupt(t), Spurious(t)} ::
                 Step(waiter, n, s, a)
                 == s.(queue := []).Put(t, s.Get(t).(pc := Loop, calls := s.Get(t).calls + 1,
                                                     unwoken := s.Get(t).unwoken + 1))
  {
    Reachable(waiter, n, acts, |acts|);
  }

  /** A futile wake, a wait, a wake that ends it, and the waiter's return, with all counters. */
  lemma OneCall(n: nat, s: State)
    requires s.main.pc == s.child.pc == Loop && s.queue == [] && s.word == 0xA && s.main.calls < n
    ensures var acts := [Run(Child), Run(Main), Run(Child), Run(Main), Run(Main)];
            var (m, c) := (s.main, s.child);
            && At(Main, n, s, acts, 1) == s.(child := c.(calls := c.calls + 1))
            && At(Main, n, s, acts, 2)
               == s.(child := c.(calls := c.calls + 1), main := m.(pc := Blocked), queue := [Main])
            && At(Main, n, s, acts, 3)
               == s.(child := c.(calls := c.calls + 2, wakes := c.wakes + 1), main := m.(pc := Dequeued))
            && At(Main, n, s, acts, 4)
               == s.(child := c.(calls := c.calls + 2, wakes := c.wakes + 1),
                     main := m.(calls := m.calls + 1, returned := m.returned + 1))
            && (m.calls + 1 == n ==>
                 At(Main, n, s, acts, 5)
                 == s.(child := c.(calls := c.calls + 2, wakes := c.wakes + 1),
                       main := m.(pc := Done, calls := n, returned := m.returned + 1)))
  {
  }

  // ----- futex_wait: n waits against an endless waker

  /** No wait is ever refused; every wait that returned was ended by a wake of its own (or by a
      signal), so at the end of the loop there were exactly as many wakes as waits. */
  lemma WaitsMatchWakes(n: nat, acts: seq<Action>)
    ensures var s := RunAll(Main, n, acts);
            && s.main.refused == 0
            && s.child.wakes == s.main.returned + If(s.main.pc == Dequeued)
            && (s.main.pc == Done ==> s.child.wakes == s.main.returned == n - s.main.unwoken)
            && s.child.pc != Done
  {
    Reachable(Main, n, acts, |acts|);
  }

  function Helpful(s: State): Task {
    if s.main.pc == Blocked then Child else Main
  }

  function Phase(pc: Pc, childReady: bool): nat {
    match pc
    case Init => 6 case Loop => 5 case Blocked => if childReady then 3 else 4 case Dequeued => 2 case Done => 0
  }

  /** Useful steps left: four for every call still to be made, less those of the call under way. */
  function Rank(n: nat, s: State): nat {
    if s.main.pc == Done || n < s.main.calls then 0
    else 4 * (n - s.main.calls) + Phase(s.main.pc, s.child.pc != Init)
  }

  lemma RankDescends(n: nat, s: State, a: Action)
    requires Inv(Main, n, s)
    ensures var s' := Step(Main, n, s, a);
            && (Rank(n, s') < Rank(n, s) || (Rank(n, s') == Rank(n, s) && Helpful(s') == Helpful(s)))
            && (0 < Rank(n, s) && a == Run(Helpful(s)) ==> Rank(n, s') < Rank(n, s))
    ensures Rank(n, s) == 0 <==> s.main.pc == Done
  {
  }

  /** Every window of `k` actions runs each task that is runnable when the window opens. */
  ghost predicate Fair(n: nat, acts: seq<Action>, k: nat) {
    forall i: nat, t :: i + k <= |acts| && At(Main, n, Start(), acts, i).Get(t).pc !in {Blocked, Done}
                        ==> Offered(acts, i, k, Run(t))
  }

  /** `states` lists the states of the run, first to last. */
  ghost predicate Visits(n: nat, acts: seq<Action>, states: seq<State>) {
    && |states| == |acts| + 1
    && forall i :: 0 <= i <= |acts| ==> states[i] == At(Main, n, Start(), acts, i)
  }

  lemma StepIsRanked(n: nat, acts: seq<Action>, states: seq<State>, i: nat)
    requires Visits(n, acts, states) && i < |acts|
    ensures var (s, s') := (states[i], states[i+1]);
            && (Rank(n, s') < Rank(n, s) || (Rank(n, s') == Rank(n, s) && Helpful(s') == Helpful(s)))
            && (0 < Rank(n, s) && acts[i] == Run(Helpful(s)) ==> Rank(n, s') < Rank(n, s))
  {
    Reachable(Main, n, acts, i);
    RankDescends(n, states[i], acts[i]);
    assert states[i+1] == Step(Main, n, states[i], acts[i]);
  }

  lemma HelpfulIsOffered(n: nat, acts: seq<Action>, states: seq<State>, k: nat, i: nat)
    requires Visits(n, acts, states) && Fair(n, acts, k)
    requires i + k <= |acts| && 0 < Rank(n, states[i])
    ensures Offered(acts, i, k, Run(Helpful(states[i])))
  {
    Reachable(Main, n, acts, i);
    assert states[i].Get(Helpful(states[i])).pc !in {Blocked, Done};
  }

  lemma RankAtEnds(n: nat, acts: seq<Action>, states: seq<State>)
    requires Visits(n, acts, states)
    ensures Rank(n, states[0]) == 4 * n + 6
    ensures Rank(n, states[|acts|]) == 0 ==> RunAll(Main, n, acts).main.pc == Done
  {
    Reachable(Main, n, acts, |acts|);
  }

  lemma RankRunsOut(n: nat, acts: seq<Action>, states: seq<State>, k: nat)
    requires Visits(n, acts, states) && Fair(n, acts, k) && k * Rank(n, states[0]) <= |acts|
    ensures Rank(n, states[|acts|]) == 0
  {
    hide Step, Rank, Helpful;
    var phi := seq(|acts| + 1, i requires 0 <= i <= |acts| => Rank(n, states[i]));
    var helpful := seq(|acts| + 1, i requires 0 <= i <= |acts| => Run(Helpful(states[i])));
    forall i | 0 <= i < |acts|
      ensures phi[i+1] < phi[i] || (phi[i+1] == phi[i] && helpful[i+1] == helpful[i])
      ensures 0 < phi[i] && acts[i] == helpful[i] ==> phi[i+1] < phi[i]
    {
      StepIsRanked(n, acts, states, i);
    }
    forall i: nat | i + k <= |acts| && 0 < phi[i] ensures Offered(acts, i, k, helpful[i]) {
      HelpfulIsOffered(n, acts, states, k, i);
    }
    FairRunsFinish(acts, phi, helpful, k);
  }

  /** The parent's loop ends, whatever signals arrive. */
  lemma WaitLoopEnds(n: nat, acts: seq<Action>, k: nat)
    requires Fair(n, acts, k) && k * (4 * n + 6) <= |acts|
    ensures RunAll(Main, n, acts).main.pc == Done
  {
    var states := seq(|acts| + 1, i requires 0 <= i <= |acts| => At(Main, n, Start(), acts, i));
    RankAtEnds(n, acts, states);
    RankRunsOut(n, acts, states, k);
  }

  // ----- futex_wake: n wakes against an endless waiter

  function Turns(acts: seq<Action>, t: Task, i: nat): nat
    requires i <= |acts|
  {
    if i == 0 then 0 else Turns(acts, t, i - 1) + If(acts[i-1] == Run(t))
  }

  /** Where `turns` turns of its own take the waking parent. */
  ghost predicate AfterTurns(n: nat, main: Peer, turns: nat) {
    && (turns == 0 ==> main.pc == Init)
    && (1 <= turns <= n + 1 ==> main.pc == Loop && main.calls == turns - 1)
    && (n + 2 <= turns ==> main.pc == Done && main.calls == n)
  }

  lemma StepTakesTurn(n: nat, s: State, a: Action, turns: nat)
    requires Inv(Child, n, s) && AfterTurns(n, s.main, turns)
    ensures AfterTurns(n, Step(Child, n, s, a).main, turns + If(a == Run(Main)))
  {
  }

  lemma {:induction false} WakerProgress(n: nat, acts: seq<Action>, i: nat)
    requires i <= |acts|
    ensures AfterTurns(n, At(Child, n, Start(), acts, i).main, Turns(acts, Main, i))
  {
    if i == 0 {
    } else {
      WakerProgress(n, acts, i - 1);
      Reachable(Child, n, acts, i - 1);
      StepTakesTurn(n, At(Child, n, Start(), acts, i - 1), acts[i-1], Turns(acts, Main, i - 1));
    }
  }

  /** The parent never blocks: `n + 2` turns of its own end its loop after exactly `n` calls,
      whatever the child does.  Of these, as many succeeded as the child's waits ended by a wake. */
  lemma WakeLoopEnds(n: nat, acts: seq<Action>)
    ensures var s := RunAll(Child, n, acts);
            && (n + 2 <= Turns(acts, Main, |acts|) ==> s.main.pc == Done && s.main.calls == n)
            && s.main.wakes == s.child.returned + If(s.child.pc == Dequeued) <= s.main.calls <= n
            && s.child.refused == 0
            && s.child.pc != Done
  {
    WakerProgress(n, acts, |acts|);
    Reachable(Child, n, acts, |acts|);
  }

  /** Turns of its own the endless waiter needs to fall asleep. */
  function ToSleep(pc: Pc): nat {
    match pc
    case Blocked => 0 case Loop => 1 case _ => 2
  }

  lemma QuietStep(n: nat, s: State, t: Task)
    requires Inv(Child, n, s) && s.main.pc == Done
    ensures var s' := RunTask(Child, n, s, t);
            && s'.main == s.main
            && ToSleep(s'.child.pc) == ToSleep(s.child.pc) - If(t == Child && s.child.pc != Blocked)
            && (s.child.pc == Blocked ==> s' == s)
  {
  }

  lemma {:induction false} FallsAsleep(n: nat, acts: seq<Action>, i: nat, j: nat)
    requires i <= j <= |acts| && At(Child, n, Start(), acts, i).main.pc == Done
    requires forall m :: i <= m < j ==> acts[m].Run?
    ensures At(Child, n, Start(), acts, j).main.pc == Done
    ensures Turns(acts, Child, i) <= Turns(acts, Child, j)
    ensures var left := ToSleep(At(Child, n, Start(), acts, j).child.pc);
            left == 0 || left + Turns(acts, Child, j) - Turns(acts, Child, i) <= 2
    decreases j - i
  {
    if i == j {
    } else {
      FallsAsleep(n, acts, i, j - 1);
      Reachable(Child, n, acts, j - 1);
      QuietStep(n, At(Child, n, Start(), acts, j - 1), acts[j-1].t);
    }
  }

  lemma {:induction false} StaysAsleep(n: nat, acts: seq<Action>, j: nat, l: nat)
    requires j <= l <= |acts|
    requires var s := At(Child, n, Start(), acts, j); s.main.pc == Done && s.child.pc == Blocked
    requires forall m :: j <= m < l ==> acts[m].Run?
    ensures At(Child, n, Start(), acts, l) == At(Child, n, Start(), acts, j)
    decreases l - j
  {
    if j == l {
    } else {
      StaysAsleep(n, acts, j, l - 1);
      Reachable(Child, n, acts, l - 1);
      QuietStep(n, At(Child, n, Start(), acts, l - 1), acts[l-1].t);
    }
  }

  /** Once the parent has left its loop, two undisturbed turns of the child's own put it to sleep,
      from whatever state that is, and then no step changes anything any more: the final waitpid
      never returns. */
  lemma ChildSleepsForever(n: nat, acts: seq<Action>, i: nat, j: nat, l: nat)
    requires i <= j <= l <= |acts| && At(Child, n, Start(), acts, i).main.pc == Done
    requires forall m :: i <= m < l ==> acts[m].Run?
    requires Turns(acts, Child, j) >= Turns(acts, Child, i) + 2
    ensures var s := At(Child, n, Start(), acts, j);
            && s.child.pc == Blocked && s.queue == [Child]
            && At(Child, n, Start(), acts, l) == s
  {
    FallsAsleep(n, acts, i, j);
    Reachable(Child, n, acts, j);
    StaysAsleep(n, acts, j, l);
  }

  // ----- the programs

  class Pair {
    const waiter: Task
    const count: nat
    const futex: FutexWord
    var main: Peer
    var child: Peer

    ghost function View(): State
      reads this, futex
    {
      State(futex.word, futex.queue, main, child)
    }

    constructor (waiter: Task, count: nat)
      ensures this.waiter == waiter && this.count == count
      ensures View() == Start() && fresh(futex)
    {
      this.waiter, this.count := waiter, count;
      futex := new FutexWord();
      main, child := Peer(Init, 0, 0, 0, 0, 0), Peer(Init, 0, 0, 0, 0, 0);
    }

    method SetPeer(t: Task, peer: Peer)
      modifies this`main, this`child
      ensures View() == old(View()).Put(t, peer)
    {
      if t == Main {
        main := peer;
      } else {
        child := peer;
      }
    }

    /** One step of either loop. */
    method TaskStep(t: Task)
      modifies this, futex
      ensures View() == RunTask(waiter, count, old(View()), t)
    {
      var me := if t == Main then main else child;
      match me.pc {
        case Init =>
          futex.StoreValue(0xA);
          SetPeer(t, me.(pc := Loop));
        case Loop =>
          if t == Main && count <= me.calls {
            SetPeer(t, me.(pc := Done));
          } else if t == waiter {
            var sleeps := futex.Wait(t, 0xA);
            SetPeer(t, if sleeps then me.(pc := Blocked) else me.(calls := me.calls + 1, refused := me.refused + 1));
          } else {
            var woken := futex.Wake();
            SetPeer(t, me.(calls := me.calls + 1, wakes := me.wakes + |woken|));
            if |woken| == 1 {
              var sleeper := if woken[0] == Main then main else child;
              SetPeer(woken[0], sleeper.(pc := Dequeued));
            }
          }
        case Dequeued => SetPeer(t, me.(pc := Loop, calls := me.calls + 1, returned := me.returned + 1));
        case _ =>
      }
    }

    method Perform(a: Action)
      modifies this, futex
      ensures View() == Step(waiter, count, old(View()), a)
    {
      match a {
        case Run(t) => TaskStep(t);
        case _ =>
          var me := if a.t == Main then main else child;
          if me.pc == Blocked {
            futex.Leave(a.t);
            SetPeer(a.t, me.(pc := Loop, calls := me.calls + 1, unwoken := me.unwoken + 1));
          }
      }
    }

    method Execute(acts: seq<Action>)
      requires View() == Start()
      modifies this, futex
      ensures View() == RunAll(waiter, count, acts)
      ensures child.pc != Done
      ensures waiter == Main && main.pc == Done ==> child.wakes == main.returned == count - main.unwoken
      ensures waiter == Child && count + 2 <= Turns(acts, Main, |acts|) ==>
                main.pc == Done && main.wakes <= main.calls == count
    {
      for i := 0 to |acts|
        invariant View() == At(waiter, count, Start(), acts, i)
      {
        Perform(acts[i]);
      }
      if waiter == Main {
        WaitsMatchWakes(count, acts);
      } else {
        WakeLoopEnds(count, acts);
      }
    }
  }
}
