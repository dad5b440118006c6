/** The futex hand-off between two tasks, as an interleaving of atomic steps.

    One state machine covers both programs: in the threaded one only the main thread stores 0xA
    before its loop, in the process one parent and child both do, after the fork. */
module PingPong {
  import opened Futex

  /** Program points, named after the operation the task performs next. */
  datatype Pc =
    | Init       // about to store 0xA before the loop
    | Head       // about to test the loop condition
    | Store      // about to store the other side's value
    | TryWake    // about to call FUTEX_WAKE
    | WakeRetry  // about to yield because nobody was woken
    | Yield      // about to yield before the first FUTEX_WAIT of the round
    | TryWait    // about to call FUTEX_WAIT
    | WaitRetry  // about to yield because FUTEX_WAIT returned non-zero
    | Blocked    // asleep in FUTEX_WAIT
    | Dequeued   // taken off the queue, FUTEX_WAIT about to return 0
    | Done       // left the loop

  /** One task: program point, completed rounds, and tallies of its successful wakes, its waits
      that returned 0, its waits that went to sleep and its sleeps that a signal ended. */
  datatype Side = Side(pc: Pc, round: nat, wakes: nat, returned: nat, blocks: nat, interrupts: nat)

  datatype State = State(word: int, queue: seq<Task>, main: Side, child: Side,
                         trace: seq<Handoff>, spurious: nat)
  {
    function Get(t: Task): Side {
      if t == Main then main else child
    }

    function Put(t: Task, side: Side): State {
      if t == Main then this.(main := side) else this.(child := side)
    }

    function Goto(t: Task, pc: Pc): State {
      Put(t, Get(t).(pc := pc))
    }

    predicate Finished() {
      main.pc == Done && child.pc == Done
    }
  }

  datatype Program = Threads | Processes

  function Start(p: Program): State {
    State(0, [],
          Side(Init, 0, 0, 0, 0, 0),
          Side(if p == Threads then Head else Init, 0, 0, 0, 0, 0),
          [], 0)
  }

  /** The value a task sleeps on; it stores the other one. */
  function WaitsFor(t: Task): int {
    if t == Main then TURN_MAIN else TURN_CHILD
  }

  function Stores(t: Task): int {
    if t == Main then TURN_CHILD else TURN_MAIN
  }

  /** Main stores, wakes, yields, waits; the child yields, waits, stores, wakes. */
  function BodyStart(t: Task): Pc {
    if t == Main then Store else Yield
  }

  function AfterWake(t: Task, s: State): State {
    if t == Main then s.Goto(Main, Yield)
    else s.Put(Child, s.child.(pc := Head, round := s.child.round + 1))
  }

  function AfterWait(t: Task, s: State): State {
    if t == Child then s.Goto(Child, Store)
    else s.Put(Main, s.main.(pc := Head, round := s.main.round + 1))
  }

  function Wait(s: State, t: Task): State {
    if s.word == WaitsFor(t) then
      s.(queue := s.queue + [t]).Put(t, s.Get(t).(pc := Blocked, blocks := s.Get(t).blocks + 1))
    else
      s.Goto(t, WaitRetry)
  }

  function Wake(s: State, t: Task): State {
    if s.queue == [] then s.Goto(t, WakeRetry)
    else
      var woken := s.queue[0];
      var s1 := s.(queue := s.queue[1..], trace := s.trace + [Handoff(t, woken)]).Goto(woken, Dequeued);
      AfterWake(t, s1.Put(t, s1.Get(t).(wakes := s1.Get(t).wakes + 1)))
  }

  /** The next step of task `t` in a run of `n` rounds. */
  function RunTask(n: nat, s: State, t: Task): State {
    var side := s.Get(t);
    match side.pc
    case Init => s.(word := TURN_CHILD).Goto(t, Head)
    case Head => s.Goto(t, if side.round < n then BodyStart(t) else Done)
    case Store => s.(word := Stores(t)).Goto(t, TryWake)
    case TryWake => Wake(s, t)
    case WakeRetry => s.Goto(t, TryWake)
    case Yield => s.Goto(t, TryWait)
    case TryWait => Wait(s, t)
    case WaitRetry => s.Goto(t, TryWait)
    case Blocked => s
    case Dequeued => AfterWait(t, s.Put(t, side.(returned := side.returned + 1)))
    case Done => s
  }

  function Step(n: nat, s: State, a: Action): State {
    match a
    case Run(t) => RunTask(n, s, t)
    case Interrupt(t) =>
      if s.Get(t).pc != Blocked then s
      else s.(queue := Without(s.queue, t)).Put(t, s.Get(t).(pc := WaitRetry, interrupts := s.Get(t).interrupts + 1))
    case Spurious(t) =>
      if s.Get(t).pc != Blocked then s
      else s.(queue := Without(s.queue, t), spurious := s.spurious + 1).Goto(t, Dequeued)
  }

  /** The state after the first `i` actions. */
  function At(n: nat, s: State, acts: seq<Action>, i: nat): State
    requires i <= |acts|
  {
    if i == 0 then s else Step(n, At(n, s, acts, i - 1), acts[i-1])
  }

  /** The state a schedule leads to. */
  function RunAll(n: nat, p: Program, acts: seq<Action>): State {
    At(n, Start(p), acts, |acts|)
  }
}
