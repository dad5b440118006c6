/** The two programs themselves: tasks that update the shared word and the kernel queue in place,
    one atomic step per call.  Each method is proved against the transition function, so that
    everything proved about runs of that function holds of these objects. */
module PingPongProgram {
  import opened Futex
  import opened PingPong
  import opened PingPongLiveness

  class Benchmark {
    const count: nat
    const program: Program
    const futex: FutexWord
    var main: Side
    var child: Side
    var trace: seq<Handoff>
    var spurious: nat

    ghost function View(): State
      reads this, futex
    {
      State(futex.word, futex.queue, main, child, trace, spurious)
    }

    constructor (program: Program, count: nat)
      ensures this.program == program && this.count == count
      ensures View() == Start(program)
      ensures fresh(futex)
    {
      this.program, this.count := program, count;
      futex := new FutexWord();
      main := Side(Init, 0, 0, 0, 0, 0);
      child := Side(if program == Threads then Head else Init, 0, 0, 0, 0, 0);
      trace, spurious := [], 0;
    }

    method SetPc(t: Task, pc: Pc)
      modifies this`main, this`child
      ensures View() == old(View()).Goto(t, pc)
    {
      if t == Main {
        main := main.(pc := pc);
      } else {
        child := child.(pc := pc);
      }
    }

    /** The FUTEX_WAKE both loops retry until it returns non-zero. */
    method CallWake(t: Task)
      modifies this, futex
      ensures View() == Wake(old(View()), t)
    {
      var woken := futex.Wake();
      if |woken| == 0 {
        SetPc(t, WakeRetry);
      } else {
        SetPc(woken[0], Dequeued);
        trace := trace + [Handoff(t, woken[0])];
        if t == Main {
          main := main.(wakes := main.wakes + 1, pc := Yield);
        } else {
          child := child.(wakes := child.wakes + 1, pc := Head, round := child.round + 1);
        }
      }
    }

    /** The FUTEX_WAIT both loops retry while it returns non-zero. */
    method CallWait(t: Task)
      modifies this, futex
      ensures View() == Wait(old(View()), t)
    {
      var sleeps := futex.Wait(t, if t == Main then 0xB else 0xA);
      if !sleeps {
        SetPc(t, WaitRetry);
      } else if t == Main {
        main := main.(blocks := main.blocks + 1, pc := Blocked);
      } else {
        child := child.(blocks := child.blocks + 1, pc := Blocked);
      }
    }

    /** One step of the timed loop of the main task. */
    method MainStep()
      modifies this, futex
      ensures View() == RunTask(count, old(View()), Main)
    {
      match main.pc {
        case Init => futex.StoreValue(0xA); SetPc(Main, Head);
        case Head => SetPc(Main, if main.round < count then Store else Done);
        case Store => futex.StoreValue(0xA); SetPc(Main, TryWake);
        case TryWake => CallWake(Main);
        case WakeRetry => SetPc(Main, TryWake);
        case Yield => SetPc(Main, TryWait);
        case TryWait => CallWait(Main);
        case WaitRetry => SetPc(Main, TryWait);
        case Blocked =>
        case Dequeued => main := main.(returned := main.returned + 1, pc := Head, round := main.round + 1);
        case Done =>
      }
    }

    /** One step of the child's loop. */
    method ChildStep()
      modifies this, futex
      ensures View() == RunTask(count, old(View()), Child)
    {
      match child.pc {
        case Init => futex.StoreValue(0xA); SetPc(Child, Head);
        case Head => SetPc(Child, if child.round < count then Yield else Done);
        case Yield => SetPc(Child, TryWait);
        case TryWait => CallWait(Child);
        case WaitRetry => SetPc(Child, TryWait);
        case Blocked =>
        case Dequeued => child := child.(returned := child.returned + 1, pc := Store);
        case Store => futex.StoreValue(0xB); SetPc(Child, TryWake);
        case TryWake => CallWake(Child);
        case WakeRetry => SetPc(Child, TryWake);
        case Done =>
      }
    }

    /** What the kernel may do to a sleeper besides a wake. */
    method Disturb(t: Task, signal: bool)
      modifies this, futex
      ensures View() == Step(count, old(View()), if signal then Interrupt(t) else Spurious(t))
    {
      var pc := if t == Main then main.pc else child.pc;
      if pc == Blocked {
        futex.Leave(t);
        if !signal {
          spurious := spurious + 1;
          SetPc(t, Dequeued);
        } else if t == Main {
          main := main.(pc := WaitRetry, interrupts := main.interrupts + 1);
        } else {
          child := child.(pc := WaitRetry, interrupts := child.interrupts + 1);
        }
      }
    }

    method Perform(a: Action)
      modifies this, futex
      ensures View() == Step(count, old(View()), a)
    {
      match a {
        case Run(Main) => MainStep();
        case Run(Child) => ChildStep();
        case Interrupt(t) => Disturb(t, true);
        case Spurious(t) => Disturb(t, false);
      }
    }

    method Execute(acts: seq<Action>)
      requires View() == Start(program)
      modifies this, futex
      ensures View() == RunAll(count, program, acts)
    {
      hide PingPong.Step;
      var i := 0;
      while i < |acts|
        invariant i <= |acts|
        invariant View() == At(count, Start(program), acts, i)
      {
        Perform(acts[i]);
        i := i + 1;
      }
    }

    /** A whole run under a given schedule: at its end the wakes alternate strictly and, for a
        fair schedule of sufficient length, both loops have ended if no wait returned spuriously. */
    method Measure(acts: seq<Action>, ghost k: nat)
      requires View() == Start(program)
      modifies this, futex
      ensures Outcome(count, program, acts, k, View())
    {
      Execute(acts);
      RunOutcome(count, program, acts, k);
    }
  }
}
