/** The part of the kernel the benchmarks lean on: one shared word and the queue of tasks
    sleeping on it.  FUTEX_WAIT compares and enqueues in one atomic step, FUTEX_WAKE with count 1
    dequeues at most the task that has slept longest. */
module Futex {

  /** `Main` is the initial thread or the parent process, `Child` the one it creates. */
  datatype Task = Main | Child

  function Other(t: Task): Task {
    if t == Main then Child else Main
  }

  /** The two values the tasks store. */
  const TURN_CHILD: int := 0xA
  const TURN_MAIN: int := 0xB

  /** One scheduling decision: let `t` take its next step, or end the sleep of a blocked `t`
      without a wake, either with an error code (a signal) or, spuriously, with 0.
      On a task that is not asleep the last two do nothing. */
  datatype Action = Run(t: Task) | Interrupt(t: Task) | Spurious(t: Task)

  /** A successful FUTEX_WAKE. */
  datatype Handoff = Handoff(waker: Task, woken: Task)

  /** One if `b`, for tallies. */
  function If(b: bool): nat { if b then 1 else 0 }

  function Without(queue: seq<Task>, t: Task): seq<Task> {
    if queue == [] then []
    else if queue[0] == t then queue[1..]
    else [queue[0]] + Without(queue[1..], t)
  }

  class FutexWord {
    var word: int
    var queue: seq<Task>

    /** A fresh System V segment is zero-filled. */
    constructor ()
      ensures word == 0 && queue == []
    {
      word, queue := 0, [];
    }

    method StoreValue(v: int)
      modifies this
      ensures word == v && queue == old(queue)
    {
      word := v;
    }

    /** FUTEX_WAIT up to the point where it either refuses or puts the caller to sleep. */
    method Wait(t: Task, v: int) returns (sleeps: bool)
      modifies this
      ensures word == old(word)
      ensures sleeps <==> old(word) == v
      ensures queue == if sleeps then old(queue) + [t] else old(queue)
    {
      sleeps := word == v;
      if sleeps {
        queue := queue + [t];
      }
    }

    /** FUTEX_WAKE with count 1; the result lists the tasks released. */
    method Wake() returns (woken: seq<Task>)
      modifies this
      ensures word == old(word)
      ensures woken + queue == old(queue)
      ensures |woken| == if old(queue) == [] then 0 else 1
    {
      woken := [];
      if queue != [] {
        woken, queue := queue[..1], queue[1..];
      }
    }

    /** The kernel takes a sleeper off the queue for a reason other than a wake. */
    method Leave(t: Task)
      modifies this
      ensures word == old(word)
      ensures queue == Without(old(queue), t)
    {
      queue := Without(queue, t);
    }
  }
}
