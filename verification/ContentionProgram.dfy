/** The program itself: one baton and one stack of barriers, updated in place step by step. */
module ContentionProgram {
  import opened FileNames
  import opened Contention
  import opened ContentionSafety
  import opened ContentionLiveness

  class Benchmark {
    const count: nat
    ghost const garbage: Baton
    var i: nat
    var pc: MainPc
    var baton: Baton
    var barriers: seq<seq<Party>>
    var children: seq<Child>
    var measures: seq<nat>
    var exited: bool
    var strayed: bool

    ghost function View(): State
      reads this
    {
      State(i, pc, baton, barriers, children, measures, exited, strayed)
    }

    constructor (count: nat, garbage: Baton)
      ensures this.count == count && this.garbage == garbage
      ensures View() == Start(count, garbage)
    {
      this.count, this.garbage := count, garbage;
      i, pc, baton, barriers := 0, Setup, garbage, [];
      children := seq(count, _ => Child(Idle, 0, "", 0));
      measures, exited, strayed := [], false, false;
    }

    /** Moves a party on: past the barrier, or to sleep at it. */
    method Move(p: Party, passes: bool)
      modifies this`pc, this`children
      ensures View() == if passes then Pass(old(View()), p) else Park(old(View()), p)
    {
      match p {
        case MainThread => pc := if passes then Measure else MainWaits;
        case Kid(k) =>
          if k < |children| {
            children := children[k := children[k].(pc := if passes then Reading else ChildWaits)];
          }
      }
    }

    /** pthread_barrier_wait. */
    method WaitAt(p: Party, g: int)
      modifies this
      ensures View() == BarrierWait(old(View()), p, g)
    {
      if !(0 <= g < |barriers|) {
        strayed := true;
      } else if barriers[g] == [] {
        barriers := barriers[g := [p]];
        Move(p, false);
      } else {
        var first := barriers[g][0];
        barriers := barriers[g := []];
        Move(first, true);
        Move(p, true);
      }
    }

    /** One step of the loop in main. */
    method StepMain()
      modifies this
      ensures View() == MainStep(count, old(View()))
    {
      match pc {
        case Setup => pc := Head;
        case Head => pc := if i < count then InitBarrier else Finished;
        case InitBarrier => barriers, pc := barriers + [[]], SetId;
        case SetId => baton, pc := baton.(id := i), SetBarrier;
        case SetBarrier => baton, pc := baton.(barrier := |barriers| - 1), Create;
        case Create =>
          if i < |children| {
            children, pc := children[i := children[i].(pc := Begin)], MainArrives;
          }
        case MainArrives => WaitAt(MainThread, |barriers| - 1);
        case MainWaits =>
        case Measure =>
          measures := measures + [i + 1];
          i, pc := i + 1, Head;
        case Finished =>
      }
    }

    /** One step of child `k`. */
    method StepChild(k: nat)
      requires k < |children|
      modifies this
      ensures View() == ChildStep(old(View()), k)
    {
      var c := children[k];
      match c.pc {
        case Begin => children := children[k := c.(id := baton.id, file := Name(baton.id), pc := Prepare)];
        case Prepare => children := children[k := c.(pc := LoadBarrier)];
        case LoadBarrier => children := children[k := c.(barrier := baton.barrier, pc := ChildArrives)];
        case ChildArrives => WaitAt(Kid(k), c.barrier);
        case _ =>
      }
    }

    method Perform(a: Action)
      modifies this
      ensures View() == Step(count, old(View()), a)
    {
      if exited {
        return;
      }
      match a {
        case Run(MainThread) => StepMain();
        case Run(Kid(k)) => if k < |children| { StepChild(k); }
        case Fail(p) => exited := Failing(State(i, pc, baton, barriers, children, measures, exited, strayed), p);
      }
    }

    /** A whole run: the counts reported are 1, 2, 3, ...; under a fair schedule of sufficient
        length all of them are reported if and only if the schedule lets nothing fail. */
    method Execute(acts: seq<Action>, ghost w: nat)
      requires View() == Start(count, garbage)
      modifies this
      ensures View() == RunAll(count, garbage, acts)
      ensures measures == Counting(i) && i <= count && !strayed
      ensures Fair(count, garbage, acts, w) && w * (11 * count + 2) <= |acts| ==>
                (pc == Finished && measures == Counting(count)
                 <==> !exists j :: 0 <= j < |acts| && FailsAt(count, garbage, acts, j))
    {
      hide Contention.Step;
      for j := 0 to |acts|
        invariant View() == At(count, Start(count, garbage), acts, j)
      {
        Perform(acts[j]);
      }
      Reachable(count, garbage, acts, |acts|);
      if Fair(count, garbage, acts, w) && w * (11 * count + 2) <= |acts| {
        AllMeasuredIffNoFailure(count, garbage, acts, w);
      }
    }
  }
}
