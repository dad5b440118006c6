/** Starting the children of the file-contention benchmark one at a time: the main thread fills in
    one baton per iteration, hands it to a new child, and meets that child at a two-party barrier
    before it measures and reuses the baton. */
module Contention {
  import opened FileNames

  datatype Party = MainThread | Kid(k: nat)

  datatype MainPc =
    | Setup        // about to write and open the file to be measured
    | Head         // about to test the loop condition
    | InitBarrier  // about to initialise this iteration's barrier
    | SetId        // about to write the baton's id
    | SetBarrier   // about to write the baton's barrier pointer
    | Create       // about to create the child, which publishes the baton
    | MainArrives  // about to wait at the barrier
    | MainWaits
    | Measure      // about to time the reads and start the next iteration
    | Finished

  datatype ChildPc =
    | Idle         // not created yet
    | Begin        // about to read the baton's id
    | Prepare      // about to write and open its file
    | LoadBarrier  // about to read the baton's barrier pointer, its last read of the baton
    | ChildArrives // about to wait at that barrier
    | ChildWaits
    | Reading      // reads its file for ever

  /** A child with the id and barrier it read, and the name of its file. */
  datatype Child = Child(pc: ChildPc, id: int, file: string, barrier: int)

  datatype Baton = Baton(id: int, barrier: int)

  /** `barriers[g]` lists who waits at the barrier initialised by iteration `g`; `measures` lists
      the thread counts reported; `exited` is the exit of the whole process after a failure;
      `strayed` records a wait at something that is not an initialised barrier. */
  datatype State = State(i: nat, pc: MainPc, baton: Baton, barriers: seq<seq<Party>>,
                         children: seq<Child>, measures: seq<nat>, exited: bool, strayed: bool)
  {
    function SetChild(k: nat, c: Child): State
      requires k < |children|
    {
      this.(children := children[k := c])
    }
  }

  /** Let a party take its next step, or let its current operation fail. */
  datatype Action = Run(p: Party) | Fail(p: Party)

  /** The baton is an uninitialised local variable at first. */
  function Start(m: nat, garbage: Baton): State {
    State(0, Setup, garbage, [], seq(m, _ => Child(Idle, 0, "", 0)), [], false, false)
  }

  function Pass(s: State, p: Party): State {
    match p
    case MainThread => s.(pc := Measure)
    case Kid(k) => if k < |s.children| then s.SetChild(k, s.children[k].(pc := Reading)) else s
  }

  function Park(s: State, p: Party): State {
    match p
    case MainThread => s.(pc := MainWaits)
    case Kid(k) => if k < |s.children| then s.SetChild(k, s.children[k].(pc := ChildWaits)) else s
  }

  /** pthread_barrier_wait on a barrier for two: the second to arrive releases both. */
  function BarrierWait(s: State, p: Party, g: int): State {
    if !(0 <= g < |s.barriers|) then s.(strayed := true)
    else if s.barriers[g] == [] then Park(s.(barriers := s.barriers[g := [p]]), p)
    else Pass(Pass(s.(barriers := s.barriers[g := []]), s.barriers[g][0]), p)
  }

  function MainStep(m: nat, s: State): State {
    match s.pc
    case Setup => s.(pc := Head)
    case Head => s.(pc := if s.i < m then InitBarrier else Finished)
    case InitBarrier => s.(barriers := s.barriers + [[]], pc := SetId)
    case SetId => s.(baton := s.baton.(id := s.i), pc := SetBarrier)
    case SetBarrier => s.(baton := s.baton.(barrier := |s.barriers| - 1), pc := Create)
    case Create =>
      if s.i < |s.children| then s.SetChild(s.i, s.children[s.i].(pc := Begin)).(pc := MainArrives) else s
    case MainArrives => BarrierWait(s, MainThread, |s.barriers| - 1)
    case MainWaits => s
    case Measure => s.(measures := s.measures + [s.i + 1], i := s.i + 1, pc := Head)
    case Finished => s
  }

  function ChildStep(s: State, k: nat): State
    requires k < |s.children|
  {
    var c := s.children[k];
    match c.pc
    case Idle => s
    case Begin => s.SetChild(k, c.(id := s.baton.id, file := Name(s.baton.id), pc := Prepare))
    case Prepare => s.SetChild(k, c.(pc := LoadBarrier))
    case LoadBarrier => s.SetChild(k, c.(barrier := s.baton.barrier, pc := ChildArrives))
    case ChildArrives => BarrierWait(s, Kid(k), c.barrier)
    case ChildWaits => s
    case Reading => s
  }

  /** Failures that end the process: of writing or opening the measured file, of the barrier's
      initialisation, of the thread's creation, of dropping the caches or allocating at the start
      of a measurement; in a child, of writing, allocating or opening. */
  predicate Failing(s: State, p: Party) {
    match p
    case MainThread => s.pc in {Setup, InitBarrier, Create, Measure}
    case Kid(k) => k < |s.children| && s.children[k].pc == Prepare
  }

  function Step(m: nat, s: State, a: Action): State {
    if s.exited then s
    else
      match a
      case Run(MainThread) => MainStep(m, s)
      case Run(Kid(k)) => if k < |s.children| then ChildStep(s, k) else s
      case Fail(p) => if Failing(s, p) then s.(exited := true) else s
  }

  function At(m: nat, s: State, acts: seq<Action>, i: nat): State
    requires i <= |acts|
  {
    if i == 0 then s else Step(m, At(m, s, acts, i - 1), acts[i-1])
  }

  function RunAll(m: nat, garbage: Baton, acts: seq<Action>): State {
    At(m, Start(m, garbage), acts, |acts|)
  }
}
