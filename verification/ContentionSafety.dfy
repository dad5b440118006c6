/** What every reachable state of the contention benchmark satisfies, for any number of children. */
module ContentionSafety {
  import opened FileNames
  import opened Contention
  import opened Sets

  /** Child `k` is set up: it read its own id and barrier and has passed that barrier. */
  ghost predicate Ready(c: Child, k: nat) {
    c == Child(Reading, k, Name(k), k)
  }

  /** What a child has read from the baton so far was meant for it. */
  ghost predicate SawItsOwn(c: Child, k: nat) {
    && (c.pc in {Prepare, LoadBarrier, ChildArrives, ChildWaits, Reading} ==> c.id == k && c.file == Name(k))
    && (c.pc in {ChildArrives, ChildWaits, Reading} ==> c.barrier == k)
  }

  /** The child of the current iteration, against the progress of the main thread. */
  ghost predicate CurrentChild(pc: MainPc, c: Child, k: nat) {
    && SawItsOwn(c, k)
    && match pc
       case MainArrives => c.pc in {Begin, Prepare, LoadBarrier, ChildArrives, ChildWaits}
       case MainWaits => c.pc in {Begin, Prepare, LoadBarrier, ChildArrives}
       case Measure => c.pc == Reading
       case _ => c.pc == Idle
  }

  ghost predicate ChildOk(s: State, k: nat)
    requires k < |s.children|
  {
    if k < s.i then Ready(s.children[k], k)
    else if k == s.i then CurrentChild(s.pc, s.children[k], k)
    else s.children[k].pc == Idle
  }

  function Counting(n: nat): (r: seq<nat>)
    ensures |r| == n && forall j :: 0 <= j < n ==> r[j] == j + 1
  {
    seq(n, j requires 0 <= j < n => j + 1)
  }

  function WaitingNow(s: State): seq<Party>
    requires s.i < |s.children|
  {
    if s.pc == MainWaits then [MainThread]
    else if s.children[s.i].pc == ChildWaits then [Kid(s.i)]
    else []
  }

  ghost predicate MainOk(m: nat, s: State) {
    && |s.children| == m && s.i <= m && !s.strayed
    && s.measures == Counting(s.i)
    && (s.pc !in {Setup, Head, Finished} ==> s.i < m)
    && (s.pc == Setup ==> s.i == 0)
    && (s.pc == Finished ==> s.i == m)
    && |s.barriers| == s.i + (if s.pc in {Setup, Head, InitBarrier, Finished} then 0 else 1)
    && (s.pc in {SetBarrier, Create, MainArrives, MainWaits, Measure} ==> s.baton.id == s.i)
    && (s.pc in {Create, MainArrives, MainWaits, Measure} ==> s.baton.barrier == s.i)
    && (s.pc !in {Setup, Head, InitBarrier, Finished} ==> s.barriers[s.i] == WaitingNow(s))
    && (forall g :: 0 <= g < s.i ==> s.barriers[g] == [])
  }

  ghost predicate Inv(m: nat, s: State) {
    MainOk(m, s) && forall k :: 0 <= k < m ==> ChildOk(s, k)
  }

  lemma StartInv(m: nat, garbage: Baton)
    ensures Inv(m, Start(m, garbage))
  {
  }

  /** The main thread arrives: it sleeps, or finds its child there and both go on. */
  lemma MainArrivalKeepsInv(m: nat, s: State)
    requires Inv(m, s) && s.pc == MainArrives
    ensures Inv(m, MainStep(m, s))
  {
    var s' := MainStep(m, s);
    assert ChildOk(s, s.i);
    assert s'.children == if s.children[s.i].pc == ChildWaits
                          then s.children[s.i := s.children[s.i].(pc := Reading)] else s.children;
    forall k | 0 <= k < m ensures ChildOk(s', k) {
      assert ChildOk(s, k);
    }
  }

  lemma MainStepKeepsInv(m: nat, s: State)
    requires Inv(m, s) && s.pc != MainArrives
    ensures Inv(m, MainStep(m, s))
  {
    var s' := MainStep(m, s);
    if s.i < m {
      assert ChildOk(s, s.i);
    }
    forall k | 0 <= k < m ensures ChildOk(s', k) {
      assert ChildOk(s, k);
    }
  }

  /** A child arrives at its own barrier: it sleeps, or finds the main thread and both go on. */
  lemma ChildArrivalKeepsInv(m: nat, s: State, k: nat)
    requires Inv(m, s) && k < m && s.children[k].pc == ChildArrives
    ensures Inv(m, ChildStep(s, k))
  {
    var s' := ChildStep(s, k);
    assert ChildOk(s, k);
    assert s.children[k].barrier == s.i == k;
    forall j | 0 <= j < m ensures ChildOk(s', j) {
      assert ChildOk(s, j);
    }
  }

  lemma ChildStepKeepsInv(m: nat, s: State, k: nat)
    requires Inv(m, s) && k < m && s.children[k].pc != ChildArrives
    ensures Inv(m, ChildStep(s, k))
  {
    var s' := ChildStep(s, k);
    assert ChildOk(s, k);
    forall j | 0 <= j < m ensures ChildOk(s', j) {
      assert ChildOk(s, j);
    }
  }

  lemma StepKeepsInv(m: nat, s: State, a: Action)
    requires Inv(m, s)
    ensures Inv(m, Step(m, s, a))
  {
    match a
    case Run(MainThread) =>
      if s.pc == MainArrives { MainArrivalKeepsInv(m, s); } else { MainStepKeepsInv(m, s); }
    case Run(Kid(k)) =>
      if k < m {
        if s.children[k].pc == ChildArrives { ChildArrivalKeepsInv(m, s, k); } else { ChildStepKeepsInv(m, s, k); }
      }
    case Fail(_) =>
      forall k | 0 <= k < m ensures ChildOk(Step(m, s, a), k) {
        assert ChildOk(s, k);
      }
  }

  lemma {:induction false} Reachable(m: nat, garbage: Baton, acts: seq<Action>, i: nat)
    requires i <= |acts|
    ensures Inv(m, At(m, Start(m, garbage), acts, i))
  {
    if i == 0 {
      StartInv(m, garbage);
    } else {
      Reachable(m, garbage, acts, i - 1);
      StepKeepsInv(m, At(m, Start(m, garbage), acts, i - 1), acts[i-1]);
    }
  }

  // ----- over whole runs

  /** Child `k` only ever reads its own id and the barrier of its own iteration, and no party ever
      waits at anything but an initialised barrier. */
  lemma BatonSafety(m: nat, garbage: Baton, acts: seq<Action>, k: nat)
    requires k < m
    ensures var s := RunAll(m, garbage, acts);
            |s.children| == m && SawItsOwn(s.children[k], k) && !s.strayed
  {
    Reachable(m, garbage, acts, |acts|);
    assert ChildOk(RunAll(m, garbage, acts), k);
  }

  lemma KidsLeaveBaton(s: State, k: nat)
    requires k < |s.children|
    ensures ChildStep(s, k).baton == s.baton
  {
  }

  /** No step rewrites the baton while a child that was given it has still to read it. */
  lemma NoRewriteBeforeLastRead(m: nat, garbage: Baton, acts: seq<Action>, a: Action, k: nat)
    requires k < m && var s := RunAll(m, garbage, acts); Step(m, s, a).baton != s.baton
    ensures var s := RunAll(m, garbage, acts);
            |s.children| == m && s.children[k].pc in {Idle, Reading}
  {
    var s := RunAll(m, garbage, acts);
    Reachable(m, garbage, acts, |acts|);
    assert ChildOk(s, k);
    match a
    case Run(Kid(j)) =>
      if j < m {
        KidsLeaveBaton(s, j);
      }
    case _ =>
  }

  /** The source has one slot for the barriers of all iterations.  When an iteration is about to
      initialise its own, nobody waits at an earlier one, and no child has still to load a barrier
      pointer or to wait. */
  lemma BarrierSlotIsFree(m: nat, garbage: Baton, acts: seq<Action>)
    requires RunAll(m, garbage, acts).pc == InitBarrier
    ensures var s := RunAll(m, garbage, acts);
            && |s.barriers| == s.i
            && (forall g :: 0 <= g < |s.barriers| ==> s.barriers[g] == [])
            && (forall k :: 0 <= k < |s.children| ==> s.children[k].pc in {Idle, Reading})
  {
    var s := RunAll(m, garbage, acts);
    Reachable(m, garbage, acts, |acts|);
    forall k | 0 <= k < m ensures s.children[k].pc in {Idle, Reading} {
      assert ChildOk(s, k);
    }
  }

  function ReadingKids(s: State): set<nat> {
    set k | 0 <= k < |s.children| && s.children[k].pc == Reading
  }

  /** Exactly children 0..i have set up their files and passed their barriers, and their number is
      what the measurement reports. */
  ghost predicate CountsReaders(m: nat, s: State) {
    && ReadingKids(s) == Below(s.i + 1)
    && |ReadingKids(s)| == s.i + 1
    && MainStep(m, s).measures == s.measures + [|ReadingKids(s)|]
    && s.i < |s.children|
    && forall k :: 0 <= k <= s.i ==> Ready(s.children[k], k)
  }

  lemma KidsWhenMeasuring(m: nat, s: State, k: nat)
    requires Inv(m, s) && s.pc == Measure && k < m
    ensures if k <= s.i then Ready(s.children[k], k) else s.children[k].pc == Idle
  {
    assert ChildOk(s, k);
  }

  lemma ReadersAre(s: State, n: nat)
    requires n <= |s.children|
    requires forall k :: 0 <= k < |s.children| ==> (s.children[k].pc == Reading <==> k < n)
    ensures ReadingKids(s) == Below(n)
  {
  }

  lemma ReportsNext(m: nat, s: State)
    requires s.pc == Measure
    ensures MainStep(m, s).measures == s.measures + [s.i + 1]
  {
  }

  lemma MeasuringState(m: nat, s: State)
    requires Inv(m, s) && s.pc == Measure
    ensures CountsReaders(m, s)
  {
    assert |s.children| == m && s.i < m;
    hide Inv, MainStep, ReadingKids;
    forall k | 0 <= k < m
      ensures if k <= s.i then Ready(s.children[k], k) else s.children[k].pc == Idle
    {
      KidsWhenMeasuring(m, s, k);
    }
    ReadersAre(s, s.i + 1);
    ReportsNext(m, s);
  }

  /** Every measurement runs against the number of readers it reports. */
  lemma MeasureCount(m: nat, garbage: Baton, acts: seq<Action>)
    requires RunAll(m, garbage, acts).pc == Measure
    ensures CountsReaders(m, RunAll(m, garbage, acts))
  {
    Reachable(m, garbage, acts, |acts|);
    MeasuringState(m, RunAll(m, garbage, acts));
  }

  /** The children that read while the main thread measures use pairwise different files, none of
      them the one being measured; ids are ints, hence the bound on `m`. */
  lemma MeasuredFilesDiffer(m: nat, garbage: Baton, acts: seq<Action>, j: nat, k: nat)
    requires m <= 0x8000_0000 && RunAll(m, garbage, acts).pc == Measure
    requires j < k && var s := RunAll(m, garbage, acts); k < |s.children| && j in ReadingKids(s) && k in ReadingKids(s)
    ensures var s := RunAll(m, garbage, acts);
            && s.children[j].file != s.children[k].file
            && s.children[j].file != MAIN_FILE && s.children[k].file != MAIN_FILE
  {
    var s := RunAll(m, garbage, acts);
    MeasureCount(m, garbage, acts);
    Reachable(m, garbage, acts, |acts|);
    assert Ready(s.children[j], j) && Ready(s.children[k], k);
    NamesDiffer(j, k);
  }

  /** The reported counts are 1, 2, 3, ... in order, and all of them at the end. */
  lemma ReportedCounts(m: nat, garbage: Baton, acts: seq<Action>)
    ensures var s := RunAll(m, garbage, acts);
            && (forall j :: 0 <= j < |s.measures| ==> s.measures[j] == j + 1)
            && |s.measures| == s.i <= m
            && (s.pc == Finished ==> |s.measures| == m)
  {
    Reachable(m, garbage, acts, |acts|);
  }
}
