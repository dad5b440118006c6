/** One iteration of the contention benchmark step by step, for both orders of arrival. */
module ContentionRound {
  import opened FileNames
  import opened Contention
  import opened ContentionSafety

  /** `states` lists the states a schedule runs through, from the first to the last. */
  ghost predicate Follows(m: nat, acts: seq<Action>, states: seq<State>) {
    |states| == |acts| + 1 && forall i :: 0 <= i < |acts| ==> states[i+1] == Step(m, states[i], acts[i])
  }

  lemma {:induction false} FollowedRun(m: nat, acts: seq<Action>, states: seq<State>, i: nat)
    requires Follows(m, acts, states) && i <= |acts|
    ensures At(m, states[0], acts, i) == states[i]
  {
    if i == 0 {
    } else {
      hide Step;
      FollowedRun(m, acts, states, i - 1);
      assert states[i-1+1] == Step(m, states[i-1], acts[i-1]);
    }
  }

  ghost predicate AtHead(m: nat, s: State) {
    && s.pc == Head && !s.exited
    && s.i < |s.children| == m && |s.barriers| == s.i && s.children[s.i].pc == Idle
  }

  /** Every iteration starts from such a state. */
  lemma HeadsAreReached(m: nat, garbage: Baton, acts: seq<Action>)
    requires var s := RunAll(m, garbage, acts); s.pc == Head && !s.exited && s.i < m
    ensures AtHead(m, RunAll(m, garbage, acts))
  {
    var s := RunAll(m, garbage, acts);
    Reachable(m, garbage, acts, |acts|);
    assert ChildOk(s, s.i);
  }

  /** The child of iteration `s.i`, with what it has read so far. */
  function Changed(s: State, c: Child): seq<Child>
    requires s.i < |s.children|
  {
    s.children[s.i := c]
  }

  function Started(s: State): (states: seq<State>)
    requires s.i < |s.children|
    ensures |states| == 6
  {
    var k, c := s.i, s.children[s.i];
    [s,
     s.(pc := InitBarrier),
     s.(pc := SetId, barriers := s.barriers + [[]]),
     s.(pc := SetBarrier, barriers := s.barriers + [[]], baton := Baton(k, s.baton.barrier)),
     s.(pc := Create, barriers := s.barriers + [[]], baton := Baton(k, k)),
     s.(pc := MainArrives, barriers := s.barriers + [[]], baton := Baton(k, k),
        children := Changed(s, c.(pc := Begin)))]
  }

  /** Main sleeps at the barrier before its child has read anything. */
  function MainFirst(s: State): seq<State>
    requires s.i < |s.children|
  {
    var k := s.i;
    var named := s.children[k].(id := k, file := Name(k));
    var asleep := s.(pc := MainWaits, barriers := s.barriers + [[MainThread]], baton := Baton(k, k));
    var passed := s.(pc := Measure, barriers := s.barriers + [[]], baton := Baton(k, k),
                     children := Changed(s, Child(Reading, k, Name(k), k)));
    Started(s) +
    [asleep.(children := Changed(s, s.children[k].(pc := Begin))),
     asleep.(children := Changed(s, named.(pc := Prepare))),
     asleep.(children := Changed(s, named.(pc := LoadBarrier))),
     asleep.(children := Changed(s, named.(pc := ChildArrives, barrier := k))),
     passed,
     passed.(pc := Head, i := k + 1, measures := s.measures + [k + 1])]
  }

  /** The child sleeps at the barrier before main arrives. */
  function ChildFirst(s: State): seq<State>
    requires s.i < |s.children|
  {
    var k := s.i;
    var named := s.children[k].(id := k, file := Name(k));
    var ready := s.(pc := MainArrives, barriers := s.barriers + [[]], baton := Baton(k, k));
    var passed := s.(pc := Measure, barriers := s.barriers + [[]], baton := Baton(k, k),
                     children := Changed(s, Child(Reading, k, Name(k), k)));
    Started(s) +
    [ready.(children := Changed(s, named.(pc := Prepare))),
     ready.(children := Changed(s, named.(pc := LoadBarrier))),
     ready.(children := Changed(s, named.(pc := ChildArrives, barrier := k))),
     ready.(children := Changed(s, named.(pc := ChildWaits, barrier := k)), barriers := s.barriers + [[Kid(k)]]),
     passed,
     passed.(pc := Head, i := k + 1, measures := s.measures + [k + 1])]
  }

  function MainFirstSchedule(k: nat): seq<Action> {
    [Run(MainThread), Run(MainThread), Run(MainThread), Run(MainThread), Run(MainThread), Run(MainThread),
     Run(Kid(k)), Run(Kid(k)), Run(Kid(k)), Run(Kid(k)), Run(MainThread)]
  }

  function ChildFirstSchedule(k: nat): seq<Action> {
    [Run(MainThread), Run(MainThread), Run(MainThread), Run(MainThread), Run(MainThread),
     Run(Kid(k)), Run(Kid(k)), Run(Kid(k)), Run(Kid(k)), Run(MainThread), Run(MainThread)]
  }

  lemma StartedStep(m: nat, s: State, i: nat)
    requires AtHead(m, s) && i < 5
    ensures Started(s)[i+1] == Step(m, Started(s)[i], Run(MainThread))
  {
  }

  lemma Updates(s: State, c: Child, d: Child, w: seq<Party>, v: seq<Party>)
    requires s.i < |s.children| && |s.barriers| == s.i
    ensures Changed(s, c)[s.i := d] == Changed(s, d)
    ensures (s.barriers + [w])[s.i := v] == s.barriers + [v]
  {
  }

  lemma MainSleeps(m: nat, s: State, i: nat)
    requires AtHead(m, s) && 5 <= i < 8
    ensures |MainFirst(s)| == 12 && MainFirst(s)[i+1] == Step(m, MainFirst(s)[i], MainFirstSchedule(s.i)[i])
  {
  }

  lemma ChildReleasesMain(m: nat, s: State, i: nat)
    requires AtHead(m, s) && 8 <= i < 11
    ensures |MainFirst(s)| == 12 && MainFirst(s)[i+1] == Step(m, MainFirst(s)[i], MainFirstSchedule(s.i)[i])
  {
    var k := s.i;
    var named := s.children[k].(id := k, file := Name(k), barrier := k);
    Updates(s, named.(pc := ChildArrives), Child(Reading, k, Name(k), k), [MainThread], []);
  }

  lemma ChildPrepares(m: nat, s: State, i: nat)
    requires AtHead(m, s) && 5 <= i < 8
    ensures |ChildFirst(s)| == 12 && ChildFirst(s)[i+1] == Step(m, ChildFirst(s)[i], ChildFirstSchedule(s.i)[i])
  {
  }

  lemma MainReleasesChild(m: nat, s: State, i: nat)
    requires AtHead(m, s) && 8 <= i < 11
    ensures |ChildFirst(s)| == 12 && ChildFirst(s)[i+1] == Step(m, ChildFirst(s)[i], ChildFirstSchedule(s.i)[i])
  {
    var k := s.i;
    var named := s.children[k].(id := k, file := Name(k), barrier := k);
    Updates(s, named.(pc := ChildArrives), named.(pc := ChildWaits), [], [Kid(k)]);
    Updates(s, named.(pc := ChildWaits), Child(Reading, k, Name(k), k), [Kid(k)], []);
  }

  /** From the head of main's loop these schedules go through exactly these states: everything is
      handed over in order, and the measurement comes after the child is ready. */
  lemma IterationStepByStep(m: nat, s: State, i: nat)
    requires AtHead(m, s) && i <= 11
    ensures |MainFirst(s)| == |ChildFirst(s)| == 12
    ensures At(m, s, MainFirstSchedule(s.i), i) == MainFirst(s)[i]
    ensures At(m, s, ChildFirstSchedule(s.i), i) == ChildFirst(s)[i]
  {
    hide Step;
    forall j | 0 <= j < 11
      ensures MainFirst(s)[j+1] == Step(m, MainFirst(s)[j], MainFirstSchedule(s.i)[j])
      ensures ChildFirst(s)[j+1] == Step(m, ChildFirst(s)[j], ChildFirstSchedule(s.i)[j])
    {
      if j < 5 {
        StartedStep(m, s, j);
      } else if j < 8 {
        MainSleeps(m, s, j);
        ChildPrepares(m, s, j);
      } else {
        ChildReleasesMain(m, s, j);
        MainReleasesChild(m, s, j);
      }
    }
    FollowedRun(m, MainFirstSchedule(s.i), MainFirst(s), i);
    FollowedRun(m, ChildFirstSchedule(s.i), ChildFirst(s), i);
  }
}
