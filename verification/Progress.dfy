/** A proof rule for runs under fair schedules, shared by every protocol of this project.

    A run of |acts| steps is described by a potential `phi[i]` and by a named helpful action
    `helpful[i]` before each step.  If the helpful action always lowers the potential, if every
    other action either lowers it or leaves both the potential and the helpful action alone, and
    if every window of `k` steps offers the action that is helpful at its start, then the
    potential reaches zero within `k * phi[0]` steps. */
module Progress {

  /** Action `a` is scheduled somewhere in the `k` steps from `i`. */
  ghost predicate Offered<A>(acts: seq<A>, i: nat, k: nat, a: A)
    requires i + k <= |acts|
  {
    exists j :: i <= j < i + k && acts[j] == a
  }

  ghost predicate Ranked<A>(acts: seq<A>, phi: seq<nat>, helpful: seq<A>)
  {
    && |phi| == |acts| + 1
    && |helpful| == |acts| + 1
    && (forall i :: 0 <= i < |acts| ==>
          phi[i+1] < phi[i] || (phi[i+1] == phi[i] && helpful[i+1] == helpful[i]) || phi[i] == phi[i+1] == 0)
    && (forall i :: 0 <= i < |acts| && 0 < phi[i] && acts[i] == helpful[i] ==> phi[i+1] < phi[i])
  }

  /** Until the potential drops, the same action stays helpful. */
  lemma {:induction false} HelpfulPersists<A>(acts: seq<A>, phi: seq<nat>, helpful: seq<A>, i: nat, j: nat)
    requires Ranked(acts, phi, helpful)
    requires i <= j <= |acts|
    ensures phi[j] < phi[i] || (phi[j] == phi[i] && helpful[j] == helpful[i]) || phi[i] == phi[j] == 0
    decreases j - i
  {
    if i == j {
    } else {
      HelpfulPersists(acts, phi, helpful, i, j - 1);
    }
  }

  lemma WindowDescends<A>(acts: seq<A>, phi: seq<nat>, helpful: seq<A>, i: nat, k: nat)
    requires Ranked(acts, phi, helpful)
    requires i + k <= |acts| && 0 < phi[i]
    requires Offered(acts, i, k, helpful[i])
    ensures phi[i+k] < phi[i]
  {
    var j :| i <= j < i + k && acts[j] == helpful[i];
    HelpfulPersists(acts, phi, helpful, i, j);
    HelpfulPersists(acts, phi, helpful, j + 1, i + k);
  }

  lemma OneFewer(k: nat, p: nat, q: nat)
    requires q < p
    ensures k * q + k <= k * p
  {
    var d: nat := p - q - 1;
    assert p == q + 1 + d;
    assert k * (q + 1 + d) == k * q + k + k * d;
  }

  /** The rule: a fair run that is long enough ends with potential zero. */
  lemma {:induction false} FairRunsFinish<A>(acts: seq<A>, phi: seq<nat>, helpful: seq<A>, k: nat, i: nat := 0)
    requires Ranked(acts, phi, helpful) && i <= |acts|
    requires forall j: nat :: j + k <= |acts| && 0 < phi[j] ==> Offered(acts, j, k, helpful[j])
    requires k * phi[i] <= |acts| - i
    ensures phi[|acts|] == 0
    decreases phi[i]
  {
    if phi[i] == 0 {
      HelpfulPersists(acts, phi, helpful, i, |acts|);
    } else {
      OneFewer(k, phi[i], 0);
      WindowDescends(acts, phi, helpful, i, k);
      OneFewer(k, phi[i], phi[i+k]);
      FairRunsFinish(acts, phi, helpful, k, i + k);
    }
  }
}
