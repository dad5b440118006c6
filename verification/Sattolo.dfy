/** The in-place shuffle of the block order.  The source calls it Fisher-Yates, but position `i`
    is exchanged with a position drawn below `i`, never with itself: it is Sattolo's variant,
    whose results are the permutations that consist of one single cycle. */
module Sattolo {

  // ----- maps on 0..n-1, written as sequences

  ghost predicate Permutation(p: seq<nat>) {
    && (forall x :: 0 <= x < |p| ==> p[x] < |p|)
    && (forall x, y :: 0 <= x < y < |p| ==> p[x] != p[y])
  }

  function Identity(n: nat): seq<nat> {
    seq(n, x requires 0 <= x < n => x)
  }

  /** Where `k` steps along the map lead from `x`. */
  ghost function Iterate(p: seq<nat>, x: nat, k: nat): (y: nat)
    requires Permutation(p) && x < |p|
    ensures y < |p|
  {
    if k == 0 then x else p[Iterate(p, x, k - 1)]
  }

  ghost predicate Reaches(p: seq<nat>, x: nat, y: nat)
    requires Permutation(p) && x < |p|
  {
    exists k: nat :: Iterate(p, x, k) == y
  }

  /** A permutation whose only orbit is everything, that is, one n-cycle. */
  ghost predicate SingleCycle(p: seq<nat>) {
    Permutation(p) && forall x, y :: 0 <= x < |p| && 0 <= y < |p| ==> Reaches(p, x, y)
  }

  lemma {:induction false} IterateAdds(p: seq<nat>, x: nat, k: nat, l: nat)
    requires Permutation(p) && x < |p|
    ensures Iterate(p, Iterate(p, x, k), l) == Iterate(p, x, k + l)
  {
    if l == 0 {
    } else {
      IterateAdds(p, x, k, l - 1);
    }
  }

  lemma ReachesTransitive(p: seq<nat>, x: nat, y: nat, z: nat)
    requires Permutation(p) && x < |p| && y < |p|
    requires Reaches(p, x, y) && Reaches(p, y, z)
    ensures Reaches(p, x, z)
  {
    var k: nat :| Iterate(p, x, k) == y;
    var l: nat :| Iterate(p, y, l) == z;
    IterateAdds(p, x, k, l);
  }

  lemma ReachesNext(p: seq<nat>, x: nat)
    requires Permutation(p) && x < |p|
    ensures Reaches(p, x, x) && Reaches(p, x, p[x])
  {
    assert Iterate(p, x, 0) == x;
    assert Iterate(p, x, 1) == p[Iterate(p, x, 0)];
  }

  lemma {:induction false} FixedStays(p: seq<nat>, x: nat, k: nat)
    requires Permutation(p) && x < |p| && p[x] == x
    ensures Iterate(p, x, k) == x
  {
    if k == 0 {
    } else {
      FixedStays(p, x, k - 1);
    }
  }

  /** A single cycle on two or more positions moves every one of them. */
  lemma NoFixedPoint(p: seq<nat>, x: nat)
    requires SingleCycle(p) && x < |p| && 2 <= |p|
    ensures p[x] != x
  {
    if p[x] == x {
      var y := if x == 0 then 1 else 0;
      assert Reaches(p, x, y);
      var k: nat :| Iterate(p, x, k) == y;
      FixedStays(p, x, k);
      assert false;
    }
  }

  // ----- growing a cycle by one position, and shrinking it again

  /** The new position |p| is put on the cycle of `j`, directly before `j`. */
  function InsertBefore(p: seq<nat>, j: nat): seq<nat> {
    seq(|p| + 1, x requires 0 <= x <= |p| => if x == |p| then j else if p[x] == j then |p| else p[x])
  }

  /** The last position is taken off its cycle. */
  function RemoveLast(p: seq<nat>): seq<nat>
    requires p != []
  {
    var m := |p| - 1;
    seq(m, x requires 0 <= x < m => if p[x] == m then p[m] else p[x])
  }

  lemma InsertKeepsPermutation(p: seq<nat>, j: nat)
    requires Permutation(p) && j < |p|
    ensures Permutation(InsertBefore(p, j))
  {
  }

  lemma RemoveKeepsPermutation(p: seq<nat>)
    requires Permutation(p) && p != [] && (|p| == 1 || p[|p|-1] != |p| - 1)
    ensures Permutation(RemoveLast(p))
  {
  }

  lemma RemoveUndoesInsert(p: seq<nat>, j: nat)
    requires Permutation(p) && j < |p|
    ensures RemoveLast(InsertBefore(p, j)) == p
  {
  }

  lemma InsertUndoesRemove(p: seq<nat>)
    requires Permutation(p) && 2 <= |p| && p[|p|-1] != |p| - 1
    ensures InsertBefore(RemoveLast(p), p[|p|-1]) == p
  {
  }

  /** Whatever could be reached before an insertion can still be reached. */
  lemma {:induction false} InsertKeepsOrbits(p: seq<nat>, j: nat, x: nat, k: nat)
    requires Permutation(p) && j < |p| && x < |p|
    ensures Permutation(InsertBefore(p, j))
    ensures Reaches(InsertBefore(p, j), x, Iterate(p, x, k))
  {
    InsertKeepsPermutation(p, j);
    var q := InsertBefore(p, j);
    if k == 0 {
      ReachesNext(q, x);
    } else {
      InsertKeepsOrbits(p, j, x, k - 1);
      var v := Iterate(p, x, k - 1);
      ReachesNext(q, v);
      ReachesTransitive(q, x, v, q[v]);
      if p[v] == j {
        ReachesNext(q, |p|);
        ReachesTransitive(q, x, |p|, j);
      }
    }
  }

  lemma {:induction false} RemoveKeepsOrbits(p: seq<nat>, x: nat, k: nat)
    requires Permutation(p) && 2 <= |p| && p[|p|-1] != |p| - 1
    requires x < |p| - 1 && Iterate(p, x, k) != |p| - 1
    ensures Permutation(RemoveLast(p))
    ensures Reaches(RemoveLast(p), x, Iterate(p, x, k))
  {
    RemoveKeepsPermutation(p);
    var q, m := RemoveLast(p), |p| - 1;
    if k == 0 {
      ReachesNext(q, x);
    } else {
      var l := if Iterate(p, x, k - 1) == m then k - 2 else k - 1;
      assert Iterate(p, x, k - 1) == m ==> k >= 2;
      RemoveKeepsOrbits(p, x, l);
      var v := Iterate(p, x, l);
      assert q[v] == Iterate(p, x, k);
      ReachesNext(q, v);
      ReachesTransitive(q, x, v, q[v]);
    }
  }

  lemma OldReachesOld(p: seq<nat>, j: nat, x: nat, y: nat)
    requires SingleCycle(p) && j < |p| && x < |p| && y < |p|
    ensures Permutation(InsertBefore(p, j)) && Reaches(InsertBefore(p, j), x, y)
  {
    assert Reaches(p, x, y);
    var k: nat :| Iterate(p, x, k) == y;
    InsertKeepsOrbits(p, j, x, k);
  }

  lemma Predecessor(p: seq<nat>, j: nat) returns (u: nat)
    requires SingleCycle(p) && j < |p|
    ensures u < |p| && p[u] == j
  {
    assert Reaches(p, p[j], j);
    var k: nat :| Iterate(p, p[j], k) == j;
    u := if k == 0 then j else Iterate(p, p[j], k - 1);
  }

  lemma InsertKeepsSingleCycle(p: seq<nat>, j: nat)
    requires SingleCycle(p) && j < |p|
    ensures SingleCycle(InsertBefore(p, j))
  {
    InsertKeepsPermutation(p, j);
    var q, m := InsertBefore(p, j), |p|;
    forall x, y | 0 <= x <= m && 0 <= y <= m ensures Reaches(q, x, y) {
      if x == m {
        ReachesNext(q, m);
        if y < m {
          OldReachesOld(p, j, j, y);
          ReachesTransitive(q, m, j, y);
        }
      } else if y < m {
        OldReachesOld(p, j, x, y);
      } else {
        var u := Predecessor(p, j);
        OldReachesOld(p, j, x, u);
        ReachesNext(q, u);
        ReachesTransitive(q, x, u, m);
      }
    }
  }

  lemma RemoveKeepsSingleCycle(p: seq<nat>)
    requires SingleCycle(p) && 2 <= |p|
    ensures p[|p|-1] < |p| - 1 && SingleCycle(RemoveLast(p))
  {
    NoFixedPoint(p, |p| - 1);
    RemoveKeepsPermutation(p);
    forall x, y | 0 <= x < |p| - 1 && 0 <= y < |p| - 1 ensures Reaches(RemoveLast(p), x, y) {
      assert Reaches(p, x, y);
      var k: nat :| Iterate(p, x, k) == y;
      RemoveKeepsOrbits(p, x, k);
    }
  }

  // ----- what the shuffle computes

  /** `choices[i]` is the position drawn for position `i + 1`; the loop guarantees it is below. */
  ghost predicate Valid(choices: seq<nat>) {
    forall i :: 0 <= i < |choices| ==> choices[i] <= i
  }

  /** The array once positions `lo` and up are final: each of them, in increasing order, was put
      on the cycle of its choice, directly before that choice. */
  function Partial(lo: nat, choices: seq<nat>): (p: seq<nat>)
    requires 1 <= lo <= |choices| + 1
    ensures |p| == |choices| + 1
  {
    var n := |choices| + 1;
    if lo == n then Identity(n)
    else InsertBefore(Partial(lo, choices[..n-2]), choices[n-2])
  }

  function Shuffled(choices: seq<nat>): seq<nat> {
    Partial(1, choices)
  }

  lemma {:induction false} PartialIsPermutation(lo: nat, choices: seq<nat>)
    requires 1 <= lo <= |choices| + 1 && Valid(choices)
    ensures Permutation(Partial(lo, choices))
  {
    if lo == |choices| + 1 {
    } else {
      PartialIsPermutation(lo, choices[..|choices|-1]);
      InsertKeepsPermutation(Partial(lo, choices[..|choices|-1]), choices[|choices|-1]);
    }
  }

  function Swap(p: seq<nat>, i: nat, j: nat): seq<nat>
    requires i < |p| && j < |p|
  {
    p[i := p[j]][j := p[i]]
  }

  /** One more exchange finalises one more position. */
  lemma {:induction false} SwapFinalises(lo: nat, choices: seq<nat>)
    requires 2 <= lo <= |choices| + 1 && Valid(choices)
    ensures Swap(Partial(lo, choices), lo - 1, choices[lo-2]) == Partial(lo - 1, choices)
  {
    var last := |choices| - 1;
    var init, j := choices[..last], choices[lo-2];
    if lo == |choices| + 1 {
      assert Partial(lo - 1, init) == Identity(lo - 1);
      assert Swap(Identity(lo), lo - 1, j) == InsertBefore(Identity(lo - 1), j);
    } else {
      SwapFinalises(lo, init);
      assert init[lo-2] == j;
      assert Swap(InsertBefore(Partial(lo, init), choices[last]), lo - 1, j)
          == InsertBefore(Swap(Partial(lo, init), lo - 1, j), choices[last]);
    }
  }

  /** `root` names an open position that the cycle of `x` runs through. */
  ghost predicate Rooted(lo: nat, p: seq<nat>, root: seq<nat>, x: nat)
    requires Permutation(p) && |root| == |p| && x < |p|
  {
    && root[x] < lo
    && root[p[x]] == root[x]
    && Reaches(p, x, root[x])
    && (x < lo ==> root[x] == x)
  }

  /** While positions below `lo` are open, every cycle holds exactly one of them: `root` is the
      same all along a cycle, every position reaches its own, and the open positions lie on
      different cycles because each is its own root. */
  ghost predicate OneOpenPositionPerCycle(lo: nat, p: seq<nat>, root: seq<nat>)
    requires Permutation(p)
  {
    |root| == |p| && forall x :: 0 <= x < |p| ==> Rooted(lo, p, root, x)
  }

  lemma InsertKeepsRoots(lo: nat, p: seq<nat>, root: seq<nat>, j: nat, x: nat)
    requires Permutation(p) && OneOpenPositionPerCycle(lo, p, root)
    requires lo <= |p| && j < |p| && x <= |p|
    ensures Permutation(InsertBefore(p, j))
    ensures Rooted(lo, InsertBefore(p, j), root + [root[j]], x)
  {
    InsertKeepsPermutation(p, j);
    var q := InsertBefore(p, j);
    var y := if x < |p| then x else j;
    assert Rooted(lo, p, root, y) && Rooted(lo, p, root, j);
    var k: nat :| Iterate(p, y, k) == root[y];
    InsertKeepsOrbits(p, j, y, k);
    if x == |p| {
      ReachesNext(q, x);
      ReachesTransitive(q, x, j, root[j]);
    }
  }

  lemma {:induction false} OpenPositions(lo: nat, choices: seq<nat>) returns (root: seq<nat>)
    requires 1 <= lo <= |choices| + 1 && Valid(choices)
    ensures Permutation(Partial(lo, choices))
    ensures OneOpenPositionPerCycle(lo, Partial(lo, choices), root)
    ensures lo <= |choices| ==> root[lo] == choices[lo-1]
  {
    PartialIsPermutation(lo, choices);
    var q := Partial(lo, choices);
    if lo == |choices| + 1 {
      root := Identity(lo);
      forall x | 0 <= x < |q| ensures Rooted(lo, q, root, x) {
        ReachesNext(q, x);
      }
    } else {
      var last := |choices| - 1;
      var before := OpenPositions(lo, choices[..last]);
      root := before + [before[choices[last]]];
      forall x | 0 <= x < |q| ensures Rooted(lo, q, root, x) {
        InsertKeepsRoots(lo, Partial(lo, choices[..last]), before, choices[last], x);
      }
      if lo == |choices| {
        assert Rooted(lo, Partial(lo, choices[..last]), before, choices[last]);
      }
    }
  }

  lemma {:induction false} RootConstant(lo: nat, p: seq<nat>, root: seq<nat>, x: nat, k: nat)
    requires Permutation(p) && OneOpenPositionPerCycle(lo, p, root) && x < |p|
    ensures root[Iterate(p, x, k)] == root[x]
  {
    if k == 0 {
    } else {
      RootConstant(lo, p, root, x, k - 1);
      assert Rooted(lo, p, root, Iterate(p, x, k - 1));
    }
  }

  /** Each exchange of the loop merges two different cycles. */
  lemma SwapMergesCycles(lo: nat, choices: seq<nat>)
    requires 2 <= lo <= |choices| + 1 && Valid(choices)
    ensures Permutation(Partial(lo, choices)) && Permutation(Partial(lo - 1, choices))
    ensures !Reaches(Partial(lo, choices), lo - 1, choices[lo-2])
    ensures Reaches(Partial(lo - 1, choices), lo - 1, choices[lo-2])
  {
    var i, j := lo - 1, choices[lo-2];
    var p, q := Partial(lo, choices), Partial(lo - 1, choices);
    var root := OpenPositions(lo, choices);
    assert Rooted(lo, p, root, i) && Rooted(lo, p, root, j);
    if Reaches(p, i, j) {
      var k: nat :| Iterate(p, i, k) == j;
      RootConstant(lo, p, root, i, k);
      assert false;
    }
    var merged := OpenPositions(lo - 1, choices);
    assert Rooted(lo - 1, q, merged, i);
  }

  /** Every outcome of the shuffle is one single cycle. */
  lemma {:induction false} ShuffledIsSingleCycle(choices: seq<nat>)
    requires Valid(choices)
    ensures SingleCycle(Shuffled(choices))
  {
    if choices == [] {
      assert Shuffled(choices) == [0];
      ReachesNext([0], 0);
    } else {
      var last := |choices| - 1;
      ShuffledIsSingleCycle(choices[..last]);
      InsertKeepsSingleCycle(Shuffled(choices[..last]), choices[last]);
    }
  }

  // ----- choices and single cycles are in bijection

  /** Reads the choices back from the result. */
  function ChoicesOf(p: seq<nat>): seq<nat>
    requires p != []
    decreases |p|
  {
    if |p| == 1 then [] else ChoicesOf(RemoveLast(p)) + [p[|p|-1]]
  }

  /** Different choices give different results... */
  lemma {:induction false} ChoicesRecovered(choices: seq<nat>)
    requires Valid(choices)
    ensures ChoicesOf(Shuffled(choices)) == choices
  {
    if choices == [] {
    } else {
      var last := |choices| - 1;
      var p, j := Shuffled(choices[..last]), choices[last];
      PartialIsPermutation(1, choices[..last]);
      ChoicesRecovered(choices[..last]);
      RemoveUndoesInsert(p, j);
      assert choices == choices[..last] + [j];
    }
  }

  /** ...and every single cycle is the result of some choices. */
  lemma {:induction false} EveryCycleIsShuffled(p: seq<nat>)
    requires SingleCycle(p) && p != []
    ensures Valid(ChoicesOf(p)) && |ChoicesOf(p)| == |p| - 1
    ensures Shuffled(ChoicesOf(p)) == p
    decreases |p|
  {
    if |p| == 1 {
      assert p == [0];
    } else {
      var q := RemoveLast(p);
      RemoveKeepsSingleCycle(p);
      EveryCycleIsShuffled(q);
      InsertUndoesRemove(p);
      assert ChoicesOf(p)[..|p|-2] == ChoicesOf(q);
    }
  }
}
