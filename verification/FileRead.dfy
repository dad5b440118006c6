/** Reading a file block by block in the order left by the shuffle. */
module FileRead {
  import opened Sattolo
  import opened Sets

  const BLOCK_SIZE: int := 4096

  /** The choices made by a stream of rand() values: the loop runs from the last position down,
      so the first value, `draws(0)`, decides for position n - 1. */
  function ChoicesFrom(draws: nat -> nat, n: nat): seq<nat> {
    if n == 0 then [] else seq(n - 1, t requires 0 <= t < n - 1 => draws(n - 2 - t) % (t + 1))
  }

  /** The order in which the blocks are read. */
  function BlockOrder(n: nat, random: bool, draws: nat -> nat): seq<nat> {
    if random && n != 0 then Shuffled(ChoicesFrom(draws, n)) else Identity(n)
  }

  method FillIndices(indices: array<nat>)
    modifies indices
    ensures indices[..] == Identity(indices.Length)
  {
    var i := 0;
    while i < indices.Length
      invariant i <= indices.Length
      invariant forall x :: 0 <= x < i ==> indices[x] == x
    {
      indices[i] := i;
      i := i + 1;
    }
  }

  lemma NothingFinal(n: nat, draws: nat -> nat)
    requires 0 < n
    ensures |ChoicesFrom(draws, n)| == n - 1 && Valid(ChoicesFrom(draws, n))
    ensures Partial(n, ChoicesFrom(draws, n)) == Identity(n)
  {
  }

  /** The exchange the loop performs at `i` finalises position `i`. */
  lemma ExchangeFinalises(n: nat, draws: nat -> nat, i: nat)
    requires 0 < i < n
    ensures |ChoicesFrom(draws, n)| == n - 1
    ensures Swap(Partial(i + 1, ChoicesFrom(draws, n)), i, draws(n - 1 - i) % i) == Partial(i, ChoicesFrom(draws, n))
  {
    assert ChoicesFrom(draws, n)[i-1] == draws(n - 1 - i) % i;
    SwapFinalises(i + 1, ChoicesFrom(draws, n));
  }

  lemma EverythingFinal(n: nat, draws: nat -> nat)
    ensures 0 < n ==> |ChoicesFrom(draws, n)| == n - 1
    ensures BlockOrder(n, true, draws) == if n == 0 then Identity(0) else Partial(1, ChoicesFrom(draws, n))
    ensures SingleCycle(BlockOrder(n, true, draws))
  {
    if n > 0 {
      ShuffledIsSingleCycle(ChoicesFrom(draws, n));
    }
  }

  /** The shuffle loop.  Its invariant is the reference definition `Partial`, hence also that each
      cycle of the map holds exactly one position the loop has not finalised yet. */
  method Shuffle(indices: array<nat>, draws: nat -> nat)
    requires indices[..] == Identity(indices.Length)
    modifies indices
    ensures indices[..] == BlockOrder(indices.Length, true, draws)
    ensures SingleCycle(indices[..])
  {
    hide Partial, ChoicesFrom, BlockOrder, SingleCycle, Identity;
    ghost var n := indices.Length;
    if indices.Length > 0 {
      NothingFinal(n, draws);
    }
    EverythingFinal(n, draws);
    var i := indices.Length - 1;
    while i > 0
      invariant -1 <= i < n && (i == -1 ==> n == 0 && indices[..] == Identity(0))
      invariant 0 <= i ==> indices[..] == Partial(i + 1, ChoicesFrom(draws, n))
    {
      ghost var p := indices[..];
      var j := draws(indices.Length - 1 - i) % i;
      var temp := indices[i];
      indices[i] := indices[j];
      indices[j] := temp;
      ExchangeFinalises(n, draws, i);
      assert indices[..] == Swap(p, i, j);
      i := i - 1;
    }
  }

  // ----- coverage

  ghost predicate InBlockAt(offset: int, byte: int) {
    offset <= byte < offset + BLOCK_SIZE
  }

  ghost predicate Covered(offsets: seq<int>, byte: int) {
    exists t :: 0 <= t < |offsets| && InBlockAt(offsets[t], byte)
  }

  /** The reads stay inside the first `n` blocks, never overlap, and leave no byte out. */
  ghost predicate ReadsEachBlockOnce(offsets: seq<int>, n: nat) {
    && |offsets| == n
    && (forall t :: 0 <= t < n ==> 0 <= offsets[t] && offsets[t] + BLOCK_SIZE <= n * BLOCK_SIZE)
    && (forall t, u :: 0 <= t < u < n ==>
          offsets[t] + BLOCK_SIZE <= offsets[u] || offsets[u] + BLOCK_SIZE <= offsets[t])
    && (forall byte :: 0 <= byte < n * BLOCK_SIZE ==> Covered(offsets, byte))
  }

  function Offsets(order: seq<nat>): seq<int> {
    seq(|order|, t requires 0 <= t < |order| => order[t] * BLOCK_SIZE)
  }

  lemma {:induction false} ImageSize(p: seq<nat>, k: nat)
    requires Permutation(p) && k <= |p|
    ensures |set x | 0 <= x < k :: p[x]| == k
  {
    if k == 0 {
    } else {
      ImageSize(p, k - 1);
      assert (set x | 0 <= x < k :: p[x]) == (set x | 0 <= x < k - 1 :: p[x]) + {p[k-1]};
    }
  }

  /** An injective map of 0..n-1 into itself misses nothing. */
  lemma {:induction false} PermutationIsOnto(p: seq<nat>, y: nat)
    requires Permutation(p) && y < |p|
    ensures y in p
  {
    if y !in p {
      var image := set x | 0 <= x < |p| :: p[x];
      ImageSize(p, |p|);
      assert image == set x | 0 <= x < |p| :: p[x];
      assert image <= Below(|p|) - {y};
      SubsetSize(image, Below(|p|) - {y});
    }
  }

  lemma PermutationCovers(order: seq<nat>)
    requires Permutation(order)
    ensures ReadsEachBlockOnce(Offsets(order), |order|)
  {
    var n, offsets := |order|, Offsets(order);
    forall byte | 0 <= byte < n * BLOCK_SIZE ensures Covered(offsets, byte) {
      var block := byte / BLOCK_SIZE;
      PermutationIsOnto(order, block);
      var t :| 0 <= t < n && order[t] == block;
      assert InBlockAt(offsets[t], byte);
    }
  }

  lemma OrderIsPermutation(n: nat, random: bool, draws: nat -> nat)
    ensures |BlockOrder(n, random, draws)| == n && Permutation(BlockOrder(n, random, draws))
  {
    if random && n != 0 {
      PartialIsPermutation(1, ChoicesFrom(draws, n));
    }
  }

  /** The blocks at these offsets, taken as a map from the position in the order of reading to the
      block read there, are one single cycle. */
  ghost predicate FollowsCycle(offsets: seq<int>) {
    exists order :: SingleCycle(order) && |order| == |offsets|
                    && forall t :: 0 <= t < |offsets| ==> offsets[t] == 4096 * order[t]
  }

  lemma CycleOrder(order: seq<nat>)
    requires SingleCycle(order)
    ensures FollowsCycle(Offsets(order))
  {
    assert forall t :: 0 <= t < |order| ==> Offsets(order)[t] == 4096 * order[t];
  }

  /** The first draw decides which block is read last. */
  lemma FirstDrawDecidesLast(n: nat, draws: nat -> nat)
    requires 2 <= n
    ensures |BlockOrder(n, true, draws)| == n
    ensures BlockOrder(n, true, draws)[n-1] == draws(0) % (n - 1)
  {
    OrderIsPermutation(n, true, draws);
    assert BlockOrder(n, true, draws)[n-1] == ChoicesFrom(draws, n)[n-2];
  }

  /** From the order of reading every draw can be read back, the first one for the last position. */
  lemma DrawsRecovered(n: nat, draws: nat -> nat, t: nat)
    requires t + 1 < n
    ensures var order := BlockOrder(n, true, draws);
            && |order| == n && |ChoicesOf(order)| == n - 1
            && ChoicesOf(order)[t] == draws(n - 2 - t) % (t + 1)
  {
    hide Permutation, Valid, ChoicesOf, Partial, Shuffled;
    OrderIsPermutation(n, true, draws);
    NothingFinal(n, draws);
    ChoicesRecovered(ChoicesFrom(draws, n));
  }

  /** Four blocks under draws that pick the last candidate every time. */
  lemma FourBlocks(draws: nat -> nat)
    requires draws(0) % 3 == 2 && draws(1) % 2 == 1
    ensures BlockOrder(4, true, draws) == [3, 0, 1, 2]
  {
    var choices := ChoicesFrom(draws, 4);
    assert choices == [0, 1, 2];
    assert choices[..2] == [0, 1] && choices[..2][..1] == [0] && choices[..2][..1][..0] == [];
    assert Partial(1, [0]) == [1, 0];
    assert Partial(1, [0, 1]) == [2, 0, 1];
  }

  /** The offsets passed to pread, in the order of the calls. */
  method MeasureAccess(n: nat, random: bool, draws: nat -> nat) returns (offsets: seq<int>)
    ensures offsets == Offsets(BlockOrder(n, random, draws))
    ensures ReadsEachBlockOnce(offsets, n)
    ensures !random ==> forall t :: 0 <= t < n ==> offsets[t] == 4096 * t
    ensures random ==> FollowsCycle(offsets)
    ensures random && 2 <= n ==> offsets[n-1] == 4096 * (draws(0) % (n - 1))
  {
    var indices := new nat[n];
    FillIndices(indices);
    if random {
      Shuffle(indices, draws);
    }
    offsets := [];
    var i := 0;
    while i < n
      invariant i <= n && |offsets| == i
      invariant forall t :: 0 <= t < i ==> offsets[t] == indices[t] * BLOCK_SIZE
    {
      offsets := offsets + [indices[i] * BLOCK_SIZE];
      i := i + 1;
    }
    OrderIsPermutation(n, random, draws);
    PermutationCovers(BlockOrder(n, random, draws));
    assert indices[..] == BlockOrder(n, random, draws);
    if random {
      EverythingFinal(n, draws);
      CycleOrder(BlockOrder(n, true, draws));
      if 2 <= n {
        FirstDrawDecidesLast(n, draws);
      }
    }
  }

  /** For every file size an int can hold, the reads cover the whole blocks of the file and only
      those, and neither a product nor an end offset leaves the range of a 32-bit int. */
  method PrintFor(numBytes: int, random: bool, draws: nat -> nat) returns (offsets: seq<int>)
    requires 0 <= numBytes <= 0x7fff_ffff
    ensures ReadsEachBlockOnce(offsets, numBytes / BLOCK_SIZE)
    ensures |offsets| * BLOCK_SIZE <= numBytes < (|offsets| + 1) * BLOCK_SIZE
    ensures forall t :: 0 <= t < |offsets| ==> 0 <= offsets[t] <= offsets[t] + BLOCK_SIZE <= 0x7fff_ffff
    ensures !random ==> forall t :: 0 <= t < |offsets| ==> offsets[t] == 4096 * t
    ensures random ==> FollowsCycle(offsets)
  {
    var numBlocks := numBytes / BLOCK_SIZE;
    offsets := MeasureAccess(numBlocks, random, draws);
  }
}
