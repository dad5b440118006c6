/** The round trips of the network benchmark: send a payload to a TCP echo service, which returns
    every byte in order (RFC 862, TCP Based Echo Service), and call recv until as many bytes as
    were sent have been counted. */
module EchoDrain {

  function Min(a: int, b: int): int { if a < b then a else b }

  /** What recv returns: -1 on failure, else at most the buffer size and at most what is there.
      The outcome `o` is the network's choice; 0 stands for a call that delivered nothing. */
  function RecvResult(o: int, size: nat, pending: nat): (r: int)
    ensures -1 <= r <= pending && r <= size
  {
    if o < 0 then -1 else Min(o, Min(size, pending))
  }

  /** The loop condition compares the int total with an unsigned size. */
  function AsUnsigned(total: int): int {
    total % 0x1_0000_0000
  }

  /** Bytes counted, bytes still to come, failed calls, and whether the loop condition turned false
      before the given outcomes were used up. */
  datatype Drain = Drain(total: int, pending: nat, errors: nat, ended: bool)

  function DrainLoop(size: nat, total: int, pending: nat, errors: nat, outcomes: seq<int>): Drain
    decreases |outcomes|
  {
    if size <= AsUnsigned(total) then Drain(total, pending, errors, true)
    else if outcomes == [] then Drain(total, pending, errors, false)
    else
      var r := RecvResult(outcomes[0], size, pending);
      if r < 0 then DrainLoop(size, total - 1, pending, errors + 1, outcomes[1..])
      else DrainLoop(size, total + r, pending - r, errors, outcomes[1..])
  }

  /** Nothing is lost, in any round, also one that starts with leftovers of earlier ones: what was
      counted, what is still to come and what was miscounted as -1 per failed call add up.  The
      total stays below twice the payload, and the loop ends exactly when the total is -1, which
      compares as a huge unsigned number, or has reached the payload. */
  lemma {:induction false} DrainConserves(size: nat, total: int, pending: nat, errors: nat, outcomes: seq<int>)
    requires 0 < size <= 0x7fff_ffff && -1 <= total < 2 * size
    ensures var d := DrainLoop(size, total, pending, errors, outcomes);
            && d.total + d.pending + d.errors == total + pending + errors
            && -1 <= d.total < 2 * size
            && errors <= d.errors && d.pending <= pending
            && (d.ended <==> d.total == -1 || size <= d.total)
    decreases |outcomes|
  {
    assert AsUnsigned(total) == if total < 0 then 0xffff_ffff else total;
    if size <= AsUnsigned(total) || outcomes == [] {
    } else {
      var r := RecvResult(outcomes[0], size, pending);
      if r < 0 {
        DrainConserves(size, total - 1, pending, errors + 1, outcomes[1..]);
      } else {
        DrainConserves(size, total + r, pending - r, errors, outcomes[1..]);
      }
    }
  }

  function SumInts(s: seq<int>): int {
    if s == [] then 0 else s[0] + SumInts(s[1..])
  }

  ghost predicate DeliversBy(size: int, outcomes: seq<int>, k: nat) {
    && k <= |outcomes|
    && (forall i :: 0 <= i < k ==> 0 <= outcomes[i])
    && size <= SumInts(outcomes[..k])
  }

  /** Before any failure, the network delivers at least `size` bytes. */
  ghost predicate Delivers(size: int, outcomes: seq<int>) {
    exists k: nat :: DeliversBy(size, outcomes, k)
  }

  lemma DeliversAtOnce(size: int, outcomes: seq<int>)
    ensures size <= 0 ==> Delivers(size, outcomes)
    ensures outcomes == [] && Delivers(size, outcomes) ==> size <= 0
  {
    if size <= 0 {
      assert DeliversBy(size, outcomes, 0);
    }
  }

  lemma DeliversTail(size: int, outcomes: seq<int>)
    requires 0 < size && outcomes != []
    ensures Delivers(size, outcomes) <==> 0 <= outcomes[0] && Delivers(size - outcomes[0], outcomes[1..])
  {
    if Delivers(size, outcomes) {
      var k: nat :| DeliversBy(size, outcomes, k);
      assert k > 0;
      assert outcomes[..k][1..] == outcomes[1..][..k-1];
      assert DeliversBy(size - outcomes[0], outcomes[1..], k - 1);
    }
    if 0 <= outcomes[0] && Delivers(size - outcomes[0], outcomes[1..]) {
      var k: nat :| DeliversBy(size - outcomes[0], outcomes[1..], k);
      assert outcomes[..k+1][1..] == outcomes[1..][..k];
      assert DeliversBy(size, outcomes, k + 1);
    }
  }

  lemma {:induction false} DrainsFrom(size: nat, total: nat, pending: nat, errors: nat, outcomes: seq<int>)
    requires 0 < size <= 0x7fff_ffff && total < 2 * size && size <= total + pending
    ensures var d := DrainLoop(size, total, pending, errors, outcomes);
            (d.ended && d.errors == errors) <==> Delivers(size - total, outcomes)
    decreases |outcomes|
  {
    hide Delivers;
    assert AsUnsigned(total) == total;
    DeliversAtOnce(size - total, outcomes);
    if size <= total || outcomes == [] {
    } else {
      var r := RecvResult(outcomes[0], size, pending);
      DeliversTail(size - total, outcomes);
      if r < 0 {
        DrainConserves(size, total - 1, pending, errors + 1, outcomes[1..]);
      } else {
        DrainsFrom(size, total + r, pending - r, errors, outcomes[1..]);
        if r < outcomes[0] {
          DeliversAtOnce(size - total - r, outcomes[1..]);
          DeliversAtOnce(size - total - outcomes[0], outcomes[1..]);
        }
      }
    }
  }

  /** The loop of a round ends without a failed call if and only if the network delivers the
      payload before any failure, whatever is left over from earlier rounds. */
  lemma EndsIffDelivered(size: nat, leftover: nat, errors: nat, outcomes: seq<int>)
    requires 0 < size <= 0x7fff_ffff
    ensures var d := DrainLoop(size, 0, leftover + size, errors, outcomes);
            (d.ended && d.errors == errors) <==> Delivers(size, outcomes)
  {
    DrainsFrom(size, 0, leftover + size, errors, outcomes);
  }

  /** A round that starts clean ends with exactly the bytes sent, none left over and no failed
      call, if and only if the network delivers the payload before any failure; if it ends
      otherwise, it ends with the total -1. */
  lemma DrainExactIffDelivered(size: nat, outcomes: seq<int>)
    requires 0 < size <= 0x7fff_ffff
    ensures var d := DrainLoop(size, 0, size, 0, outcomes);
            && (d == Drain(size, 0, 0, true) <==> Delivers(size, outcomes))
            && (d.ended && !Delivers(size, outcomes) ==> d.total == -1 && 0 < d.errors)
  {
    EndsIffDelivered(size, 0, 0, outcomes);
    DrainConserves(size, 0, size, 0, outcomes);
  }

  lemma {:induction false} PositiveSum(outcomes: seq<int>)
    requires forall o :: o in outcomes ==> 0 < o
    ensures |outcomes| <= SumInts(outcomes)
  {
    if outcomes == [] {
    } else {
      assert outcomes[0] in outcomes && forall o :: o in outcomes[1..] ==> o in outcomes;
      PositiveSum(outcomes[1..]);
    }
  }

  /** However the network splits the echo into non-empty chunks, the loop ends with all of it. */
  lemma AnyChunkingDrains(size: nat, outcomes: seq<int>)
    requires 0 < size <= 0x7fff_ffff && size <= |outcomes|
    requires forall o :: o in outcomes ==> 0 < o
    ensures Delivers(size, outcomes)
    ensures DrainLoop(size, 0, size, 0, outcomes) == Drain(size, 0, 0, true)
  {
    PositiveSum(outcomes);
    assert outcomes[..|outcomes|] == outcomes;
    assert forall i :: 0 <= i < |outcomes| ==> outcomes[i] in outcomes;
    assert DeliversBy(size, outcomes, |outcomes|);
    DrainExactIffDelivered(size, outcomes);
  }

  /** A single failure at the start ends the round at once, with the whole echo still to come... */
  lemma EarlyErrorLeavesEverything(size: nat, outcomes: seq<int>)
    requires 0 < size <= 0x7fff_ffff && outcomes != [] && outcomes[0] < 0
    ensures !Delivers(size, outcomes)
    ensures DrainLoop(size, 0, size, 0, outcomes) == Drain(-1, size, 1, true)
  {
    DrainExactIffDelivered(size, outcomes);
  }

  /** ...and the next round counts bytes of the previous one: 160 instead of 100. */
  lemma LeftoversAreCounted()
    ensures DrainLoop(100, 0, 200, 1, [60, 100]) == Drain(160, 40, 1, true)
  {
    assert [60, 100][1..] == [100] && [100][1..] == [];
    assert DrainLoop(100, 60, 140, 1, [100]) == DrainLoop(100, 160, 40, 1, []);
  }

  /** After bytes have been counted a failed call does not end the loop: it is worth one byte less,
      and with leftovers of an earlier round to read the count is made up. */
  lemma LaterErrorIsHidden()
    ensures DrainLoop(100, 0, 200, 0, [60, -1, 41]) == Drain(100, 99, 1, true)
  {
    assert [60, -1, 41][1..] == [-1, 41] && [-1, 41][1..] == [41] && [41][1..] == [];
    assert DrainLoop(100, 60, 140, 0, [-1, 41]) == DrainLoop(100, 59, 140, 1, [41]);
    assert DrainLoop(100, 59, 140, 1, [41]) == DrainLoop(100, 100, 99, 1, []);
  }

  // ----- sessions

  function Repeated(size: nat, count: nat): (r: seq<nat>)
    ensures |r| == count && forall i :: 0 <= i < count ==> r[i] == size
  {
    seq(count, _ => size)
  }

  /** The payload sizes of one session after the warm-up: each size `count` times. */
  function Payloads(size: nat, max: nat, step: nat, count: nat): seq<nat>
    requires 0 < step
    decreases max + step - size
  {
    if max < size then [] else Repeated(size, count) + Payloads(size + step, max, step, count)
  }

  /** There are as many sizes as steps fit below `max`, ... */
  lemma {:induction false} PayloadsLength(size: nat, max: nat, step: nat, count: nat) returns (sizes: nat)
    requires 0 < step
    ensures |Payloads(size, max, step, count)| == sizes * count
    ensures max < size + sizes * step
    ensures 0 < sizes ==> size + (sizes - 1) * step <= max
    decreases max + step - size
  {
    if max < size {
      sizes := 0;
    } else {
      var rest := PayloadsLength(size + step, max, step, count);
      sizes := rest + 1;
      assert sizes * count == rest * count + count && sizes * step == rest * step + step;
    }
  }

  /** ...and the `j`-th of them is sent `count` times in a row. */
  lemma {:induction false} PayloadAt(size: nat, max: nat, step: nat, count: nat, j: nat, t: nat)
    requires 0 < step && size + j * step <= max && t < count
    ensures 0 <= j * count + t < |Payloads(size, max, step, count)|
    ensures Payloads(size, max, step, count)[j * count + t] == size + j * step
    decreases j
  {
    if j == 0 {
    } else {
      var i := (j - 1) * count + t;
      assert (j - 1) * step == j * step - step;
      PayloadAt(size + step, max, step, count, j - 1, t);
      assert j * count + t == count + i;
    }
  }

  lemma PayloadsUnfold(done: seq<nat>, size: nat, max: nat, step: nat, count: nat)
    requires 0 < step && size <= max
    ensures done + Payloads(size, max, step, count)
         == (done + Repeated(size, count)) + Payloads(size + step, max, step, count)
  {
  }

  lemma NoPayloadsLeft(done: seq<nat>, size: nat, max: nat, step: nat, count: nat)
    requires 0 < step && max < size
    ensures done + Payloads(size, max, step, count) == done
  {
  }

  function Sum(sizes: seq<nat>): nat {
    if sizes == [] then 0 else Sum(sizes[..|sizes|-1]) + sizes[|sizes|-1]
  }

  /** In every round the network delivers that round's payload before any failure. */
  ghost predicate AllDelivered(sizes: seq<nat>, outcomes: nat -> seq<int>) {
    forall i :: 0 <= i < |sizes| ==> Delivers(sizes[i], outcomes(i))
  }

  lemma OneMoreDelivered(sizes: seq<nat>, size: nat, outcomes: nat -> seq<int>)
    ensures AllDelivered(sizes + [size], outcomes)
       <==> AllDelivered(sizes, outcomes) && Delivers(size, outcomes(|sizes|))
  {
    var longer := sizes + [size];
    if AllDelivered(longer, outcomes) {
      forall i | 0 <= i < |sizes| ensures Delivers(sizes[i], outcomes(i)) {
        assert longer[i] == sizes[i];
      }
      assert longer[|sizes|] == size;
    }
  }

  lemma UndeliveredPrefix(sizes: seq<nat>, longer: seq<nat>, outcomes: nat -> seq<int>)
    requires sizes <= longer && !AllDelivered(sizes, outcomes)
    ensures !AllDelivered(longer, outcomes)
  {
    var i :| 0 <= i < |sizes| && !Delivers(sizes[i], outcomes(i));
    assert longer[i] == sizes[i];
  }

  class Client {
    /** Everything written to the socket, everything read from it, what is still on its way back,
        the final totals of the rounds that ended, and the number of failed recv calls. */
    var sent: seq<char>
    var received: seq<char>
    var pending: seq<char>
    var totals: seq<int>
    var errors: nat

    /** Bytes are neither lost nor reordered. */
    ghost predicate Valid()
      reads this
    {
      sent == received + pending
    }

    /** Every round counted exactly its own payload, and every byte sent has come back. */
    ghost predicate Exact(sizes: seq<nat>)
      reads this
    {
      && Valid()
      && totals == sizes
      && pending == []
      && received == sent
      && |received| == Sum(sizes)
    }

    /** After one ended round for each of `sizes`: the rounds were exact if and only if the network
        delivered every payload before any failure. */
    ghost predicate Tracks(sizes: seq<nat>, outcomes: nat -> seq<int>)
      reads this
    {
      && Valid()
      && |totals| == |sizes|
      && (AllDelivered(sizes, outcomes) <==> Exact(sizes))
      && (AllDelivered(sizes, outcomes) <==> errors == 0)
      && (AllDelivered(sizes, outcomes) <==> totals == sizes)
    }

    constructor ()
      ensures Exact([]) && errors == 0
    {
      sent, received, pending, totals, errors := [], [], [], [], 0;
    }

    method Send(data: seq<char>)
      requires Valid()
      modifies this`sent, this`pending
      ensures Valid() && sent == old(sent) + data && pending == old(pending) + data
    {
      sent, pending := sent + data, pending + data;
    }

    method Recv(size: nat, o: int) returns (r: int)
      requires Valid()
      modifies this`received, this`pending, this`errors
      ensures Valid() && r == RecvResult(o, size, |old(pending)|)
      ensures errors == old(errors) + (if r < 0 then 1 else 0)
      ensures |pending| == |old(pending)| - (if r < 0 then 0 else r)
      ensures |received| == |old(received)| + (if r < 0 then 0 else r)
    {
      r := RecvResult(o, size, |pending|);
      if r < 0 {
        errors := errors + 1;
      } else {
        received, pending := received + pending[..r], pending[r..];
      }
    }

    /** One round: send, then drain.  It does not end if recv blocks after the given outcomes. */
    method Round(size: nat, outcomes: seq<int>) returns (ended: bool)
      requires Valid()
      modifies this
      ensures Valid()
      ensures sent == old(sent) + seq(size, _ => 'b')
      ensures var d := DrainLoop(size, 0, |old(pending)| + size, old(errors), outcomes);
              && ended == d.ended && |pending| == d.pending && errors == d.errors
              && totals == (if ended then old(totals) + [d.total] else old(totals))
      ensures |received| + |pending| == |old(received)| + |old(pending)| + size
    {
      Send(seq(size, _ => 'b'));
      var total := 0;
      var i := 0;
      while AsUnsigned(total) < size && i < |outcomes|
        invariant i <= |outcomes| && Valid()
        invariant sent == old(sent) + seq(size, _ => 'b') && totals == old(totals)
        invariant |received| + |pending| == |old(received)| + |old(pending)| + size
        invariant DrainLoop(size, total, |pending|, errors, outcomes[i..])
               == DrainLoop(size, 0, |old(pending)| + size, old(errors), outcomes)
        decreases |outcomes| - i
      {
        var r := Recv(size, outcomes[i]);
        total := total + r;
        i := i + 1;
      }
      ended := size <= AsUnsigned(total);
      if ended {
        totals := totals + [total];
      }
    }

    /** One more round keeps track, and ends if everything was and is delivered. */
    method TrackedRound(size: nat, outcomes: nat -> seq<int>, ghost sizes: seq<nat>) returns (ended: bool)
      requires 0 < size <= 0x7fff_ffff && Tracks(sizes, outcomes)
      modifies this
      ensures Valid()
      ensures ended ==> Tracks(sizes + [size], outcomes)
      ensures !ended ==> !AllDelivered(sizes + [size], outcomes)
    {
      ghost var before, clean := totals, errors == 0;
      ghost var os := outcomes(|totals|);
      ended := Round(size, outcomes(|totals|));
      OneMoreDelivered(sizes, size, outcomes);
      DrainConserves(size, 0, |old(pending)| + size, old(errors), os);
      if clean {
        DrainExactIffDelivered(size, os);
        assert (sizes + [size])[..|sizes|] == sizes;
      } else if ended {
        assert totals[..|before|] == before && (sizes + [size])[..|sizes|] == sizes;
      }
    }

    /** The rounds of one payload size. */
    method RoundsOf(size: nat, count: nat, outcomes: nat -> seq<int>, ghost sizes: seq<nat>) returns (ended: bool)
      requires 0 < size <= 0x7fff_ffff && Tracks(sizes, outcomes)
      modifies this
      ensures Valid()
      ensures ended ==> Tracks(sizes + Repeated(size, count), outcomes)
      ensures !ended ==> !AllDelivered(sizes + Repeated(size, count), outcomes)
    {
      ended := true;
      var test := 0;
      assert sizes + Repeated(size, 0) == sizes;
      while test < count
        invariant test <= count && Tracks(sizes + Repeated(size, test), outcomes)
      {
        ghost var done := sizes + Repeated(size, test);
        ended := TrackedRound(size, outcomes, done);
        if !ended {
          assert sizes + Repeated(size, count) == (done + [size]) + Repeated(size, count - test - 1);
          UndeliveredPrefix(done + [size], sizes + Repeated(size, count), outcomes);
          return;
        }
        assert done + [size] == sizes + Repeated(size, test + 1);
        test := test + 1;
      }
      ended := true;
    }

    /** The whole session: a warm-up, then `count` rounds of every size from `start` to `max`;
        `outcomes(i)` are the network's choices for round `i`.  The session completes with every
        round exact and every byte back, in order, if and only if the network delivers every
        payload before any failure; if it completes otherwise, some round miscounted. */
    method TcpPing(start: nat, max: nat, step: nat, count: nat, outcomes: nat -> seq<int>) returns (ended: bool)
      requires 0 < start <= 0x7fff_ffff && max + step <= 0x7fff_ffff && 0 < step
      requires Exact([]) && errors == 0
      modifies this
      ensures Valid()
      ensures var sizes := [start] + Payloads(start, max, step, count);
              && (AllDelivered(sizes, outcomes) <==> ended && Exact(sizes))
              && (ended && !AllDelivered(sizes, outcomes) ==> totals != sizes && 0 < errors)
    {
      ghost var sizes := [start] + Payloads(start, max, step, count);
      assert Tracks([], outcomes) && [] + [start] == [start];
      hide AllDelivered, Payloads, Sum;
      ended := TrackedRound(start, outcomes, []);
      if !ended {
        UndeliveredPrefix([start], sizes, outcomes);
        return;
      }
      ghost var done: seq<nat> := [start];
      var size := start;
      while size <= max
        invariant 0 < size && Tracks(done, outcomes)
        invariant done + Payloads(size, max, step, count) == sizes
        decreases max + step - size
      {
        PayloadsUnfold(done, size, max, step, count);
        ended := RoundsOf(size, count, outcomes, done);
        done := done + Repeated(size, count);
        if !ended {
          UndeliveredPrefix(done, sizes, outcomes);
          return;
        }
        size := size + step;
      }
      NoPayloadsLeft(done, size, max, step, count);
      ended := true;
    }
  }
}
