/** Time stamps and their conversion to processor cycles, in exact arithmetic: the factor of 0.833
    nanoseconds per cycle is the rational 833/1000. */
module Clock {

  datatype Timespec = Timespec(sec: int, nsec: int)

  const BILLION: int := 1_000_000_000
  const NSEC_PER_CYCLE: real := 0.833

  function DiffToNsecs(start: Timespec, end: Timespec): int {
    (end.sec - start.sec) * BILLION + (end.nsec - start.nsec)
  }

  predicate Normalised(t: Timespec) {
    0 <= t.nsec < 1_000_000_000
  }

  predicate Earlier(a: Timespec, b: Timespec) {
    a.sec < b.sec || (a.sec == b.sec && a.nsec < b.nsec)
  }

  /** A second counts a thousand million nanoseconds, and the nanosecond fields count as they are.
      With `DiffTelescopes` this fixes every difference. */
  lemma DiffUnits(s: int, k: int, d: int)
    ensures DiffToNsecs(Timespec(s, k), Timespec(s + 1, k)) == 1_000_000_000
    ensures DiffToNsecs(Timespec(s, k), Timespec(s, k + d)) == d
  {
  }

  /** The sign of a difference tells which stamp is earlier, and it is zero for equal ones only. */
  lemma DiffSign(a: Timespec, b: Timespec)
    requires Normalised(a) && Normalised(b)
    ensures DiffToNsecs(a, b) > 0 <==> Earlier(a, b)
    ensures DiffToNsecs(a, b) == 0 <==> a == b
    ensures DiffToNsecs(a, b) == -DiffToNsecs(b, a)
  {
  }

  function TotalOfSteps(stamps: seq<Timespec>): int {
    if |stamps| < 2 then 0
    else TotalOfSteps(stamps[..|stamps|-1]) + DiffToNsecs(stamps[|stamps|-2], stamps[|stamps|-1])
  }

  /** Measuring a chain of consecutive pieces measures the whole. */
  lemma {:induction false} DiffTelescopes(stamps: seq<Timespec>)
    requires stamps != []
    ensures TotalOfSteps(stamps) == DiffToNsecs(stamps[0], stamps[|stamps|-1])
  {
    if |stamps| == 1 {
    } else {
      DiffTelescopes(stamps[..|stamps|-1]);
    }
  }

  function Ceil(x: real): int {
    -((-x).Floor)
  }

  /** Rounds up to whole cycles. */
  function NsecsToCycles(t: nat): int {
    Ceil(t as real / NSEC_PER_CYCLE)
  }

  lemma CyclesBracket(t: nat)
    ensures var k := NsecsToCycles(t); 833 * (k - 1) < 1000 * t <= 833 * k
  {
    var x := t as real / NSEC_PER_CYCLE;
    var k := NsecsToCycles(t);
    assert k as real - 1.0 < x <= k as real;
    assert x * 0.833 == t as real;
    assert 833.0 * (k as real - 1.0) < 1000.0 * t as real <= 833.0 * k as real;
    assert (833 * k) as real == 833.0 * k as real && (1000 * t) as real == 1000.0 * t as real;
    assert (833 * (k - 1)) as real == 833.0 * (k as real - 1.0);
  }

  /** The result is the least whole number of cycles that is long enough. */
  lemma CyclesLeast(t: nat, j: int)
    ensures 0 <= NsecsToCycles(t)
    ensures 1000 * t <= 833 * j <==> NsecsToCycles(t) <= j
  {
    CyclesBracket(t);
  }

  /** Longer times never take fewer cycles, and splitting a time never saves any. */
  lemma CyclesMonotoneSubadditive(t: nat, u: nat)
    ensures t <= u ==> NsecsToCycles(t) <= NsecsToCycles(u)
    ensures NsecsToCycles(t + u) <= NsecsToCycles(t) + NsecsToCycles(u) <= NsecsToCycles(t + u) + 1
  {
    CyclesBracket(t);
    CyclesBracket(u);
    CyclesBracket(t + u);
  }

  /** How far the reported cycles per context switch can be from the measured time. */
  lemma ReportedQuotient(t: nat, count: int)
    requires 0 < count
    ensures var q := NsecsToCycles(t) / count;
            833 * (q * count - 1) < 1000 * t <= 833 * (q * count + count - 1)
  {
    CyclesBracket(t);
    var k := NsecsToCycles(t);
    var q := k / count;
    assert q * count + k % count == k;
  }
}
