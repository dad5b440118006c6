# Verified models of the Raspberry Pi 3 micro-benchmarks

The benchmark suite under `rpi3_bench/` times system calls, but a few of its programs contain small
protocols and algorithms that have to be right for the timings to mean anything. This project
models those in Dafny and proves, for every count and every schedule, what they are relied on for.
Every `#define`d count (iterations, threads, blocks, samples, payloads) is an arbitrary natural
number here.

* **Futex hand-off** (`Futex`, `PingPong*`): the two-thread and the two-process context-switch
  benchmarks, as one interleaved state machine whose steps are single loads, stores and system
  calls. A schedule also decides when a signal ends a sleep early and when a wait returns 0 although
  nobody woke it. Proved: the invariant of every reachable state, refinement of an alternating
  token machine, the exact accounts when main leaves its loop, and that a fair run of at least
  `k * (17n + 4 + 4 * interrupted waits)` steps finishes **if and only if** its schedule makes
  no wait return 0 without a wake (`k` is the length of a window in which each task that is
  runnable when it opens runs at least once). One such return, in any reachable state, is fatal:
  nothing that happens later repairs it. The start-up of both programs and one round through every
  program point are also given state by state.
* **Endless peers** (`EndlessPeer`): `futex_wait` and `futex_wake`.
* **Block shuffle** (`Sattolo`, `FileRead`): the loop the source calls Fisher-Yates draws `j` below
  `i`, never `i` itself, so it is Sattolo's algorithm. Its loop invariant is a reference definition
  that grows a cycle one position at a time. Proved: every outcome is one single cycle, choices and
  single cycles are in bijection, every exchange merges two cycles, and the reads that follow cover
  the file exactly once within the range of `int`. The sequential case is also the read loop of `file_contention`.
* **Baton and barrier** (`FileNames`, `Contention*`): starting any number of children through one
  reused baton. Proved: each child reads its own id and barrier, the baton is never rewritten too
  early, the slot of the barrier is free when it is reused, each measurement runs against exactly
  the number of readers it reports, and a fair run reports all measurements if and only if its
  schedule lets no operation fail. The first measurement already fails without the right to drop
  the caches.
* **Measurements** (`Clock`, `Statistics`, `Median`): differences of time stamps, cycles, mean,
  spread and median, in exact arithmetic.
* **Echo drain** (`EchoDrain`): the round trips against the TCP-based echo service of RFC 862. The
  receive loop does not check for errors; proved is the exact condition on what the network does
  under which a round, and a whole session, counts what was sent.

`Progress` holds the proof rule for fair schedules that the three protocols share. The classes
(`PingPongProgram.Benchmark`, `EndlessPeer.Pair`, `ContentionProgram.Benchmark`,
`EchoDrain.Client`) are the programs in imperative form; each method is tied to the transition
function the lemmas are about.

Assumptions: the two hand-off programs run under sequential consistency (both tasks inherit the
pinning to one core, rpi3_bench/common.c:28-33, and the code is built without optimisation,
rpi3_bench/Makefile:2). FUTEX_WAIT compares and enqueues atomically; FUTEX_WAKE with count 1
dequeues the first sleeper atomically; both are called with a valid address, so FUTEX_WAKE never
returns an error. pthread_barrier_wait (IEEE Std 1003.1-2017) releases both parties in one step.
`rand()` yields arbitrary non-negative values.

## Model

| member | source | states |
|---|---|---|
| PingPongProgram.Benchmark.MainStep | rpi3_bench/thread_context_switch.c:84-101 | one atomic step of the timed loop: store 0xA, retried wake, yield, retried wait on 0xB |
| PingPongProgram.Benchmark.ChildStep | rpi3_bench/thread_context_switch.c:43-63 | one atomic step of the child's loop: yield, retried wait on 0xA, store 0xB, retried wake |
| PingPongProgram.Benchmark.Measure | rpi3_bench/thread_context_switch.c:66-101 | a whole run of the object, either start-up: alternating wakes, and completion if and only if its schedule makes no wait return spuriously |
| Futex.FutexWord.Wait | rpi3_bench/thread_context_switch.c:51 | FUTEX_WAIT sleeps exactly when the word has the given value |
| Futex.FutexWord.Wake | rpi3_bench/thread_context_switch.c:57 | FUTEX_WAKE with count 1 releases the longest sleeper, or nobody |
| PingPongSafety.InvOrStuck | rpi3_bench/process_context_switch.c:67-107 | every reachable state satisfies the turn invariant with all tallies, until a spurious return sticks the run |
| PingPongSafety.SpuriousReturnIsFatal | rpi3_bench/process_context_switch.c:77-86 | from any reachable state one wait returning 0 without a wake leads to the stuck states |
| PingPongSafety.StuckIsClosed | rpi3_bench/process_context_switch.c:98-106 | no action of any kind leaves the stuck states |
| PingPongTrace.HandoffInvariant | rpi3_bench/thread_context_switch.c:51-59 | at most one sleeper; who sleeps fixes the word and where the other task is; rounds differ by at most one |
| PingPongTrace.RoundAccounting | rpi3_bench/thread_context_switch.c:47-101 | in every reachable state wakes on one side equal returned waits on the other plus the one about to return |
| PingPongTrace.WakeReleasesPeer | rpi3_bench/thread_context_switch.c:90-100 | a successful wake releases the other task, which then returns 0 whatever else happens |
| PingPongTrace.AcceptedTraces | rpi3_bench/thread_context_switch.c:88-101 | the abstract token machine accepts only prefixes of (main wakes child, child wakes main)^n |
| PingPongTrace.RunsRefine | rpi3_bench/process_context_switch.c:59-107 | every run of either program, with any signals, is a run of the token machine with stuttering |
| PingPongTrace.TraceAlternates | rpi3_bench/thread_context_switch.c:74-90 | the wakes of every run alternate strictly despite the start-up races |
| PingPongTrace.MainLeavesLoop | rpi3_bench/thread_context_switch.c:47-101 | when main is done: n wakes and n returned waits per side, 2n sleeps beyond the interrupted ones, nobody asleep |
| PingPongLiveness.HelpfulStepDescends | rpi3_bench/thread_context_switch.c:47-60 | one named task always makes progress when it runs |
| PingPongLiveness.MainStepHarmless | rpi3_bench/thread_context_switch.c:92-100 | main's spinning never undoes progress nor changes who is helpful |
| PingPongLiveness.ChildStepHarmless | rpi3_bench/thread_context_switch.c:51-59 | the same for the child |
| PingPongLiveness.BoundedTermination | rpi3_bench/thread_context_switch.c:88-101 | without disturbances every fair schedule finishes both tasks within 17k(n+1) steps |
| PingPongLiveness.RoundRobinFinishes | rpi3_bench/process_context_switch.c:73-74 | strict alternation on one core finishes within 34(n+1) steps |
| PingPongLiveness.FinishesIffNoSpuriousReturn | rpi3_bench/process_context_switch.c:71-107 | a long enough fair run finishes if and only if none of its scheduled actions makes a sleeping wait return 0 without a wake |
| PingPongLiveness.FinishedRunsHadNoSpuriousReturn | rpi3_bench/process_context_switch.c:98-107 | no run at all finishes if its schedule contains such an action |
| PingPongLiveness.SpuriousIffScheduled | rpi3_bench/process_context_switch.c:77-79 | the tally of spurious returns is positive exactly if the schedule contains such an action |
| PingPongLiveness.SpuriousRunSticks | rpi3_bench/thread_context_switch.c:47-53 | concrete failing schedule of five actions: the child returns spuriously in its first round and both tasks are stuck |
| PingPongLiveness.SpuriousRunNeverFinishes | rpi3_bench/thread_context_switch.c:51-59 | no continuation of that schedule finishes |
| PingPongRound.WordIsSetFirst | rpi3_bench/process_context_switch.c:65-107 | in every reachable state of either program the word is 0 exactly until the first task that stores 0xA before its loop has done so, it is 0xB only once the child has stored that, and a task sleeps only on the value it waits for |
| PingPongRound.ProcessSleepsAlone | rpi3_bench/process_context_switch.c:67-79 | a child process that runs alone stores 0xA with its first step and is asleep after its fourth |
| PingPongRound.ThreadIsRefusedAlone | rpi3_bench/thread_context_switch.c:47-53 | a child thread that runs alone stores nothing and is refused for ever |
| PingPongRound.EarlyReturn | rpi3_bench/thread_context_switch.c:98-100 | a sleeper that a signal ends yields and calls FUTEX_WAIT again; one whose wait returns 0 goes on as if woken; in any reachable state and for either task |
| PingPongRound.RoundStepByStep | rpi3_bench/thread_context_switch.c:47-101 | a schedule through every program point of both loops, with a futile wake on each side, a refused wait and an interrupted one, and the full state after each of its 21 steps, in any round |
| EndlessPeer.Pair.TaskStep | rpi3_bench/futex_wait.c:83-104 | one step of the counted loop or of the endless one; the return values are ignored |
| EndlessPeer.Pair.Execute | rpi3_bench/futex_wake.c:83-117 | whole runs of both programs and what their counters then say |
| EndlessPeer.WordIsSetFirst | rpi3_bench/futex_wait.c:83-85 | the word is 0 until either process has stored 0xA, and 0xA from then on |
| EndlessPeer.EarlyReturnCounts | rpi3_bench/futex_wait.c:102-104 | a sleep that ends without a wake counts as one call, and the sleeper goes on with its loop |
| EndlessPeer.OneCall | rpi3_bench/futex_wait.c:91-104 | the full states through a futile wake, one wait and the wake that ends it |
| EndlessPeer.WaitsMatchWakes | rpi3_bench/futex_wait.c:83-104 | no wait is refused; n waits end by exactly n wakes, less those a signal ended; the child never ends |
| EndlessPeer.WaitLoopEnds | rpi3_bench/futex_wait.c:91-104 | under a fair schedule the waiting loop ends, with an explicit bound |
| EndlessPeer.WakeLoopEnds | rpi3_bench/futex_wake.c:91-104 | the waking loop ends after n calls and n + 2 turns of its own; successful wakes match the child's waits |
| EndlessPeer.ChildSleepsForever | rpi3_bench/futex_wake.c:91-117 | after the parent's loop two undisturbed turns put the child to sleep from any reachable state, and nothing changes after that, so waitpid does not return |
| FileRead.FillIndices | rpi3_bench/file_read.c:32-34 | the index array starts as the identity |
| FileRead.Shuffle | rpi3_bench/file_read.c:36-45 | the in-place loop computes the reference shuffle of its draws, a single cycle |
| Sattolo.SwapFinalises | rpi3_bench/file_read.c:41-43 | one exchange turns the map with positions below i+1 open into the one with positions below i open |
| Sattolo.OpenPositions | rpi3_bench/file_read.c:38-44 | during the loop every cycle holds exactly one position not yet final |
| Sattolo.SwapMergesCycles | rpi3_bench/file_read.c:38-44 | each exchange joins two different cycles |
| Sattolo.ShuffledIsSingleCycle | rpi3_bench/file_read.c:32-45 | every outcome, for every n >= 1 and every choice sequence, is one n-cycle |
| Sattolo.NoFixedPoint | rpi3_bench/file_read.c:38-44 | from two blocks on, no block keeps its place |
| Sattolo.ChoicesRecovered | rpi3_bench/file_read.c:38-44 | the choices can be read back from the outcome, so different choices give different orders |
| Sattolo.EveryCycleIsShuffled | rpi3_bench/file_read.c:38-44 | every n-cycle is the outcome of some choices |
| FileRead.PermutationCovers | rpi3_bench/file_read.c:55-57 | reading blocks in any permuted order covers all their bytes once, without overlap |
| FileRead.DrawsRecovered | rpi3_bench/file_read.c:38-44 | every draw can be read back from the order of the blocks, the first draw for the last position |
| FileRead.FourBlocks | rpi3_bench/file_read.c:32-45 | concrete shuffle of four blocks |
| FileRead.MeasureAccess | rpi3_bench/file_read.c:27-57 | the offsets passed to pread read each block exactly once: in order 0, 4096, 8192, ... if sequential, along one single cycle with the last block fixed by the first draw if random |
| FileRead.PrintFor | rpi3_bench/file_read.c:74-92 | for every non-negative int file size the reads cover its whole blocks, sequential reads in increasing order, and no offset overflows an int |
| ContentionProgram.Benchmark.StepMain | rpi3_bench/file_contention.c:117-150 | one step of main: set up the measured file, then barrier, id, pointer, create, wait, measure |
| ContentionProgram.Benchmark.StepChild | rpi3_bench/file_contention.c:82-107 | one step of a child: read id, prepare the file, read the barrier pointer, wait, read for ever |
| ContentionProgram.Benchmark.Execute | rpi3_bench/file_contention.c:112-150 | whole runs of the object: counts in order, all of them exactly when the schedule lets nothing fail |
| ContentionRound.IterationStepByStep | rpi3_bench/file_contention.c:125-150 | the full state after each step of any iteration, for both orders of arrival at the barrier |
| ContentionSafety.Reachable | rpi3_bench/file_contention.c:125-150 | the invariant over all interleavings and any number of children |
| ContentionSafety.BatonSafety | rpi3_bench/file_contention.c:82-102 | child k only reads id k and the barrier of iteration k; nobody waits at anything else |
| ContentionSafety.NoRewriteBeforeLastRead | rpi3_bench/file_contention.c:130-145 | no step rewrites the baton while a child has still to read it |
| ContentionSafety.BarrierSlotIsFree | rpi3_bench/file_contention.c:127-131 | when an iteration initialises its barrier nobody waits at an earlier one and no child has still to load or wait at one |
| ContentionSafety.MeasureCount | rpi3_bench/file_contention.c:144-149 | at each measurement exactly i+1 children are set up and past their barriers |
| ContentionSafety.MeasuredFilesDiffer | rpi3_bench/file_contention.c:87-98 | the readers use pairwise different files, none of them the measured one |
| ContentionSafety.ReportedCounts | rpi3_bench/file_contention.c:148-149 | the reported counts are 1, 2, 3, ..., and all m of them at the end |
| ContentionLiveness.AllMeasuredIffNoFailure | rpi3_bench/file_contention.c:117-150 | a fair run of w(11m+2) steps reports every count if and only if its schedule lets no operation fail, those inside a measurement included |
| ContentionLiveness.ExitedIffFailed | rpi3_bench/file_contention.c:43-50 | the process exits early exactly if some scheduled action fails an operation that can fail |
| ContentionLiveness.WhatCanFail | rpi3_bench/file_contention.c:117-142 | the process exits when main fails at setup, barrier initialisation, thread creation or measurement, or a child while preparing its file, and at no other point |
| ContentionLiveness.FirstMeasurementFails | rpi3_bench/file_contention.c:42-43 | concrete failing schedule: dropping the caches fails in the first measurement, with nothing reported |
| FileNames.DecimalRoundTrip | rpi3_bench/file_contention.c:87 | the decimal rendering of an id determines it |
| FileNames.DecimalForm | rpi3_bench/file_contention.c:87 | only digits, no leading zero |
| FileNames.NamesDiffer | rpi3_bench/file_contention.c:83-119 | names of different ids differ, are not cut by the 64-byte buffer, and differ from test.file |
| Clock.DiffUnits | rpi3_bench/common.c:119-122 | one second is 1000000000, one nanosecond is 1, whatever the stamps |
| Clock.DiffSign | rpi3_bench/common.c:119-122 | the sign of a difference is the lexicographic order of normalised stamps |
| Clock.DiffTelescopes | rpi3_bench/common.c:119-122 | differences along a chain of stamps add up to the whole |
| Clock.CyclesLeast | rpi3_bench/common.c:124-126 | the result is the least k with 833k >= 1000t |
| Clock.CyclesMonotoneSubadditive | rpi3_bench/common.c:124-126 | rounding up is monotone, and splitting a time costs at most one cycle and saves none |
| Clock.ReportedQuotient | rpi3_bench/thread_context_switch.c:112-117 | bounds on the printed cycles per context switch in terms of the measured time |
| Statistics.GetMean | rpi3_bench/common.c:77-85 | adding up x[i]/n gives a value that n times is the sum of the samples, and 0 for an empty array |
| Statistics.SpreadAroundMean | rpi3_bench/common.c:102-113 | n times the result is the sum of the squared distances of all pairs of samples; it is never negative, and 0 only for equal samples |
| Statistics.SpreadFromPairs | rpi3_bench/common.c:106-113 | the sum of squared deviations from the mean, without the mean |
| Statistics.SpreadOfTwo | rpi3_bench/common.c:102-113 | for two samples the sum under the root is half their squared difference |
| Statistics.SpreadIsZeroIffEqual | rpi3_bench/common.c:110-113 | var is at least 0, and 0 if and only if all samples are equal |
| Statistics.SpreadAroundAnyCentre | rpi3_bench/common.c:110-113 | around any centre c the squares sum to var + n(c - mean)^2 |
| Statistics.SpreadFromSquares | rpi3_bench/common.c:110-113 | var is the sum of squares less n times the squared mean |
| Statistics.MeanIsBestCentre | rpi3_bench/common.c:106-113 | the mean is the only minimiser |
| Statistics.OrderDoesNotMatter | rpi3_bench/common.c:77-113 | both results depend on the multiset of samples only |
| Median.CompareIsTotalOrder | rpi3_bench/procedure_call.c:53-60 | the comparison is a total preorder that equates only equal values |
| Median.SortedIsUnique | rpi3_bench/procedure_call.c:75 | two sorted arrays with the same multiset are equal |
| Median.MiddleOfSorted | rpi3_bench/procedure_call.c:75-76 | the element at n/2 has at least n/2+1 samples <= it and at least n - n/2 samples >= it |
| Median.MedianIsUnique | rpi3_bench/procedure_call.c:75-76 | those two counts determine the value from the multiset of samples |
| Median.MedianIsOptimal | rpi3_bench/procedure_call.c:75-76 | it minimises the sum of absolute deviations over all reals |
| Median.SampleOfStamps | rpi3_bench/procedure_call.c:72 | each sample times the iterations is the difference of its two stamps |
| Median.GetAvgMeasure | rpi3_bench/procedure_call.c:64-76 | the reported value times the iterations is one of the measured times end - start, more than half of these times are at most that, at least half at least that; it minimises the absolute deviations from the samples |
| EchoDrain.DrainConserves | rpi3_bench/network_round_trip.c:107-110 | in any round, leftovers included, counted + outstanding + failed calls is constant, the total stays between -1 and twice the payload, and the loop ends exactly at -1 or from the payload on |
| EchoDrain.EndsIffDelivered | rpi3_bench/network_round_trip.c:107-110 | whatever is left over, a round ends without a failed call if and only if the network delivers the payload before any failure |
| EchoDrain.DrainExactIffDelivered | rpi3_bench/network_round_trip.c:45-53 | a round that starts clean ends with exactly the bytes sent and none outstanding if and only if the network delivers the payload before any failure |
| EchoDrain.AnyChunkingDrains | rpi3_bench/network_round_trip.c:105-110 | however the echo is split into non-empty chunks, the loop ends with all of it and nothing left |
| EchoDrain.EarlyErrorLeavesEverything | rpi3_bench/network_round_trip.c:107-110 | concrete failing input: an error on the first call ends the round with the whole echo outstanding |
| EchoDrain.LeftoversAreCounted | rpi3_bench/network_round_trip.c:105-110 | concrete failing input: after a failed round of 100 bytes the next one counts 160 |
| EchoDrain.LaterErrorIsHidden | rpi3_bench/network_round_trip.c:107-110 | concrete failing input: with leftovers a failed call in the middle of a round is made up for and the round looks exact |
| EchoDrain.PayloadsLength | rpi3_bench/network_round_trip.c:88-99 | how many rounds a session has |
| EchoDrain.PayloadAt | rpi3_bench/network_round_trip.c:88-99 | which payload size each round of a session has |
| EchoDrain.Client.Round | rpi3_bench/network_round_trip.c:99-110 | one round of send and drain, starting with any leftovers |
| EchoDrain.Client.TcpPing | rpi3_bench/network_round_trip.c:86-125 | warm-up and all rounds complete with every payload counted exactly and every byte back in order if and only if the network delivers every payload before any failure |

Where the code differs from its comments, the model follows the code: the shuffle is Sattolo's, not
Fisher-Yates (rpi3_bench/file_read.c:37-39), and the receive loop adds the error return -1 to a byte
count that it then compares as unsigned (rpi3_bench/network_round_trip.c:107-109).

## Left out

- `get_median` (rpi3_bench/common.c:89-99): it sorts with the element size and comparison of `int` and averages the elements at n/2 and n/2+1, so it is not a median; the median of procedure_call.c is modelled instead.
- The square root in `get_stddev`: the sum under it is not divided by n, so the result is not a standard deviation; the facts proved are about the sum.
- Floating-point rounding and NaN: samples are reals, and 0.833 is exactly 833/1000.
- The internals of `qsort`: an insertion sort stands in, and the reported value is proved independent of the sorting method.
- Weak memory, the scheduler and CPU-frequency control: see the assumptions above.
- Errors of the futex calls other than refusal and interruption, and failures of shmget, fork, shmat and pthread_create in the futex programs, which exit before the protocol starts.
- `get_total_context_switches`: the constant 600000 is an external measurement; quotients are bounded for any positive count.
- Overhead corrections of the measured times, their unsigned wrap-around, and all printing.
- The probability of each shuffle outcome; only which outcomes are possible is stated.
- A file without a whole block in file_read.c, for which the source declares an array of length zero and divides by it when printing; the model reads nothing.
- `write_to_disk` of file_read.c, which writes test.file whatever name it is given.
- Reinitialising the barrier of the previous iteration without destroying it, and a child still returning from it: release is one step, and the slot is proved free of waiters.
- The failure of `init_test` in file_contention.c, before anything else happens.
- The offsets of the children's endless reads in file_contention.c, and the deletion of test.file.
- Sends that are cut short or fail, and sockets that close, in network_round_trip.c beyond a recv that delivers nothing.
- The other benchmarks of the directory: timing loops around system calls.
