# Protocols, rings and oracles of the kernel reproducers

This project models the parts of the reproducers that contain real protocols and self-checking oracles, and proves what
their `bad()`, `need()`, `fail()` and `semantic_pass` tests promise. One module models one program, or one layer that
several programs share.

| module | what it models |
|---|---|
| `Words`, `Counting`, `Bitmaps`, `Completions` | fixed-width counters, pigeonhole facts, 64-bit masks, tags and completion windows |
| `Lcg`, `Handoff`, `HandoffRounds` | `weighted_payload.c`: the payload generator, the two-thread futex handoff, the barrier rounds with their competitor |
| `MsgRing`, `SendFd`, `DataRun` | `io_uring_msg_ring_round.c`: the drains, and the descriptor and data oracles |
| `Registration`, `Lifecycle`, `StandaloneRound`, `FixedIo` | `registration_cost.c`, `io_uring_msg_ring_f0_standalone.c` and `network_cost.c`: spans, fill and clear, a whole-table round, short transfers |
| `Payloads`, `BufferRing`, `Multishot` | `io_uring_net_round.c`: numbered payloads and the provided-buffer ring |
| `Rings` | submission and completion rings with wrapping 32-bit counters, in both disciplines |
| `Checklist`, `CancelTags`, `CancelRounds`, `CancelKernel`, `CancelRun`, `CancelStandalone` | the cancellation programs, their completion checks, and two of the rounds from end to end over their rings |
| `FutexCheck` | the futex completion validators |
| `YieldRounds`, `AffinityTurns` | `sched_fair_control_v2_bench.c`: generations and turns |
| `SwapEntries`, `SwapWindow`, `Anchors` | the swap probes: window search, anchors, refill runs |
| `RingLifecycle` | `io_uring_memmap_round.c`: resource accounting, with the rules of `validate_memmap_tsv.py` as its specification |

## How the kernel is modelled

The kernel is never assumed to be right. Where a program checks what the kernel did, the kernel's answers are parameters:
a script gives, per batch or per call, the completions, the results of system calls and the contents of buffers, and
nothing is assumed about them. An oracle's verdict is then proved to hold *if and only if* the answers were honest, where
honesty is defined without reference to the program's counters. Where a protocol depends on what the kernel does, only the
step named in the source is assumed: compare-and-park and wake-one for futexes, exact-match cancellation, descriptors taken
in ring order, and completions delivered in any order. Threads are state machines whose steps are interleaved arbitrarily;
the kernel takes submissions only inside `io_uring_enter`, which is what makes it safe that two of the programs publish the
tail before the entry is filled.

`bad()`, `die()` and `fail()` end the program, so a method whose source can call them returns a flag that is false in that
case, and its contract says exactly when. A loop over locals or arrays is a method with a loop, proved against a function
on values; what the source promises is proved about that function.

Some encodings: a 64-bit mask is the set of its one bits; `counter & mask` is the remainder by the ring size, a power of
two; a disjunction of tag fields that share no bit is their sum; unsigned wrap-around is written out.

## What the proofs found

- `run_multishot` compares a 16-bit head distance with the whole number of operations. A run without any fault fails from
  65536 operations on (`Multishot.HonestRunPasses`); the configured 32768 stays below.
- `cleanup_target` keeps no masks, so a miss round can pass although its cleanup reported nothing cancelled
  (`CancelRounds.CleanupAcceptsRepeats`); `CancelRounds.CleanupWithoutRepeats` says exactly when its verdict is as strong
  as the others.
- The futex validators do not compare the cycle of a tag (`FutexCheck.AnyCyclePasses`; `FutexCheck.AnswersThisCycle` says
  exactly what that leaves open), and the numbered payloads repeat every 256, so a batch eight batches old passes
  (`Payloads.StaleBatchIsNotNoticed`). Within a batch no reordering does.
- `run_a0` joins its two `munmap` calls with `||`: if the first fails, the second is never tried and its region stays
  mapped. `run_e0` leaves the standard ring open when it opened but its geometry was refused. `RingLifecycle.RunA0` and
  `RunE0` prove that these are the only ways in which they leak; R0, L0 and N0 leak nothing but what the kernel refused to
  release.
- `counters_pass` asks of R0 only that mappings balance; the 2*events+4 of the Python rules follows from the run itself.

## Model

| member | source | states |
|---|---|---|
| `Lcg.Compute` | candidate/sched-fair-delayed-requeue-handoff-333238da/reproducer/weighted_payload.c:94-101 | the payload loop computes the steps-fold iterate of the generator, wrapping at 64 bits |
| `Lcg.IterateAdds` | candidate/sched-fair-delayed-requeue-handoff-333238da/reproducer/weighted_payload.c:146-151 | running the payload twice is running it for the sum of the steps, so `ops` calls of `compute(work)` are one call of `ops*work` steps |
| `Lcg.ComposeAt` | candidate/sched-fair-delayed-requeue-handoff-333238da/reproducer/weighted_payload.c:106-110 | composing two affine maps modulo 2^64 may reduce the coefficients first |
| `Lcg.Halves` | candidate/sched-fair-delayed-requeue-handoff-333238da/reproducer/weighted_payload.c:107-110 | a jump of `n` steps is a jump of `n/2` steps of the squared map, plus one step when `n` is odd |
| `Lcg.Expected` | candidate/sched-fair-delayed-requeue-handoff-333238da/reproducer/weighted_payload.c:104-112 | the logarithmic checksum equals the iterate, for every seed and step count |
| `Lcg.Doublings` | candidate/sched-fair-delayed-requeue-handoff-333238da/reproducer/weighted_payload.c:104-112 | after `2^k` passes the multiplier is 1 and the increment 0 modulo `2^k` |
| `Lcg.Period` | candidate/sched-fair-delayed-requeue-handoff-333238da/reproducer/weighted_payload.c:94-101 | so the generator returns to any seed after `2^64` passes |
| `Lcg.WrappedPasses` | candidate/sched-fair-delayed-requeue-handoff-333238da/reproducer/weighted_payload.c:212-214 | and a pass count that wrapped at 64 bits, as `report` may compute it, names the same checksum |
| `Handoff.StepKeepsInv` | candidate/sched-fair-delayed-requeue-handoff-333238da/reproducer/weighted_payload.c:114-160 | every step of either thread, and every signal, keeps control state, counters and checksums consistent |
| `Handoff.HandoffSafety` | candidate/sched-fair-delayed-requeue-handoff-333238da/reproducer/weighted_payload.c:114-160 | in every state of every run the compute sections exclude each other, turn stores by the two threads differ by 0 or 1, at most one thread is parked, and a thread parked on its own turn is about to be woken |
| `Handoff.NeverStuck` | candidate/sched-fair-delayed-requeue-handoff-333238da/reproducer/weighted_payload.c:114-160 | no reachable state in which neither thread can move is unfinished: no wake-up is lost |
| `Handoff.StepDecreases` | candidate/sched-fair-delayed-requeue-handoff-333238da/reproducer/weighted_payload.c:114-134 | without interrupts one measure falls on every step, stale wakes and EAGAIN retries included |
| `HandoffRounds.ReportRound` | candidate/sched-fair-delayed-requeue-handoff-333238da/reproducer/weighted_payload.c:205-216 | `report` passes exactly when the clocks advance, the protocol tests hold, and every thread's checksum, the competitor's included, is its seed's iterate |
| `Handoff.FinalStatePasses` | candidate/sched-fair-delayed-requeue-handoff-333238da/reproducer/weighted_payload.c:205-216 | every finished round meets those tests for the two foreground threads, however they were interleaved and interrupted |
| `Handoff.RoundsComplete` | candidate/sched-fair-delayed-requeue-handoff-333238da/reproducer/weighted_payload.c:136-160 | an uninterrupted round takes at most 40*ops+43 states, and one that cannot go on meets those tests |
| `HandoffRounds.StepKeepsInv` | candidate/sched-fair-delayed-requeue-handoff-333238da/reproducer/weighted_payload.c:191-201 | every action of main, the foreground threads and the competitor keeps the barrier invariant |
| `HandoffRounds.BackgroundKeepsInv` | candidate/sched-fair-delayed-requeue-handoff-333238da/reproducer/weighted_payload.c:162-178 | every step of the competitor keeps its checksum that of whole blocks from its seed |
| `HandoffRounds.CompetitorCovers` | candidate/sched-fair-delayed-requeue-handoff-333238da/reproducer/weighted_payload.c:162-178 | while the competitor computes the handoff has begun, and it ends only when the handoff is over |
| `HandoffRounds.ReleaseKeepsInv` | candidate/sched-fair-delayed-requeue-handoff-333238da/reproducer/weighted_payload.c:65-69 | so does the release of a full barrier |
| `HandoffRounds.BarriersSeparate` | candidate/sched-fair-delayed-requeue-handoff-333238da/reproducer/weighted_payload.c:284-288 | while main can read the statistics no worker can write them, and while it can reset turn and phase none of the three threads runs |
| `HandoffRounds.AllReportsPass` | candidate/sched-fair-delayed-requeue-handoff-333238da/reproducer/weighted_payload.c:284-288 | every report of every run passes, the competitor's checksum included, and a finished run has made one per round |
| `HandoffRounds.AlwaysProgress` | candidate/sched-fair-delayed-requeue-handoff-333238da/reproducer/weighted_payload.c:191-201 | the barriers never deadlock: until the last round is over some action is enabled that is neither a signal nor the competitor passing time |
| `HandoffRounds.AllRoundsComplete` | candidate/sched-fair-delayed-requeue-handoff-333238da/reproducer/weighted_payload.c:284-288 | without signals all rounds together take at most 4*rounds*(40*ops+58)+12 steps, not counting what the competitor does during a handoff; a run that cannot go on has finished every round with a passing report |
| `Completions.DecodeInvertsTagging` | io_uring/io-uring-msg-ring-send-fd-install/reproducer/io_uring_msg_ring_round.c:376-394 | `decode_sequence` gives index `i` for exactly the user data that `tagged_user_data` makes of `base + i` |
| `Completions.DescribedWindow` | io_uring/io-uring-msg-ring-send-fd-install/reproducer/io_uring_msg_ring_round.c:424-479 | a window holding one completion per operation has a permutation of the indices as its decoded keys |
| `MsgRing.SeenMeans` | io_uring/io-uring-msg-ring-send-fd-install/reproducer/io_uring_msg_ring_round.c:643-697 | for any window, the seen flags are exactly the decoded indices |
| `MsgRing.OkMeans` | io_uring/io-uring-msg-ring-send-fd-install/reproducer/io_uring_msg_ring_round.c:643-697 | an ok flag means: completed exactly once, without flags, with an acceptable result, whatever else arrived |
| `MsgRing.NoErrorsMeans` | io_uring/io-uring-msg-ring-send-fd-install/reproducer/io_uring_msg_ring_round.c:643-697 | a drain counts no error exactly when every completion is the first of its operation and acceptable |
| `MsgRing.Drain` | io_uring/io-uring-msg-ring-send-fd-install/reproducer/io_uring_msg_ring_round.c:424-479 | the drain loop, on any number of arbitrary completions, with all indexing inside the 64-entry maps |
| `MsgRing.DrainVerdict` | io_uring/io-uring-msg-ring-send-fd-install/reproducer/io_uring_msg_ring_round.c:643-697 | a drain ends clean with all operations seen exactly when the window describes one result for each |
| `SendFd.PairBatch` | io_uring/io-uring-msg-ring-send-fd-install/reproducer/io_uring_msg_ring_round.c:820-844 | the pairing loop over the bitmap; the counters change as the value-level pairing says |
| `SendFd.PairMeans` | io_uring/io-uring-msg-ring-send-fd-install/reproducer/io_uring_msg_ring_round.c:820-844 | pairing stays clean exactly when the two results agree and no slot was used before, and then the bitmap gains those slots |
| `SendFd.CheckInventory` | io_uring/io-uring-msg-ring-send-fd-install/reproducer/io_uring_msg_ring_round.c:848-851 | the inventory loop counts the slots missing from the bitmap |
| `SendFd.VerifyFixedFiles` | io_uring/io-uring-msg-ring-send-fd-install/reproducer/io_uring_msg_ring_round.c:699-777 | reading back stays clean exactly when every slot answers its own one-byte read with its own sentinel |
| `SendFd.RunSendFdOnce` | io_uring/io-uring-msg-ring-send-fd-install/reproducer/io_uring_msg_ring_round.c:779-885 | for arbitrary completions on both rings, `semantic_pass` holds if and only if some assignment of slots to operations is honest: distinct slots in range, the same on both rings, every slot read back |
| `SendFd.HonestIsBijection` | io_uring/io-uring-msg-ring-send-fd-install/reproducer/io_uring_msg_ring_round.c:779-885 | such an assignment is a bijection from the operations onto the slots, named by both completions of every operation |
| `SendFd.HonestKernelIsHonest` | io_uring/io-uring-msg-ring-send-fd-install/reproducer/io_uring_msg_ring_round.c:779-885 | an allocator that gives any distinct slots passes |
| `DataRun.RunBatch` | io_uring/io-uring-msg-ring-send-fd-install/reproducer/io_uring_msg_ring_round.c:495-530 | one batch of messages leaves the counters clean exactly when both rings answered every message once with its own result |
| `DataRun.RunDataOnce` | io_uring/io-uring-msg-ring-send-fd-install/reproducer/io_uring_msg_ring_round.c:481-551 | the data profiles pass if and only if every batch was delivered, for arbitrary completions |
| `Registration.DrainCount` | io_uring/io-uring-msg-ring-send-fd-install/reproducer/registration_cost.c:24-38 | `drain_count` returns exactly for a complete window, and then records each operation's result |
| `Registration.MembersAre` | io_uring/io-uring-msg-ring-send-fd-install/reproducer/registration_cost.c:95-109 | the installed list is ascending and holds exactly the set bits |
| `Registration.PushIsCanonical` | io_uring/io-uring-msg-ring-send-fd-install/reproducer/registration_cost.c:103-106 | extending the last span or opening a new one keeps the spans sorted, separated by gaps and exact |
| `Registration.CanonicalIsMinimal` | io_uring/io-uring-msg-ring-send-fd-install/reproducer/registration_cost.c:95-109 | such spans are never more than any list of spans that covers the same slots |
| `Registration.Collect` | io_uring/io-uring-msg-ring-send-fd-install/reproducer/registration_cost.c:95-109 | `collect_slots` returns exactly when `used` bits are set, never overruns its arrays, and yields the installed list and its canonical spans |
| `Lifecycle.PairChunk` | io_uring/io-uring-msg-ring-send-fd-install/reproducer/registration_cost.c:78-86 | the pairing loop accepts a chunk exactly when the two rings agree and no slot repeats, and marks those slots |
| `Lifecycle.FillTarget` | io_uring/io-uring-msg-ring-send-fd-install/reproducer/registration_cost.c:53-88 | `fill_target` returns exactly when both rings gave every operation a slot of its own; the bitmap then holds those slots and `transfer_slots` says whose they are |
| `Lifecycle.FilledMeansGiven` | io_uring/io-uring-msg-ring-send-fd-install/reproducer/registration_cost.c:53-88 | that test does not depend on the order in which completions arrived |
| `Lifecycle.ReadInstalled` | io_uring/io-uring-msg-ring-send-fd-install/reproducer/registration_cost.c:111-145 | the read-back passes exactly when every installed slot answers with its own sentinel |
| `Lifecycle.Target.FillAndCheck` | io_uring/io-uring-msg-ring-send-fd-install/reproducer/registration_cost.c:216-221 | a fill into an empty table leaves table, bitmap, list and spans in step |
| `Lifecycle.Target.Clear` | io_uring/io-uring-msg-ring-send-fd-install/reproducer/registration_cost.c:152-164 | removal succeeds exactly when every span is processed in full, and then the table is empty |
| `Lifecycle.Target.Reuse` | io_uring/io-uring-msg-ring-send-fd-install/reproducer/registration_cost.c:222-246 | over any number of cycles, with any free slots and any completion order, no check fires and the table matches the bookkeeping after each fill; the kernel need answer reads only of slots it gave |
| `Lifecycle.ReadsAreOfGiven` | io_uring/io-uring-msg-ring-send-fd-install/reproducer/registration_cost.c:111-145 | because the list that is read back holds only such slots |
| `Lifecycle.AnySlotsWillDo` | io_uring/io-uring-msg-ring-send-fd-install/reproducer/registration_cost.c:115-116 | for any choice of free slots, cycle after cycle, some kernel meets the premises of the reuse result, even one that fails every list with an empty slot in it |
| `StandaloneRound.WholeTable` | io_uring/io-uring-msg-ring-send-fd-install/reproducer/io_uring_msg_ring_f0_standalone.c:360-362 | as many distinct slots as the table has leave none out |
| `StandaloneRound.RunRound` | io_uring/io-uring-msg-ring-send-fd-install/reproducer/io_uring_msg_ring_f0_standalone.c:310-373 | the standalone round returns exactly when both rings gave the operations all slots, one each, and every slot read back; its own search for missing slots never fires |
| `FixedIo.ResubmitsUnfinished` | io_uring/io-uring-msg-ring-send-fd-install/reproducer/network_cost.c:59-73 | a pass submits exactly the unfinished requests, each for the rest of its own payload |
| `FixedIo.EntriesAreSensible` | io_uring/io-uring-msg-ring-send-fd-install/reproducer/network_cost.c:59-73 | and the kernel can tell its entries apart by their user data |
| `FixedIo.EntryAdvances` | io_uring/io-uring-msg-ring-send-fd-install/reproducer/network_cost.c:66-70 | serving the file, address and length that an entry names takes exactly its own request forward |
| `FixedIo.ServedStands` | io_uring/io-uring-msg-ring-send-fd-install/reproducer/network_cost.c:79-88 | what the kernel moved for the submitted entries is what the program recorded from the completions it accepted |
| `FixedIo.Collect` | io_uring/io-uring-msg-ring-send-fd-install/reproducer/network_cost.c:79-88 | the completion loop accepts every fair answer, and whatever it accepts moves at least one byte per completion |
| `FixedIo.Pass` | io_uring/io-uring-msg-ring-send-fd-install/reproducer/network_cost.c:56-89 | one pass: it fails for no kernel that serves what it is asked, and otherwise leaves every request where its offset says |
| `FixedIo.Transfer` | io_uring/io-uring-msg-ring-send-fd-install/reproducer/network_cost.c:51-90 | `fixed_io` ends for every kernel; it does not fail with one that serves what it is asked, however short the completions; and when it does not fail every request is whole |
| `FixedIo.ReceivedWhole` | io_uring/io-uring-msg-ring-send-fd-install/reproducer/network_cost.c:49-90 | a whole receive holds the next 64 bytes of its own stream |
| `FixedIo.SentWhole` | io_uring/io-uring-msg-ring-send-fd-install/reproducer/network_cost.c:49-90 | a whole send has appended exactly its own buffer to its own connection |
| `FixedIo.Echo` | io_uring/io-uring-msg-ring-send-fd-install/reproducer/network_cost.c:49-90 | receiving and sending back returns to every connection the bytes that came from it, and touches no other |
| `FixedIo.AnyPartIsHonest` | io_uring/io-uring-msg-ring-send-fd-install/reproducer/network_cost.c:79-84 | a kernel that answers each entry for any positive part of it serves what it is asked, so for any partial results the transfer succeeds |
| `Payloads.Matches` | security/apparmor-af-unix-send-old-abi-6456cc/reproducer/io_uring_net_round.c:364-379 | the comparison is true exactly for the payload of that number |
| `Payloads.PayloadTellsResidue` | security/apparmor-af-unix-send-old-abi-6456cc/reproducer/io_uring_net_round.c:364-379 | a payload matches another number exactly when the two are congruent modulo 256 |
| `Payloads.PeerDrain` | security/apparmor-af-unix-send-old-abi-6456cc/reproducer/io_uring_net_round.c:434-453 | whatever the 33 calls of `recv` answer, the drain succeeds without mismatches exactly when the 32 payloads came in order and then the queue was empty |
| `Payloads.DrainedQueue` | security/apparmor-af-unix-send-old-abi-6456cc/reproducer/io_uring_net_round.c:434-453 | on a socket that only answers from its queue: exactly when the queue is those payloads |
| `Payloads.ReorderingIsNoticed` | security/apparmor-af-unix-send-old-abi-6456cc/reproducer/io_uring_net_round.c:434-453 | within a batch, only the identity order passes |
| `Payloads.StaleBatchIsNotNoticed` | security/apparmor-af-unix-send-old-abi-6456cc/reproducer/io_uring_net_round.c:434-453 | but a batch eight batches off passes for the expected one |
| `BufferRing.Pbufs.constructor` | security/apparmor-af-unix-send-old-abi-6456cc/reproducer/io_uring_net_round.c:758-778 | the ring starts with every buffer published once, in order |
| `BufferRing.Pbufs.Publish` | security/apparmor-af-unix-send-old-abi-6456cc/reproducer/io_uring_net_round.c:747-756 | with a slot free, publishing appends to the waiting descriptors and overwrites none, for all 16-bit counters |
| `BufferRing.Pbufs.Consume` | security/apparmor-af-unix-send-old-abi-6456cc/reproducer/io_uring_net_round.c:747-756 | the kernel's side takes the oldest descriptors |
| `BufferRing.WindowsAlternate` | security/apparmor-af-unix-send-old-abi-6456cc/reproducer/io_uring_net_round.c:813-880 | when buffers are also reported in the order taken, two arrangements of the 64 alternate, each holding every buffer once |
| `Multishot.AbsorbedMeans` | security/apparmor-af-unix-send-old-abi-6456cc/reproducer/io_uring_net_round.c:859-876 | the completion loop stays clean exactly when every completion is right and no buffer is given out twice |
| `Multishot.CheckCancel` | security/apparmor-af-unix-send-old-abi-6456cc/reproducer/io_uring_net_round.c:780-811 | the cancellation check passes exactly for one terminal and one confirming completion, in either order |
| `Multishot.RunBatch` | security/apparmor-af-unix-send-old-abi-6456cc/reproducer/io_uring_net_round.c:825-880 | a batch stays clean exactly when it is good; if it took the oldest descriptors, they wait again behind the others |
| `Multishot.RenewedIsFull` | security/apparmor-af-unix-send-old-abi-6456cc/reproducer/io_uring_net_round.c:859-876 | then every buffer still waits once and the two halves of the window have changed places, in whatever order the buffers were reported |
| `Multishot.HalvesAlternate` | security/apparmor-af-unix-send-old-abi-6456cc/reproducer/io_uring_net_round.c:825-880 | so they do for any number of batches |
| `Multishot.RunBatches` | security/apparmor-af-unix-send-old-abi-6456cc/reproducer/io_uring_net_round.c:825-880 | after any number of good batches in ring order, however many operations, the ring holds that window |
| `Multishot.RunMultishot` | security/apparmor-af-unix-send-old-abi-6456cc/reproducer/io_uring_net_round.c:813-895 | for every kernel, the run passes exactly when every batch is good and the 16-bit head distance equals the operations; passing or not, good batches in ring order end with all 64 buffers waiting once |
| `Multishot.HonestRunPasses` | security/apparmor-af-unix-send-old-abi-6456cc/reproducer/io_uring_net_round.c:883-889 | a run in which nothing goes wrong meets the head test if and only if it has fewer than 65536 operations |
| `Multishot.FaultlessRuns` | security/apparmor-af-unix-send-old-abi-6456cc/reproducer/io_uring_net_round.c:825-880 | for any number of batches some kernel makes every one of them good in ring order, so the limit above is the program's own |
| `Rings.WrapKeepsSlot` | candidate/io-uring-async-cancel-miss-5623eb1e/reproducer/io_uring_cancel_miss_standalone.c:181-184 | counters reduced modulo 2^32 name the same slots as counters that never wrap |
| `Rings.SlotsDistinct` | candidate/io-uring-async-cancel-miss-5623eb1e/reproducer/io_uring_cancel_miss_standalone.c:181-184 | entries in flight never share a slot |
| `Rings.SubmissionRing.Enqueue` | candidate/io-uring-async-cancel-miss-5623eb1e/reproducer/io_uring_cancel_round.c:355-370 | either discipline accepts an entry exactly while the ring has room, and then appends it |
| `Rings.SubmissionRing.Publish` | candidate/io-uring-async-cancel-miss-5623eb1e/reproducer/io_uring_cancel_miss_standalone.c:195-201 | the tail store publishes everything prepared, in order |
| `Rings.SubmissionRing.Take` | candidate/io-uring-async-cancel-miss-5623eb1e/reproducer/io_uring_cancel_miss_standalone.c:201-207 | the kernel takes published entries oldest first |
| `Rings.Drive` | candidate/io-uring-async-cancel-miss-5623eb1e/reproducer/io_uring_cancel_miss_standalone.c:177-220 | any run of either ring, from any counter values, is a run of the bounded queue |
| `Rings.RunKeepsOrder` | candidate/io-uring-async-cancel-miss-5623eb1e/reproducer/io_uring_cancel_miss_standalone.c:177-220 | in every run of that queue occupancy stays within the ring size and order is kept |
| `Rings.WaitAndCopy` | candidate/io-uring-async-cancel-miss-5623eb1e/reproducer/io_uring_cancel_round.c:409-432 | `wait_and_copy` succeeds exactly when the expected number has arrived, copies all of it in order, and empties the ring |
| `Checklist.MarksMean` | candidate/io-uring-async-cancel-miss-5623eb1e/reproducer/io_uring_cancel_round.c:560-600 | a check counts no error exactly when every completion is right and none repeats another |
| `Checklist.CheckMeans` | candidate/io-uring-async-cancel-miss-5623eb1e/reproducer/io_uring_cancel_round.c:601-606 | no error and full masks mean that the window is exactly the expected list |
| `CancelTags.TagsAgree` | candidate/io-uring-async-cancel-miss-5623eb1e/reproducer/io_uring_cancel_round.c:443-452 | two tags are equal only if every field agrees, round modulo 4096 and batch modulo 2^20; NEVER tags match no poll |
| `CancelTags.SearchFinds` | candidate/io-uring-async-cancel-miss-5623eb1e/reproducer/io_uring_cancel_round.c:563-598 | the search finds the request whose user data it is given, and nothing else |
| `CancelTags.ExactAnswers` | candidate/io-uring-async-cancel-miss-5623eb1e/reproducer/io_uring_cancel_round.c:553-607 | being exactly the list is holding one completion per request, with its result and no flags |
| `CancelRounds.ValidateKeyed` | candidate/io-uring-async-cancel-miss-5623eb1e/reproducer/io_uring_cancel_round.c:553-607 | `validate_keyed` returns 0 exactly for such a window and clean counters, and then counts 32 of each kind |
| `CancelRounds.CheckCleanup` | candidate/io-uring-async-cancel-miss-5623eb1e/reproducer/io_uring_cancel_round.c:643-670 | `cleanup_target` accepts exactly the windows whose completions are all expected ones |
| `CancelRounds.CleanupAcceptsRepeats` | candidate/io-uring-async-cancel-miss-5623eb1e/reproducer/io_uring_cancel_round.c:643-670 | 64 copies of one cleanup answer pass, though no poll was reported cancelled |
| `CancelRounds.CleanupWithoutRepeats` | candidate/io-uring-async-cancel-miss-5623eb1e/reproducer/io_uring_cancel_round.c:643-670 | its verdict means what the others mean exactly when no two completions share their user data |
| `CancelRounds.RunKeyed` | candidate/io-uring-async-cancel-miss-5623eb1e/reproducer/io_uring_cancel_round.c:673-730 | a hit or miss round passes if and only if every batch is good and nothing was dropped, overflowed or left; it then counts batches*32 cancellations, or ENOENT results |
| `CancelRounds.RunF0` | candidate/io-uring-async-cancel-miss-5623eb1e/reproducer/io_uring_cancel_round.c:865-908 | the whole-file round likewise |
| `CancelKernel.NoPollSurvives` | candidate/io-uring-async-cancel-miss-5623eb1e/reproducer/io_uring_cancel_round.c:673-730 | with a kernel that cancels by exact user data, every hit or miss batch starts and ends with no poll armed |
| `CancelKernel.KeyedRoundIsGood` | candidate/io-uring-async-cancel-miss-5623eb1e/reproducer/io_uring_cancel_round.c:673-730 | and every batch is good whatever the order of its completions |
| `CancelRun.SubmitAndCopy` | candidate/io-uring-async-cancel-miss-5623eb1e/reproducer/io_uring_cancel_round.c:434-441 | `submit_and_copy` over both rings: the kernel serves the queued requests, and all it posts is copied, in some order, with both rings left empty |
| `CancelRun.ServeOneBatch` | candidate/io-uring-async-cancel-miss-5623eb1e/reproducer/io_uring_cancel_round.c:678-709 | so the system calls of a batch give it the answers of the exact-match kernel, and the polls are seen pending before |
| `CancelRun.RunServed` | candidate/io-uring-async-cancel-miss-5623eb1e/reproducer/io_uring_cancel_round.c:673-730 | and the round passes: for any number of batches, any order and timing of completions and any ring counters, with 32 cancellations counted a batch, no poll armed and nothing outstanding |
| `CancelKernel.F0IsGood` | candidate/io-uring-async-cancel-miss-5623eb1e/reproducer/io_uring_cancel_round.c:865-890 | one whole-file cancellation ends exactly the 32 polls on its file, and the cleanup the 8 decoys |
| `CancelRun.RunServedF0` | candidate/io-uring-async-cancel-miss-5623eb1e/reproducer/io_uring_cancel_round.c:865-908 | the whole-file round likewise, in whatever order the kernel ends the polls on a file |
| `CancelStandalone.KeysInvertTags` | candidate/io-uring-async-cancel-miss-5623eb1e/reproducer/io_uring_cancel_miss_standalone.c:102-105 | taking user data apart inverts `make_tag` |
| `CancelStandalone.CheckCqes` | candidate/io-uring-async-cancel-miss-5623eb1e/reproducer/io_uring_cancel_miss_standalone.c:242-277 | `check_cqes` returns exactly when the window is the list, in either mode |
| `FutexCheck.TagsRoundTrip` | io_uring/io-uring-futex-inflight-wait-wake/reproducer/io_uring_futex_round.c:461-477 | `tag_kind` and `tag_index` recover what `make_tag` was given |
| `FutexCheck.ValidatePair` | io_uring/io-uring-futex-inflight-wait-wake/reproducer/io_uring_futex_round.c:588-627 | returns 0 exactly when counters were clean, slots are at most 32 and every (kind, index) pair came once with its result and no flags, which makes the window 2*slots long |
| `FutexCheck.ValidateSingle` | io_uring/io-uring-futex-inflight-wait-wake/reproducer/io_uring_futex_round.c:629-658 | the same for one kind |
| `FutexCheck.AnyCyclePasses` | io_uring/io-uring-futex-inflight-wait-wake/reproducer/io_uring_futex_round.c:601-602 | the cycle in the tag is not compared: the answers to any cycle pass, in any order |
| `FutexCheck.AnswersThisCycle` | io_uring/io-uring-futex-inflight-wait-wake/reproducer/io_uring_futex_round.c:588-627 | a window that passes holds exactly the answers to a given cycle if and only if bits 16 to 55 of every tag are that cycle |
| `YieldRounds.StepKeepsInv` | kernel/sched/sched-fair-default-slice-noop/reproducer/sched_fair_control_v2_bench.c:349-466 | every step of either thread keeps the four generations in order and the rows exact |
| `YieldRounds.RowsAreExact` | kernel/sched/sched-fair-default-slice-noop/reproducer/sched_fair_control_v2_bench.c:425-459 | in every interleaving the threads are at most one round apart and each row's errors are that round's errors of both |
| `YieldRounds.NeverStuck` | kernel/sched/sched-fair-default-slice-noop/reproducer/sched_fair_control_v2_bench.c:319-332 | no interleaving gets stuck before both threads have finished |
| `YieldRounds.EveryRunFinishes` | kernel/sched/sched-fair-default-slice-noop/reproducer/sched_fair_control_v2_bench.c:349-466 | every maximal run has the same length and fills all rows |
| `AffinityTurns.TurnsAreTaken` | kernel/sched/sched-fair-default-slice-noop/reproducer/sched_fair_control_v2_bench.c:531-564 | calls alternate, the controllers never overlap, and no turn is missed although the waits only test `>=` |
| `AffinityTurns.OneCanMove` | kernel/sched/sched-fair-default-slice-noop/reproducer/sched_fair_control_v2_bench.c:646-664 | until all calls are made exactly one controller can move |
| `AffinityTurns.FinalMask` | kernel/sched/sched-fair-default-slice-noop/reproducer/sched_fair_control_v2_bench.c:523-529 | the mask ends on CPU A exactly when no call succeeded or the last success was controller B's |
| `AffinityTurns.EvenOperationsReturn` | kernel/sched/sched-fair-default-slice-noop/reproducer/sched_fair_control_v2_bench.c:250-253 | when all calls succeed the mask returns to CPU A exactly for an even number of operations |
| `SwapWindow.TestIsEligible` | candidate/mm-swap-count-batch-cleanup/reproducer/shared_probe.c:69-72 | the slot arithmetic tests exactly for 17 swapped pages of one type in one cluster at consecutive offsets |
| `SwapWindow.ChooseWindow` | candidate/mm-swap-count-batch-cleanup/reproducer/shared_probe.c:66-76 | returns the least eligible start, or -1 if and only if there is none |
| `SwapWindow.ContiguousChoice` | candidate/mm-swap-count-batch-cleanup/reproducer/shared_probe.c:80-84 | for contiguous candidates at any offset a window exists, and the closed form of the self-test is the answer |
| `Anchors.ClusterCount` | candidate/mm-swap-fallback-folio-order/reproducer/remaining.c:92-100 | the number of distinct clusters of swapped pages |
| `Anchors.Select` | candidate/mm-swap-fallback-folio-order/reproducer/remaining.c:168-172 | keeps exactly the pages no earlier page shares a cluster with, and counts them |
| `Anchors.OneAnchorPerPage` | candidate/mm-swap-fallback-folio-order/reproducer/remaining.c:168-180 | every page shares its cluster with exactly one kept page |
| `Anchors.AnchorsCountClusters` | candidate/mm-swap-fallback-folio-order/reproducer/remaining.c:92-100 | the kept pages are as many as `cluster_count` reports |
| `Anchors.Refill` | candidate/mm-swap-fallback-folio-order/reproducer/remaining.c:193-196 | the calls are maximal runs, in order, that cover each page to refill once and no kept page |
| `Anchors.NoMoreCallsThanAnchors` | candidate/mm-swap-fallback-folio-order/reproducer/remaining.c:168-196 | there are never more calls than anchors |
| `RingLifecycle.MapStandard` | candidate/io-uring-region-api-ring-lifecycle/reproducer/io_uring_memmap_round.c:404-438 | whatever fails, no mapping is live that is not owned or stuck, and the two counters differ by the live ones |
| `RingLifecycle.UnmapStandard` | candidate/io-uring-region-api-ring-lifecycle/reproducer/io_uring_memmap_round.c:440-457 | both mappings are tried, whatever happens to the first |
| `RingLifecycle.CloseRing` | candidate/io-uring-region-api-ring-lifecycle/reproducer/io_uring_memmap_round.c:529-545 | the descriptor is closed whatever happens to the mappings |
| `RingLifecycle.RunR0` | candidate/io-uring-region-api-ring-lifecycle/reproducer/io_uring_memmap_round.c:622-665 | for every pattern of failures only what could not be released survives; its counters pass exactly when it succeeds and every release did, and then meet the count rules of `validate_memmap_tsv.py` (lines 59-86); without failures it succeeds |
| `RingLifecycle.RunL0` | candidate/io-uring-region-api-ring-lifecycle/reproducer/io_uring_memmap_round.c:667-703 | the same for the standard lifecycle |
| `RingLifecycle.RunN0` | candidate/io-uring-region-api-ring-lifecycle/reproducer/io_uring_memmap_round.c:724-789 | the same for user-backed rings, and for their two regions |
| `RingLifecycle.RunA0` | candidate/io-uring-region-api-ring-lifecycle/reproducer/io_uring_memmap_round.c:791-827 | succeeds exactly when no call fails, and then meets the row rules; a region survives without its munmap tried if and only if the first call to fail is the first munmap of some event |
| `RingLifecycle.LeakOfA0` | candidate/io-uring-region-api-ring-lifecycle/reproducer/io_uring_memmap_round.c:812-814 | a run where that happens: its third call fails and a region is left |
| `RingLifecycle.AllocateRegions` | candidate/io-uring-region-api-ring-lifecycle/reproducer/io_uring_memmap_round.c:705-722 | `allocate_user_regions` yields both regions, or leaves none but what could not be released |
| `RingLifecycle.RunE0` | candidate/io-uring-region-api-ring-lifecycle/reproducer/io_uring_memmap_round.c:829-885 | meets the row rules; of mappings and regions only what could not be released survives, and so of rings, if and only if the standard ring did not open with an invalid geometry |
| `RingLifecycle.R0Body` | candidate/io-uring-region-api-ring-lifecycle/reproducer/io_uring_memmap_round.c:628-659 | the counts the R0 rules ask for, 2*events+4 mappings among them, are those a successful run has made when it reaches its cleanup |

## Left out

- CPU pinning, alarms, watchdogs, `/proc` and sysfs reads, option parsing and output: they have no property behind
  them; clocks are read only where a check compares them. Timeouts end a program, so the waits have none.
- Handoff.StepDecreases: signals are part of the handoff model and of its safety results, but the termination measure is
  for runs without them, because interrupts may repeat without bound.
- HandoffRounds.AllReportsPass: the tests of the model; that the clocks advance is up to the machine, and is a condition of
  `HandoffRounds.ReportRound`. The competitor's block counter is not cut to 64 bits.
- HandoffRounds.AllRoundsComplete: signals, and the blocks the competitor computes while a handoff goes on, are not counted,
  because both may repeat without bound.
- The queue-state test of `check_target` (lines 146-149), and the serial and paced modes of `registration_cost.c`, which
  use one fill per ring.
- FixedIo.Transfer: a failing `io_uring_enter` ends the program and is not told apart from a window of the wrong length.
- BufferRing.Pbufs.Publish: the private tail and the shared one are a single field; they differ only between two kernel
  entries, when the kernel takes nothing.
- Multishot.RunMultishot: a cancellation is modelled by its completions; the poll it ends is not.
- Rings.Drive: entries are values of the five fields the cancellation programs set, and the kernel's reads of the ring
  happen only in `Fetch` and `Take`.
- CancelRounds.RunKeyed: `stop_requested`, timeouts and the sync-cancel, prepare and release profiles; and the value of
  counters that are printed only after a check has failed. Separate masks for polls and cancellations are the two sets of
  one record.
- CancelKernel.KeyedRoundIsGood: polls are never signalled, which is what `prove_pending` establishes.
- CancelRun.RunServed: `sq_dropped` counts entries whose index is out of range, which the ring's invariant excludes; so it
  is 0. A full ring cannot happen here, so the failure of `queue_sqe` is only in `Rings.SubmissionRing.Enqueue`.
- FutexCheck.ValidatePair: the futex words themselves and the waitv cycles; only their completions are judged.
- AffinityTurns.TurnsAreTaken: controller B stores its tallies after its last turn store, so the row's success count, read
  before the join, is not claimed to be exact; the target thread's heartbeat is left out.
- YieldRounds.RowsAreExact: thread errors and wait timeouts end the program and are left out.
- Anchors.Select: the swap entries are given; which slots the allocator hands out is the kernel's business.
- RingLifecycle.RunE0: of the errors that may refuse a mapping only the expected ones are told apart from the others.
- RingLifecycle.RunR0: interrupted loops (`stop_requested`), timings and ring pointers.
- The cgroup, mprotect, xattr, btrfs and RT-sysctl probes, the statistics scripts, and the near copies of the modelled
  programs: only easy counting claims, or the same code again.
