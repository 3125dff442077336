# Verification of the tair_test tools

This project models the concurrent and the algorithmic parts of the repository in Dafny and
proves what they guarantee. `dafny verify dfyconfig.toml` checks everything.

* `ThreadPool`, `ThreadPoolLive`, `ThreadPoolStop`, `ThreadPoolObject`: the condition-variable thread pool. Any
  number of workers and producers and one stopping thread take small steps (lock, test, release
  and sleep, wake and relock, dequeue, unlock, run, push, signal, store, broadcast, join); a run
  is any sequence of enabled steps. Spurious wake-ups are steps and are allowed wherever safety
  is claimed; a signal wakes one sleeper if there is one, and waking more is covered by the
  spurious steps. `ThreadPoolObject` is the same pool as an object with fields updated in place.
* `TurnTaking`, `TurnTakingObject`: the threads of `c_thread.cpp` for any number of threads.
* `MyQueue`, `RingSteps`: the ring buffer, once as a class over an array and once as single loads
  and stores of a posting thread and a worker that share it without a lock.
* `Harness`, `HarnessTheorems`, `HarnessLeak`: the main thread, one ring per worker, round-robin
  posting and the shutdown, for any script of rounds.
* `KeyFile`, `OpJob`, `TairTest`: the key file, the batch of keys, and the rounds of `do_work`
  with the cyclic reader, the two cursors and the operation counter. What a posted job goes
  through afterwards is in `Harness`, whose rounds say only how many keys they want and whether
  the reader gave up; `TairTest.ReadRound` says exactly when it does, and `WholeProgram` joins
  the two.
* `MurmurHash`, `MurmurTheorems`, `MurmurReference`: the 32-bit hash with its signed tail bytes, and
  MurmurHash2 written out once more on plain operators. The larger proofs hide the word operations
  and use their laws.
* `FileSplit`, `FileSplitTheorems`: the file splitter against scripted short reads, short writes,
  interruptions and errors. What the system takes of a buffer and what the outer loop sees are
  functions of the scripts.
* `IndexList`: the comma lists printed and parsed by `tair.sh`, with `tr`, `sed` and `egrep -o`
  as functions on strings.
* `Prelude`: sums and multiset unions over the threads of a system.

Assumptions: memory is sequentially consistent for the rings, `_can_over`, `shutdown` and the
unlocked size query; waiting and signalling follow `pthread_cond_wait` and `pthread_cond_signal`
of POSIX.1-2017, System Interfaces; matching follows POSIX.1-2017 Base Definitions, section 9.1;
loads are little-endian and conversions two's complement.

Four promises one might expect do not hold, and the exact conditions are proved instead:

* `StopAll` does not always return (Thread/Thread.cpp:105-106 run without the mutex). Without
  spurious wake-ups it is sure to if and only if, when the broadcast is sent, no worker is between
  the predicate test and the wait, or some producer still has a task to add. The client of
  main.cpp adds nothing any more by then, and for any number of workers and tasks it has a run
  that hangs.
* A ring need not be empty when its worker exits (TAIR/tair_test/Thread_work.cpp:77-80). What is
  left is exactly what was published after the last load of `_end`; those jobs are never deleted.
* The splitter does not always put three chunks in a file (TAIR/tair_tfs/split.cc:43, 68): an
  interrupted read counts towards `num`, which is compared with `==`. Number the reads from 0 and
  let `last` be the number of the first chunk of the last file that the chunks should fill. The
  output has the intended shape if and only if no read up to and including number `last` is
  interrupted (when more than one file is needed) and read number `last + 3`, unless the loop has
  ended by then, is. Otherwise a file is short or too long; once `num` has passed 3 no file is
  started any more.
* The hash differs from the reference MurmurHash2 exactly when some tail byte is 0x80 or more.

## Model

| member | source | states |
|---|---|---|
| ThreadPool.WorkConservation | Thread/Thread.cpp:34-78 | in every reachable state without shutdown and with a sleeper, queued tickets are at most the producers that still owe a signal plus the awake idle workers |
| ThreadPool.NoTaskUnclaimed | Thread/Thread.cpp:34-78 | if idle workers all sleep and no signal is outstanding, the list is empty |
| ThreadPool.FifoAtMostOnce | Thread/Thread.cpp:34-62 | pushes equal dequeues followed by the list, the dequeue never meets an empty list, and no ticket is run twice or run while in a worker's hands |
| ThreadPool.PointersAreThePlan | Thread/Thread.cpp:71-78 | over every run the pointers added and those still to be added are, with multiplicity, the callers' planned pointers |
| ThreadPool.OneProducerInOrder | Thread/main.cpp:24-27 | a single caller's pointers are added in the order it planned |
| ThreadPool.AnySleeperMayWake | Thread/Thread.cpp:37-37 | every sleeper may wake for no reason, and a signal may choose any of them |
| ThreadPool.RunKeepsInv | Thread/Thread.cpp:29-121 | every run keeps mutual exclusion, the facts known at each program point, the wake-up count and the histories |
| ThreadPool.MutexKeptByWorker | Thread/Thread.cpp:34-60 | a worker's step keeps that exactly the owner of the mutex is inside the critical section |
| ThreadPool.PointKeptByOthers | Thread/Thread.cpp:71-112 | pushes, signals, stores, broadcasts and joins keep what each worker knows at its program point |
| ThreadPool.ConservationKeptByWorker | Thread/Thread.cpp:34-62 | a worker's step keeps the bound on queued tickets |
| ThreadPoolLive.EveryTaskIsServed | Thread/Thread.cpp:29-78 | with at least one worker and before the stop, a run is bounded but for spurious wake-ups, and one in which nothing else can happen has added every task, emptied the list and run each ticket exactly once, with exactly the planned pointers |
| ThreadPoolStop.AtMostOneMoreTask | Thread/Thread.cpp:32-60 | after the store of shutdown at most one more ticket is dequeued in total, and none if no worker was past its test of the flag |
| ThreadPoolStop.BroadcastReached | Thread/Thread.cpp:105-106 | right after the broadcast nobody sleeps |
| ThreadPoolStop.AtMostOneSleeper | Thread/Thread.cpp:35-37 | after the broadcast only the worker that held the mutex between test and wait can ever sleep |
| ThreadPoolStop.SleepsThroughStop | Thread/Thread.cpp:35-37 | that worker stays asleep and StopAll does not return unless a signal or a spurious wake-up rouses it |
| ThreadPoolStop.StopAllReturns | Thread/Thread.cpp:96-122 | with no such worker every run is bounded and ends with every worker joined, whatever producers still do |
| ThreadPoolStop.StopAllReturnsIff | Thread/Thread.cpp:71-122 | whatever the producers still do, all runs without spurious wake-ups are bounded, and they all end with StopAll returned if and only if no worker was at the wait at the broadcast or some producer still had a task to add |
| ThreadPoolStop.StopAllCanHang | Thread/main.cpp:22-41 | for any number of workers and any tasks, the client has a run after whose broadcast StopAll never returns without a spurious wake-up |
| ThreadPoolStop.StopInTheGap | Thread/Thread.cpp:34-37 | such a run starts from any state with nothing left to add, an empty list, a free mutex and a worker about to lock it |
| ThreadPoolStop.SizeZeroIsFinal | Thread/Thread.cpp:127-130 | once everything was added, a size of 0 read without the mutex is final: every ticket is run or in a worker's hands |
| ThreadPoolStop.ClientRunsEveryTaskOnce | Thread/main.cpp:24-41 | when StopAll has returned to a client that stops on size 0, each ticket it added has run exactly once, and the pointers that ran are those it planned |
| ThreadPoolObject.CThreadPool.ThreadFunc | Thread/Thread.cpp:29-66 | the step of a worker on the fields is the step of the system |
| ThreadPoolObject.CThreadPool.AddTask | Thread/Thread.cpp:71-78 | the step of a producer on the fields is the step of the system |
| ThreadPoolObject.CThreadPool.StopAll | Thread/Thread.cpp:96-122 | the step of the stopping thread on the fields is the step of the system, including the refusal of a second call |
| ThreadPoolObject.CThreadPool.Schedule | Thread/Thread.cpp:29-122 | under any schedule the object goes through the run of exactly those events that are enabled at their turn, and keeps its invariant |
| ThreadPoolObject.CThreadPool.PollToZero | Thread/main.cpp:24-32 | under any scheduler without spurious wake-ups the polling client gets to read a size of 0 with all planned pointers added, and then every ticket is run or in a worker's hands |
| ThreadPoolObject.CThreadPool.StopToTheEnd | Thread/Thread.cpp:96-122 | after the broadcast, under the condition above and any scheduler without spurious wake-ups, the pool comes to rest with StopAll returned and every worker gone |
| TurnTaking.PrintsInOrder | c_thread.cpp:10-25 | the output is always 0, 1, 2, ...; a sleeper whose turn it is has a predecessor that still owes its broadcast |
| TurnTaking.NoDeadlock | c_thread.cpp:15-23 | short of the end some thread can move without a spurious wake-up |
| TurnTaking.EveryoneGetsTheirTurn | c_thread.cpp:10-25 | a run without spurious wake-ups is bounded and ends with all threads finished and the output 0..N-1 |
| TurnTaking.MeasureDrops | c_thread.cpp:15-23 | every step lowers the pair of threads that have not broadcast and points still to pass |
| TurnTaking.NobodySleepsAfterBroadcast | c_thread.cpp:23-23 | right after a broadcast no thread is asleep |
| TurnTaking.AnySleeperMayWake | c_thread.cpp:16-19 | every sleeper may wake for no reason at any time |
| TurnTakingObject.Program.ThreadFunc | c_thread.cpp:10-25 | the step of a thread on the globals is the step of the system |
| TurnTakingObject.Program.RunToTheEnd | c_thread.cpp:27-51 | under any scheduler the program ends with every number printed in order |
| MyQueue.Queue.constructor | TAIR/tair_test/my_queue.h:29-36 | an empty ring with one slot more than its capacity |
| MyQueue.Queue.IsFull | TAIR/tair_test/my_queue.h:47-51 | full exactly when it holds as many jobs as its capacity |
| MyQueue.Queue.IsEmpty | TAIR/tair_test/my_queue.h:53-57 | empty exactly when it holds none |
| MyQueue.Queue.Pop | TAIR/tair_test/my_queue.h:59-65 | removes and returns the oldest job; on an empty ring a stale slot, leaving the ring apparently full |
| MyQueue.Queue.Push | TAIR/tair_test/my_queue.h:67-72 | appends the job; on a full ring everything is lost |
| MyQueue.Queue.Offer | TAIR/tair_test/Thread_work.cpp:99-105 | appends unless full, refuses and changes nothing if full |
| RingSteps.StepRefinesFifo | TAIR/tair_test/my_queue.h:47-72 | every load or store leaves the abstract queue alone, except that storing _end appends to a queue with room and storing _start removes the job the worker holds |
| RingSteps.RingIsFifo | TAIR/tair_test/my_queue.h:30-72 | over any interleaving the ring is a FIFO within its capacity and no unwritten slot is read |
| RingSteps.AnswersAreConservative | TAIR/tair_test/my_queue.h:47-57 | full is right when given, not full and not empty stay right, empty was right when _end was loaded |
| RingSteps.SoloOffer | TAIR/tair_test/Thread_work.cpp:99-105 | undisturbed, the micro-steps of offerJob have the effect of the class method |
| RingSteps.ExitLeavesTheRest | TAIR/tair_test/Thread_work.cpp:73-98 | at exit exactly the jobs published before the last load of _end are executed and freed, the rest are still queued |
| RingSteps.PublishedIsExecuted | TAIR/tair_test/Thread_work.cpp:75-97 | whatever is published before the last emptiness test starts is executed before the worker exits |
| RingSteps.LeftBehindExactly | TAIR/tair_test/Thread_work.cpp:77-80 | the jobs left behind are those published between the last load of _end and the load of the flag |
| RingSteps.ExitMayLeaveJobs | TAIR/tair_test/Thread_work.cpp:47-50 | a concrete run that exits with a job in the ring |
| RingSteps.ShutdownIsShort | TAIR/tair_test/Thread_work.cpp:73-98 | once the flag is set a worker exits within eight of its own steps per slot, and until then it can always move |
| RingSteps.PopIsSoon | TAIR/tair_test/Thread_work.cpp:73-98 | before the flag is set a worker with anything to fetch can always move and pops within eight of its own steps, whatever the poster does |
| Harness.AllKept | TAIR/tair_test/tair_test.cpp:106-201 | every step of the main thread or a worker keeps the invariants of the whole harness |
| Harness.ControlKeptByRingStep | TAIR/tair_test/tair_test.cpp:106-117 | offering, returning and stopping keep every ring's invariant and who is posting where |
| Harness.FateKept | TAIR/tair_test/tair_test.cpp:134-177 | each ring has received exactly the jobs posted to its worker, in creation order |
| Harness.TotalKept | TAIR/tair_test/tair_test.cpp:124-176 | total_op keeps counting the published jobs and the one under construction |
| HarnessTheorems.ExecutedAtMostOnce | TAIR/tair_test/Thread_work.cpp:73-98 | each job is executed at most once, by the worker it was posted to, in posting order, and freed after that |
| HarnessTheorems.TotalIsConserved | TAIR/tair_test/tair_test.cpp:124-176 | with no job under construction total_op is the size of the finished, in-hand and queued jobs |
| HarnessTheorems.EachJobIsDeletedOnce | TAIR/tair_test/Thread_work.cpp:96-96 | no job is deleted twice, and the deleted ones are exactly those given up and those executed and freed |
| HarnessTheorems.GivenUpIsReleasedOnce | TAIR/tair_test/tair_test.cpp:173-179 | a given-up job stays given up, never reaches a worker and is deleted exactly once |
| HarnessTheorems.NotDeletedExactly | TAIR/tair_test/Thread_work.cpp:47-50 | at the end the jobs never deleted are exactly those published after their worker's last look at its ring |
| HarnessLeak.HarnessMayLeaveJobs | TAIR/tair_test/Thread_work.cpp:47-50 | a run of the whole harness, for any job and ring size, that ends with a job counted in total_op but neither executed nor deleted |
| HarnessTheorems.EveryWorkerExits | TAIR/tair_test/Thread_work.cpp:47-50 | once all workers are joined each has executed what it saw published and freed it |
| HarnessTheorems.ShutdownEnds | TAIR/tair_test/Thread_work.cpp:47-98 | with no rounds left, the main thread and the worker it waits for take at most eight steps per slot and two per worker, and one of them can move until all are joined |
| HarnessTheorems.ScriptIsFollowed | TAIR/tair_test/tair_test.cpp:118-201 | the rounds are served in order, each once, and total_op is then the keys of those that did not give up |
| HarnessTheorems.FairWithoutRefusals | TAIR/tair_test/tair_test.cpp:106-117 | as long as no ring was full, post counts of any two workers differ by at most one |
| HarnessTheorems.PostJobEnds | TAIR/tair_test/tair_test.cpp:106-117 | once some ring has room at most one probe per worker is refused and PostJob takes a bounded number of steps, whatever the workers do |
| HarnessTheorems.PostJobEndsWhenServed | TAIR/tair_test/tair_test.cpp:106-117 | even with all rings full: some worker can always move, and once any one has taken eight steps its ring has room and PostJob takes a bounded number of further steps |
| HarnessTheorems.WorkerKeepsRoom | TAIR/tair_test/Thread_work.cpp:73-98 | a worker's step never makes a ring with room full |
| HarnessTheorems.MineIsThePosting | TAIR/tair_test/tair_test.cpp:106-117 | a worker's list is exactly the jobs posted to it, with increasing numbers |
| OpJob.OpJob.constructor | TAIR/tair_test/Opjob.cpp:12-26 | an empty batch, with value slots only for a put |
| OpJob.OpJob.Add | TAIR/tair_test/Opjob.cpp:65-80 | appends as many characters of the key and the value as their lengths say; a length of 0 or less adds no key, or no value |
| OpJob.OpJob.GetSize | TAIR/tair_test/Opjob.cpp:93-96 | the number of keys added |
| KeyFile.KeysReadBack | TAIR/tair_test/tair_test.cpp:135-144 | splitting the file on newlines gives back exactly the keys written |
| KeyFile.GeneratedIsGood | TAIR/tair_test/tair_test.cpp:90-96 | a generated key contains no newline and fits a read |
| KeyFile.FgetsMeans | TAIR/tair_test/tair_test.cpp:167-167 | fgets returns nothing at the end of the file, and else at most 1023 characters up to and including the first newline |
| KeyFile.FgetsAtLine | TAIR/tair_test/tair_test.cpp:167-167 | at a line boundary fgets returns that line, or the end of the file after the last |
| KeyFile.OffsetStable | TAIR/tair_test/tair_test.cpp:139-144 | line boundaries survive appended lines |
| KeyFile.CyclicRead | TAIR/tair_test/tair_test.cpp:164-190 | from line p of L the read succeeds if and only if it wants at most (L - p) + 4L keys, and then yields the lines (p + i) mod L and stops at a line boundary |
| TairTest.GenStr | TAIR/tair_test/tair_test.cpp:90-96 | the loop generates the printable string given by the random numbers |
| TairTest.FillJob | TAIR/tair_test/tair_test.cpp:164-190 | the loop with its stepped-back counter computes the cyclic reading |
| TairTest.WriteKeys | TAIR/tair_test/tair_test.cpp:135-148 | the put loop appends one line per key, fills the job with the same keys and with values, and each of their characters is 33 plus its own random number modulo 94 |
| TairTest.TairTest.PutRound | TAIR/tair_test/tair_test.cpp:127-152 | the file grows by the posted keys, each character of keys and values comes from its own random number, total_op grows by their number, and both cursors stay line boundaries |
| TairTest.TairTest.ReadRound | TAIR/tair_test/tair_test.cpp:153-199 | posts the lines from the cursor on and moves it if they fit five passes, otherwise changes nothing |
| TairTest.TairTest.DoRound | TAIR/tair_test/tair_test.cpp:120-199 | a put appends and posts its keys; a get or delete posts the lines from its own cursor on and moves it if they fit five passes, and otherwise changes nothing |
| TairTest.TairTest.DoWork | TAIR/tair_test/tair_test.cpp:118-201 | the file, both cursors and the posted jobs are what the rounds come to one after the other, cursors are line boundaries, and total_op grows by the rounds that do not give up |
| TairTest.PostsTheScript | TAIR/tair_test/tair_test.cpp:118-201 | over any rounds the posted jobs are, in order, of the sizes of the rounds that do not give up |
| TairTest.PerformInOrder | TAIR/tair_test/tair_test.cpp:120-200 | the rounds act one after the other, each on what the ones before it have left |
| TairTest.PerformOne | TAIR/tair_test/tair_test.cpp:120-200 | a single round does what the rounds do |
| TairTest.ScriptInOrder | TAIR/tair_test/tair_test.cpp:120-200 | the script for the harness lists the rounds in order, each judged by what the ones before it have left |
| WholeProgram.RunRounds | TAIR/tair_test/tair_test.cpp:118-201 | the rounds are carried out, and in every run of the harness on the script they come to, once all is posted, the jobs are those of the rounds that do not give up and total_op is the keys in finished, in-hand and queued jobs |
| MurmurHash.MurMurHash2 | TAIR/murmurhash2.cc:7-57 | the loop and the fall-through switch compute the hash function, which is MurmurHash2 on plain operators with signed tail bytes, and for a negative length the seed mixed with that length |
| MurmurHash.HashIsMurmur2 | TAIR/murmurhash2.cc:7-57 | the hash function and its unsigned variant equal the plain ones, which share no definition with them |
| MurmurHash.AsWordValue | TAIR/murmurhash2.cc:17-17 | the length is mixed in as its own value, a negative one modulo 2^32 |
| MurmurHash.LoadValue | TAIR/murmurhash2.cc:25-25 | a block is the number of its bytes in base 256, the lowest first |
| MurmurHash.XorTail | TAIR/murmurhash2.cc:41-47 | the fall-through switch xors the sign-extended tail word and multiplies |
| MurmurHash.TimesInverse | TAIR/murmurhash2.cc:12-31 | multiplication by m is undone by multiplication by 0xe59b19bd |
| MurmurHash.MixInverse | TAIR/murmurhash2.cc:27-32 | a loop iteration is a bijection of the running value |
| MurmurHash.ScrambleInverse | TAIR/murmurhash2.cc:27-29 | the scrambling of a block is a bijection |
| MurmurHash.FinalInverse | TAIR/murmurhash2.cc:52-54 | the final mix is a bijection |
| MurmurTheorems.BackInverse | TAIR/murmurhash2.cc:23-54 | the hash of the remaining bytes is a bijection of the running value, with its inverse computed |
| MurmurTheorems.SeedBijection | TAIR/murmurhash2.cc:17-17 | for a fixed key exactly one seed gives any wanted hash |
| MurmurTheorems.BlockBijection | TAIR/murmurhash2.cc:23-36 | with everything else fixed exactly one value of any aligned block gives any wanted hash, and it is computed |
| MurmurTheorems.BlocksAreWords | TAIR/murmurhash2.cc:25-25 | every change of one aligned block is a change of its word |
| MurmurTheorems.TailRoundTrip | TAIR/murmurhash2.cc:40-47 | the tail can be read back from the xored word despite sign extension |
| MurmurTheorems.TailInjective | TAIR/murmurhash2.cc:40-56 | keys with the same blocks and length collide only if their tails are equal |
| MurmurTheorems.AgreesWithReference | TAIR/murmurhash2.cc:38-56 | equal to MurmurHash2 on plain operators with unsigned tail bytes if and only if all tail bytes are below 0x80 |
| FileSplit.AnyReplyIsPossible | TAIR/tair_tfs/split.cc:37-55 | the system may answer a call with any short count, an interruption or an error |
| FileSplit.WriteChunk | TAIR/tair_tfs/split.cc:54-65 | writing from ptr and stepping ptr and read_byte together, the file grows by exactly the bytes the system takes of the buffer, in order |
| FileSplit.Take | TAIR/tair_tfs/split.cc:55-65 | whatever short counts and interruptions come, what the system takes is a prefix of the buffer, and all of it unless a write fails |
| FileSplit.TakeExactly | TAIR/tair_tfs/split.cc:55-66 | in figures: writing goes on until enough is offered or a write fails, and on a failure exactly the bytes offered before it are taken |
| FileSplit.CopyChunk | TAIR/tair_tfs/split.cc:42-67 | rolls when num is 3; what is in the files plus what is left in the buffer is what was read |
| FileSplit.CopyAll | TAIR/tair_tfs/split.cc:37-69 | the outer loop keeps that balance, places the chunks it sees as the layout says, and stops at the first chunk whose file does not open or that is not taken whole, and else at the read error or the end of the source |
| FileSplit.SplitFile | TAIR/tair_tfs/split.cc:15-74 | the files concatenate to the source at end of file and to a prefix of it on any error; the first open, and then the loop, fail exactly when the scripts say so; and the files are the layout of what went through |
| FileSplit.SeenAt | TAIR/tair_tfs/split.cc:37-42 | the outer loop sees an interruption exactly where the read script has one, and no empty or oversized chunk |
| FileSplitTheorems.SeenExactly | TAIR/tair_tfs/split.cc:37-42 | in figures: every read but an interrupted one returns the next bytes of the source, as many as offered, at most a buffer and at most what is left |
| FileSplitTheorems.SeenEnds | TAIR/tair_tfs/split.cc:37-41 | reading ends at a read error or, with all of the source read, at the first read that is not interrupted |
| FileSplitTheorems.OneOutcome | TAIR/tair_tfs/split.cc:37-69 | the scripts leave a single outcome: where and why the loop stops, the files and what is lost |
| FileSplit.WriteOnward | TAIR/tair_tfs/split.cc:29-62 | consecutive writes to a file opened without truncation leave what was there beyond the bytes written |
| FileSplit.DiskHoldsWhatWasWritten | TAIR/tair_tfs/split.cc:29-49 | the files on disk hold what was written if and only if no file was longer before and no higher-numbered one is left over |
| FileSplitTheorems.RegularExactly | TAIR/tair_tfs/split.cc:38-68 | every file but the last holds three chunks and the last at most three, if and only if the reads are interrupted only where that does no harm |
| FileSplitTheorems.UninterruptedIsRegular | TAIR/tair_tfs/split.cc:37-53 | without interrupted reads the shape is always the intended one |
| FileSplitTheorems.ThreeChunksPerFile | TAIR/tair_tfs/split.cc:42-53 | in that shape file k holds exactly the chunks 3k to 3k+2, and there are max(1, ceil(chunks / 3)) files |
| FileSplitTheorems.EveryChunkOnce | TAIR/tair_tfs/split.cc:37-69 | in any case the files hold the chunks in order, each once |
| FileSplitTheorems.FilesAreBounded | TAIR/tair_tfs/split.cc:13-53 | in the intended shape no file is larger than three buffers |
| FileSplitTheorems.NeverRollsAgain | TAIR/tair_tfs/split.cc:43-68 | once num has passed 3 no new file is ever started |
| FileSplitTheorems.InterruptionAfterThird | TAIR/tair_tfs/split.cc:38-68 | if the first interrupted read is the one after a third chunk, the splitting stops for good |
| FileSplitTheorems.ShortFile | TAIR/tair_tfs/split.cc:38-68 | a concrete read script whose interruption leaves the first file a chunk short |
| IndexList.Join | TAIR/tair.sh:320-328 | the loop with its emptiness test joins the entries from the first that is not empty with commas, and yields nothing if all are empty |
| IndexList.RunGetIndex | TAIR/tair.sh:80-106 | the accumulating loop over the ranges computes get_index |
| IndexList.MatchFirst | TAIR/tair.sh:84-98 | a longest match at the front is reported, and the scan goes on behind it |
| IndexList.NoMatchHere | TAIR/tair.sh:84-98 | where nothing matches the scan moves on by one character |
| IndexList.TrMeans | TAIR/tair.sh:98-98 | tr turns commas into spaces and leaves every other character |
| IndexList.DoubleMeans | TAIR/tair.sh:98-98 | sed doubles a space and leaves every other character |
| IndexList.IsRangeMeans | TAIR/tair.sh:84-84 | the first pattern matches exactly a digit string, a hyphen and a digit string |
| IndexList.IsPaddedMeans | TAIR/tair.sh:98-98 | the second pattern matches exactly a digit string between two spaces |
| IndexList.FindsRanges | TAIR/tair.sh:84-84 | the first egrep finds exactly the range entries in order |
| IndexList.SinglesOf | TAIR/tair.sh:98-98 | the padded pipeline finds exactly the single entries in order |
| IndexList.SeqCounts | TAIR/tair.sh:94-94 | the expansion of a range is the decimal numbers from its start to its end, printed without leading zeros |
| IndexList.DecimalOfValue | TAIR/tair.sh:94-94 | printing the value of a number without leading zeros gives that number back |
| IndexList.ValueConcat | TAIR/tair.sh:88-89 | the value of a digit string is that of its digits in base ten |
| IndexList.MixedList | TAIR/tair.sh:80-106 | a mixed list gives its range expansions in order and then its single indices, or fails if any range runs backwards |
| IndexList.InEntryOrder | TAIR/tair.sh:85-99 | both parts of that answer keep the order of the entries |
| IndexList.OneEntry | TAIR/tair.sh:85-98 | what a single entry contributes |
| IndexList.RoundTrip | TAIR/tair.sh:80-106 | get_index gives back any list of digit strings joined with commas |

## Left out

- Tair and TFS client calls, sockets, logging, clocks, `getopt`, sleeping, and failures to create threads; of `doWork` only the number of keys remains.
- C string terminators and raw memory: keys and values are sequences that know their length, so the terminator that `gen_str` writes behind its buffer does not appear, and a posted read job is recorded without the terminators its keys are stored with.
- Weak memory: the unlocked accesses are modelled as sequentially consistent.
- Machine integers other than the words of the hash: counters, file positions (the reader copies a `long` cursor to an `int`) and shell numbers are unbounded.
- A missing key file, read errors other than the end of the file, and failed key writes, which end the program.
- Workers that fail to start, and a harness with no workers at all.
- Destructors of `OpJob` and of the ring; which jobs are deleted is kept as a history.
- Process management in `tair.sh`, and words with newlines or shell metacharacters in its lists.
- `clean_ssd_cache.cc`, which batches names for threads that do nothing yet; `clean_data.cpp`, which lists the files of a directory; `c_mkdir.cpp`, which creates the directories on a path; `signal_test.cpp` and `little-endin.cpp`, which print what a signal or a byte order does; the configuration reader, the log writer and the makefile sample.
