/** One worker's ring shared without a lock by the posting thread and the worker
  (TAIR/tair_test/my_queue.h with the loops of TAIR/tair_test/Thread_work.cpp).

  Every load and store of the two indices, of the slots and of the shutdown flag is a step of
  its own, and the steps of the two threads interleave freely; memory is sequentially
  consistent. A slot that was never written holds `None`. */
module RingSteps {
  import opened Prelude
  import opened MyQueue

  datatype Job = Job(id: nat, size: nat)

  /** What the posting thread does next on this ring. */
  datatype Poster =
    | Idle
    | FullEnd(job: Job)              // isFull: load _end
    | FullStart(job: Job, e: nat)    // isFull: load _start and compare
    | PushEnd(job: Job)              // push: load _end
    | PushSlot(job: Job, e: nat)     // push: store the slot
    | BumpEnd(job: Job)              // push: load _end again
    | Bump(job: Job, e: nat)         // push: store _end
    | Said(job: Job, ok: bool)       // offerJob has returned

  /** What the worker does next; `seen` is the number of jobs published when it last loaded
    _end, `d` what it loaded from the slot. */
  datatype Worker =
    | EmptyEnd                       // isEmpty: load _end
    | EmptyStart(e: nat, seen: nat)  // isEmpty: load _start and compare
    | Over(seen: nat)                // load _can_over
    | PopStart                       // pop: load _start
    | PopSlot(s: nat)                // pop: load the slot
    | DropStart(d: Job)              // pop: load _start again
    | Drop(d: Job, s: nat)           // pop: store _start
    | DoWork(d: Job)
    | Free(d: Job)
    | Exited(seen: nat)
    | Wild                           // took a slot that was never written

  /** `pushed`, `popped`, `done` and `freed` are histories, in order. */
  datatype Ring = Ring(
    start: nat, end: nat, buf: seq<Option<Job>>, over: bool, p: Poster, c: Worker,
    pushed: seq<Job>, popped: seq<Job>, done: seq<Job>, freed: seq<Job>)

  datatype Event = Call(job: Job) | PostStep | Return | SetOver | WorkStep

  predicate Init(r: Ring) {
    && r.start == r.end == 0 && |r.buf| > 0 && !r.over
    && r.p == Idle && r.c == EmptyEnd
    && r.pushed == r.popped == r.done == r.freed == []
  }

  /** Jobs are offered one at a time, and none once the flag is set. */
  predicate Enabled(r: Ring, e: Event) {
    && r.start < |r.buf| && r.end < |r.buf|
    && match e
       case Call(_) => r.p.Idle? && !r.over
       case PostStep => !r.p.Idle? && !r.p.Said? && (r.p.PushSlot? ==> r.p.e < |r.buf|)
       case Return => r.p.Said?
       case SetOver => r.p.Idle?
       case WorkStep => !r.c.Exited? && !r.c.Wild? && (r.c.PopSlot? ==> r.c.s < |r.buf|)
  }

  function PostNext(r: Ring): Ring
    requires Enabled(r, PostStep)
  {
    var n := |r.buf|;
    match r.p
    case FullEnd(j) => r.(p := FullStart(j, r.end))
    case FullStart(j, e) => r.(p := if Next(e, n) == r.start then Said(j, false) else PushEnd(j))
    case PushEnd(j) => r.(p := PushSlot(j, r.end))
    case PushSlot(j, e) => r.(buf := r.buf[e := Some(j)], p := BumpEnd(j))
    case BumpEnd(j) => r.(p := Bump(j, r.end))
    case Bump(j, e) => r.(end := Next(e, n), p := Said(j, true), pushed := r.pushed + [j])
  }

  function WorkNext(r: Ring): Ring
    requires Enabled(r, WorkStep)
  {
    var n := |r.buf|;
    match r.c
    case EmptyEnd => r.(c := EmptyStart(r.end, |r.pushed|))
    case EmptyStart(e, k) => r.(c := if e % n == r.start then Over(k) else PopStart)
    case Over(k) => r.(c := if r.over then Exited(k) else EmptyEnd)
    case PopStart => r.(c := PopSlot(r.start))
    case PopSlot(s) => r.(c := match r.buf[s] case None => Wild case Some(d) => DropStart(d))
    case DropStart(d) => r.(c := Drop(d, r.start))
    case Drop(d, s) => r.(start := Next(s, n), c := DoWork(d), popped := r.popped + [d])
    case DoWork(d) => r.(c := Free(d), done := r.done + [d])
    case Free(d) => r.(c := EmptyEnd, freed := r.freed + [d])
  }

  function Apply(r: Ring, e: Event): Ring
    requires Enabled(r, e)
  {
    match e
    case Call(j) => r.(p := FullEnd(j))
    case PostStep => PostNext(r)
    case Return => r.(p := Idle)
    case SetOver => r.(over := true)
    case WorkStep => WorkNext(r)
  }

  predicate Runs(r: Ring, es: seq<Event>, r': Ring)
    decreases |es|
  {
    if es == [] then r' == r
    else Enabled(r, es[0]) && Runs(Apply(r, es[0]), es[1..], r')
  }

  // ------------------------------------------------------------------ invariant

  predicate Sane(r: Ring) { r.start < |r.buf| && r.end < |r.buf| }

  /** The abstract queue: the unread slots. */
  function Slots(r: Ring): seq<Option<Job>>
    requires Sane(r)
  {
    Cyclic(r.buf, r.start, r.end)
  }

  function Wrap(js: seq<Job>): seq<Option<Job>> {
    seq(|js|, i requires 0 <= i < |js| => Some(js[i]))
  }

  predicate Full(r: Ring)
    requires Sane(r)
  {
    |Slots(r)| == |r.buf| - 1
  }

  /** The distance from one index to another, going round. */
  function Gap(s: nat, e: nat, n: nat): int {
    if s <= e then e - s else n - s + e
  }

  /** The unread slots hold exactly the published jobs that were not popped yet, in order. */
  ghost predicate QueueInv(r: Ring) {
    && Sane(r)
    && r.popped <= r.pushed
    && Slots(r) == Wrap(r.pushed[|r.popped|..])
  }

  ghost predicate PosterInv(r: Ring)
    requires Sane(r)
  {
    && (r.over ==> r.p.Idle?)
    && match r.p
       case FullStart(_, e) => e == r.end
       case PushEnd(_) => !Full(r)
       case PushSlot(_, e) => e == r.end && !Full(r)
       case BumpEnd(j) => r.buf[r.end] == Some(j) && !Full(r)
       case Bump(j, e) => e == r.end && r.buf[r.end] == Some(j) && !Full(r)
       case _ => true
  }

  ghost predicate WorkerInv(r: Ring)
    requires Sane(r)
  {
    && r.freed <= r.done <= r.popped
    && (if r.c.DoWork? then r.popped == r.done + [r.c.d] && r.freed == r.done
        else if r.c.Free? then r.popped == r.done == r.freed + [r.c.d]
        else r.popped == r.done == r.freed)
    && match r.c
       case EmptyStart(e, k) =>
         e < |r.buf| && |r.popped| <= k <= |r.pushed| && Gap(r.start, e, |r.buf|) == k - |r.popped|
       case Over(k) => k == |r.popped|
       case Exited(k) => k == |r.popped| && r.over
       case PopStart => Slots(r) != []
       case PopSlot(s) => s == r.start && Slots(r) != []
       case DropStart(d) => Slots(r) != [] && r.buf[r.start] == Some(d)
       case Drop(d, s) => s == r.start && Slots(r) != [] && r.buf[r.start] == Some(d)
       case Wild => false
       case _ => true
  }

  ghost predicate Inv(r: Ring) {
    QueueInv(r) && PosterInv(r) && WorkerInv(r)
  }

  // ------------------------------------------------------------------ refinement

  /** Each micro-step is a step of a bounded FIFO: it leaves the queue alone, except that the
    store of _end appends the offered job to a queue that has room, and the store of _start
    removes the oldest job, which is the one the worker holds. */
  lemma StepRefinesFifo(r: Ring, e: Event)
    requires Inv(r) && Enabled(r, e)
    ensures Sane(Apply(r, e)) && |Apply(r, e).buf| == |r.buf|
    ensures if e.PostStep? && r.p.Bump? then
              |Slots(r)| < |r.buf| - 1 && Slots(Apply(r, e)) == Slots(r) + [Some(r.p.job)]
            else if e.WorkStep? && r.c.Drop? then Slots(r) == [Some(r.c.d)] + Slots(Apply(r, e))
            else Slots(Apply(r, e)) == Slots(r)
  {
    if e.PostStep? {
      PostStepRefinesFifo(r);
    } else if e.WorkStep? && r.c.Drop? {
      CyclicPop(r.buf, r.start, r.end);
    }
  }

  lemma PostStepRefinesFifo(r: Ring)
    requires Inv(r) && Enabled(r, PostStep)
    ensures Sane(PostNext(r)) && |PostNext(r).buf| == |r.buf|
    ensures if r.p.Bump? then |Slots(r)| < |r.buf| - 1 && Slots(PostNext(r)) == Slots(r) + [Some(r.p.job)]
            else Slots(PostNext(r)) == Slots(r)
  {
    if r.p.PushSlot? {
      CyclicStore(r.buf, r.start, r.end, Some(r.p.job));
    } else if r.p.Bump? {
      CyclicLength(r.buf, r.start, r.end);
      CyclicPush(r.buf, r.start, r.end);
    }
  }

  lemma QueueKept(r: Ring, e: Event)
    requires Inv(r) && Enabled(r, e)
    ensures QueueInv(Apply(r, e))
  {
    var r' := Apply(r, e);
    StepRefinesFifo(r, e);
    if e.PostStep? && r.p.Bump? {
      assert r'.pushed[|r.popped|..] == r.pushed[|r.popped|..] + [r.p.job];
    } else if e.WorkStep? && r.c.Drop? {
      WrapTail(r.pushed, r.popped, r.c.d, Slots(r'));
    }
  }

  lemma WrapTail(pushed: seq<Job>, popped: seq<Job>, d: Job, tail: seq<Option<Job>>)
    requires popped <= pushed && Wrap(pushed[|popped|..]) == [Some(d)] + tail
    ensures popped + [d] <= pushed && tail == Wrap(pushed[|popped + [d]|..])
  {
    var rest := pushed[|popped|..];
    assert Wrap(rest)[0] == Some(rest[0]);
    assert popped + [d] == pushed[..|popped| + 1];
    assert tail == ([Some(d)] + tail)[1..] == Wrap(rest)[1..];
    assert Wrap(rest)[1..] == Wrap(rest[1..]);
    assert rest[1..] == pushed[|popped| + 1..];
  }

  lemma PosterKept(r: Ring, e: Event)
    requires Inv(r) && Enabled(r, e)
    ensures Sane(Apply(r, e)) && PosterInv(Apply(r, e))
  {
    StepRefinesFifo(r, e);
    CyclicLength(r.buf, r.start, r.end);
  }

  lemma SlotCount(r: Ring)
    requires QueueInv(r)
    ensures |Slots(r)| == |r.pushed| - |r.popped| == Gap(r.start, r.end, |r.buf|)
    ensures Slots(r) == [] <==> r.start == r.end
    ensures Full(r) <==> Next(r.end, |r.buf|) == r.start
  {
    CyclicLength(r.buf, r.start, r.end);
  }

  lemma WorkerKeptByTest(r: Ring)
    requires Inv(r) && Enabled(r, WorkStep) && (r.c.EmptyEnd? || r.c.EmptyStart? || r.c.Over?)
    ensures WorkerInv(WorkNext(r))
  {
    SlotCount(r);
    if r.c.EmptyStart? {
      SmallMod(r.c.e, |r.buf|);
    }
  }

  lemma WorkerKeptByPop(r: Ring)
    requires Inv(r) && Enabled(r, WorkStep) && !r.c.EmptyEnd? && !r.c.EmptyStart? && !r.c.Over?
    ensures Sane(WorkNext(r)) && WorkerInv(WorkNext(r))
  {
    StepRefinesFifo(r, WorkStep);
    CyclicLength(r.buf, r.start, r.end);
    if r.c.PopSlot? {
      assert Slots(r)[0] == r.buf[r.start];
      assert Wrap(r.pushed[|r.popped|..])[0].Some?;
    }
  }

  lemma WorkerKeptByPublishing(r: Ring)
    requires Inv(r) && Enabled(r, PostStep) && r.p.Bump?
    ensures Sane(PostNext(r)) && WorkerInv(PostNext(r))
  {
    PostStepRefinesFifo(r);
  }

  /** Whatever leaves the worker's side of the ring alone keeps what the worker knows. */
  lemma WorkerUndisturbed(r: Ring, r': Ring)
    requires Sane(r) && Sane(r') && WorkerInv(r)
    requires r'.c == r.c && r'.start == r.start && |r'.buf| == |r.buf| && (r.over ==> r'.over)
    requires r'.pushed == r.pushed && r'.popped == r.popped && r'.done == r.done && r'.freed == r.freed
    requires Slots(r') == Slots(r) && (Slots(r) != [] ==> r'.buf[r.start] == r.buf[r.start])
    ensures WorkerInv(r')
  {
  }

  lemma WorkerKeptByPoster(r: Ring, e: Event)
    requires Inv(r) && Enabled(r, e) && !e.WorkStep? && !(e.PostStep? && r.p.Bump?)
    ensures Sane(Apply(r, e)) && WorkerInv(Apply(r, e))
  {
    hide WorkerInv, PosterInv, Cyclic;
    var r' := Apply(r, e);
    if e.PostStep? && r.p.PushSlot? {
      SlotStored(r);
    }
    WorkerUndisturbed(r, r');
  }

  /** The slot being written is not the one the worker may have loaded. */
  lemma SlotStored(r: Ring)
    requires Inv(r) && Enabled(r, PostStep) && r.p.PushSlot?
    ensures var r' := PostNext(r);
            Sane(r') && Slots(r') == Slots(r) && (Slots(r) != [] ==> r'.buf[r.start] == r.buf[r.start])
  {
    PostStepRefinesFifo(r);
    SlotCount(r);
  }

  lemma InvKept(r: Ring, e: Event)
    requires Inv(r) && Enabled(r, e)
    ensures Inv(Apply(r, e))
  {
    QueueKept(r, e);
    PosterKept(r, e);
    if e.WorkStep? {
      if r.c.EmptyEnd? || r.c.EmptyStart? || r.c.Over? {
        WorkerKeptByTest(r);
      } else {
        WorkerKeptByPop(r);
      }
    } else if e.PostStep? && r.p.Bump? {
      WorkerKeptByPublishing(r);
    } else {
      WorkerKeptByPoster(r, e);
    }
  }

  lemma InitInv(r: Ring)
    requires Init(r)
    ensures Inv(r)
  {
  }

  lemma {:induction false} RunKeepsInv(r: Ring, es: seq<Event>, r': Ring)
    requires Inv(r) && Runs(r, es, r')
    ensures Inv(r') && r.pushed <= r'.pushed
    decreases |es|
  {
    if es != [] {
      InvKept(r, es[0]);
      PushedGrows(r, es[0]);
      RunKeepsInv(Apply(r, es[0]), es[1..], r');
    }
  }

  lemma PushedGrows(r: Ring, e: Event)
    requires Enabled(r, e)
    ensures r.pushed <= Apply(r, e).pushed
  {
  }

  /** Over any run the ring is a bounded FIFO of the published jobs: what was popped is a prefix
    of what was published, the unread slots are the rest in order, there are never more of them
    than the capacity, and no slot is read that was not written. */
  lemma RingIsFifo(r0: Ring, es: seq<Event>, r: Ring)
    requires Init(r0) && Runs(r0, es, r)
    ensures Sane(r) && r.popped <= r.pushed && !r.c.Wild?
    ensures Slots(r) == Wrap(r.pushed[|r.popped|..])
    ensures |r.pushed| - |r.popped| <= |r.buf| - 1
  {
    InitInv(r0);
    RunKeepsInv(r0, es, r);
    SlotCount(r);
  }

  /** Stale answers are conservative. `Full` is right when it is given, and `not full` stays
    right until the poster itself publishes; `empty` was right when _end was loaded, whatever
    has been published since; `not empty` stays right until the worker itself pops. */
  lemma AnswersAreConservative(r0: Ring, es: seq<Event>, r: Ring)
    requires Init(r0) && Runs(r0, es, r)
    ensures Sane(r)
    ensures r.p.FullStart? && PostNext(r).p == Said(r.p.job, false) ==> Full(r)
    ensures r.p.PushEnd? || r.p.PushSlot? || r.p.BumpEnd? || r.p.Bump? ==> !Full(r)
    ensures r.c.EmptyStart? ==> (WorkNext(r).c == Over(r.c.seen) <==> |r.popped| == r.c.seen)
    ensures r.c.PopStart? || r.c.PopSlot? || r.c.DropStart? || r.c.Drop? ==> Slots(r) != []
  {
    InitInv(r0);
    RunKeepsInv(r0, es, r);
    SlotCount(r);
    if r.c.EmptyStart? {
      SmallMod(r.c.e, |r.buf|);
    }
  }

  /** Undisturbed, the micro-steps of offerJob do what Queue.Offer of the ring class does. */
  lemma SoloOffer(r: Ring, job: Job) returns (es: seq<Event>, r': Ring)
    requires Inv(r) && r.p.Idle? && !r.over
    ensures Runs(r, es, r') && r'.p == Said(job, !Full(r)) && Sane(r') && |r'.buf| == |r.buf|
    ensures Slots(r') == if Full(r) then Slots(r) else Slots(r) + [Some(job)]
  {
    SlotCount(r);
    var r1 := r.(p := FullEnd(job));
    var r2 := r.(p := FullStart(job, r.end));
    if Full(r) {
      r' := r.(p := Said(job, false));
      es := Prepend(r2, PostStep, r', [], r');
    } else {
      var r3 := r.(p := PushEnd(job));
      es, r' := SoloPush(r3, job);
      es := Prepend(r2, PostStep, r3, es, r');
    }
    es := Prepend(r1, PostStep, r2, es, r');
    es := Prepend(r, Call(job), r1, es, r');
  }

  lemma SoloPush(r: Ring, job: Job) returns (es: seq<Event>, r': Ring)
    requires Sane(r) && !Full(r) && r.p == PushEnd(job)
    ensures Runs(r, es, r') && r'.p == Said(job, true) && Sane(r') && |r'.buf| == |r.buf|
    ensures Slots(r') == Slots(r) + [Some(job)]
  {
    var n := |r.buf|;
    var r1 := r.(p := PushSlot(job, r.end));
    var r2 := r.(p := BumpEnd(job), buf := r.buf[r.end := Some(job)]);
    var r3 := r2.(p := Bump(job, r.end));
    r' := r3.(p := Said(job, true), end := Next(r.end, n), pushed := r.pushed + [job]);
    CyclicStore(r.buf, r.start, r.end, Some(job));
    CyclicLength(r.buf, r.start, r.end);
    CyclicPush(r2.buf, r.start, r.end);
    es := Prepend(r3, PostStep, r', [], r');
    es := Prepend(r2, PostStep, r3, es, r');
    es := Prepend(r1, PostStep, r2, es, r');
    es := Prepend(r, PostStep, r1, es, r');
  }

  // ------------------------------------------------------------------ shutdown

  /** At exit the worker has executed and freed, in order, exactly the jobs that were published
    before its last load of _end; the rest are still in the ring. */
  lemma ExitLeavesTheRest(r0: Ring, es: seq<Event>, r: Ring)
    requires Init(r0) && Runs(r0, es, r) && r.c.Exited?
    ensures r.c.seen <= |r.pushed| && r.done == r.freed == r.pushed[..r.c.seen]
    ensures Sane(r) && Slots(r) == Wrap(r.pushed[r.c.seen..])
  {
    InitInv(r0);
    RunKeepsInv(r0, es, r);
  }

  /** A load of _end made after a job was published has seen it. */
  predicate SeenAtLeast(r: Ring, n: nat) {
    match r.c
    case EmptyStart(_, k) => n <= k
    case Over(k) => n <= k
    case Exited(k) => n <= k
    case _ => true
  }

  lemma {:induction false} SeenKept(r: Ring, es: seq<Event>, r': Ring, n: nat)
    requires SeenAtLeast(r, n) && n <= |r.pushed| && Runs(r, es, r')
    ensures SeenAtLeast(r', n)
    decreases |es|
  {
    if es != [] {
      PushedGrows(r, es[0]);
      SeenKept(Apply(r, es[0]), es[1..], r', n);
    }
  }

  /** Every job published before the last load of _end is executed before the worker exits. */
  lemma PublishedIsExecuted(r0: Ring, es: seq<Event>, r: Ring, es': seq<Event>, r': Ring)
    requires Init(r0) && Runs(r0, es, r) && Runs(r, es', r')
    requires !r.c.EmptyStart? && !r.c.Over? && !r.c.Exited? && r'.c.Exited?
    ensures r.pushed <= r'.done
  {
    InitInv(r0);
    RunKeepsInv(r0, es, r);
    RunKeepsInv(r, es', r');
    SeenKept(r, es', r', |r.pushed|);
  }

  function WorkSteps(es: seq<Event>): nat {
    if es == [] then 0 else Bit(es[0].WorkStep?) + WorkSteps(es[1..])
  }

  lemma {:induction false} NoWorkNoChange(r: Ring, es: seq<Event>, r': Ring)
    requires Runs(r, es, r') && WorkSteps(es) == 0
    ensures r'.c == r.c
    decreases |es|
  {
    if es != [] {
      NoWorkNoChange(Apply(r, es[0]), es[1..], r');
    }
  }

  /** The run up to and including the first step of the worker, and the rest. */
  lemma {:induction false} FirstWorkStep(r: Ring, es: seq<Event>, r': Ring)
    returns (before: Ring, rest: seq<Event>)
    requires Inv(r) && Runs(r, es, r') && WorkSteps(es) > 0
    ensures Inv(before) && before.c == r.c && Enabled(before, WorkStep) && r.pushed <= before.pushed
    ensures Runs(WorkNext(before), rest, r') && WorkSteps(rest) == WorkSteps(es) - 1
    decreases |es|
  {
    if es[0].WorkStep? {
      before, rest := r, es[1..];
    } else {
      InvKept(r, es[0]);
      PushedGrows(r, es[0]);
      before, rest := FirstWorkStep(Apply(r, es[0]), es[1..], r');
    }
  }

  /** A worker that exits two steps after loading _end saw exactly the jobs published then. */
  lemma ExitRemembersLoad(r: Ring, es: seq<Event>, r': Ring)
    requires Inv(r) && r.c.EmptyStart? && Runs(r, es, r') && WorkSteps(es) == 2 && r'.c.Exited?
    ensures r'.c.seen == r.c.seen
  {
    var r1, rest1 := FirstWorkStep(r, es, r');
    InvKept(r1, WorkStep);
    var r2, rest2 := FirstWorkStep(WorkNext(r1), rest1, r');
    NoWorkNoChange(WorkNext(r2), rest2, r');
  }

  /** The jobs left behind are exactly those published between the last load of _end, made in
    state `r`, and the load of the flag that followed it: if the worker exits in its next two
    steps, everything published up to `r` is done and everything published since is not. */
  lemma LeftBehindExactly(r0: Ring, es: seq<Event>, r: Ring, es': seq<Event>, r': Ring)
    requires Init(r0) && Runs(r0, es, r) && r.c.EmptyEnd? && Enabled(r, WorkStep)
    requires Runs(WorkNext(r), es', r') && WorkSteps(es') == 2 && r'.c.Exited?
    ensures r'.done == r.pushed <= r'.pushed
    ensures Sane(r') && Slots(r') == Wrap(r'.pushed[|r.pushed|..])
  {
    InitInv(r0);
    RunKeepsInv(r0, es, r);
    InvKept(r, WorkStep);
    RunKeepsInv(WorkNext(r), es', r');
    ExitRemembersLoad(WorkNext(r), es', r');
  }

  /** How many more steps a worker takes once the flag is set, with `unread` jobs published and
    not popped: eight per job and three to see the empty ring and the flag. */
  function ToGo(c: Worker, unread: nat): nat {
    match c
    case EmptyEnd => 8 * unread + 3
    case EmptyStart(_, _) => 8 * unread + 2
    case Over(_) => 1
    case PopStart => 8 * unread + 1
    case PopSlot(_) => 8 * unread
    case DropStart(_) => if unread == 0 then 0 else 8 * unread - 1
    case Drop(_, _) => if unread == 0 then 0 else 8 * unread - 2
    case DoWork(_) => 8 * unread + 5
    case Free(_) => 8 * unread + 4
    case Exited(_) => 0
    case Wild => 0
  }

  function Unread(r: Ring): nat {
    if |r.popped| <= |r.pushed| then |r.pushed| - |r.popped| else 0
  }

  lemma ExitComesNearer(r: Ring)
    requires Inv(r) && r.over && Enabled(r, WorkStep)
    ensures ToGo(WorkNext(r).c, Unread(WorkNext(r))) < ToGo(r.c, Unread(r))
  {
    hide Cyclic, Slots;
    SlotCount(r);
  }

  lemma ToGoBound(r: Ring)
    requires Inv(r)
    ensures ToGo(r.c, Unread(r)) <= 8 * |r.buf|
  {
    CyclicLength(r.buf, r.start, r.end);
  }

  /** Once the flag is set the worker exits after a bounded number of steps of its own, and until
    then it always has a step to take. */
  lemma {:induction false} ShutdownIsShort(r: Ring, es: seq<Event>, r': Ring)
    requires Inv(r) && r.over && Runs(r, es, r')
    ensures WorkSteps(es) + ToGo(r'.c, Unread(r')) <= ToGo(r.c, Unread(r)) <= 8 * |r.buf|
    ensures r'.c.Exited? || Enabled(r', WorkStep)
    decreases |es|
  {
    hide ToGo, Unread, Apply;
    ToGoBound(r);
    if es == [] {
      WorkerCanMove(r);
    } else {
      InvKept(r, es[0]);
      OverStays(r, es[0]);
      if es[0].WorkStep? {
        ExitComesNearer(r);
      }
      ShutdownIsShort(Apply(r, es[0]), es[1..], r');
    }
  }

  lemma WorkerCanMove(r: Ring)
    requires Inv(r)
    ensures r.c.Exited? || Enabled(r, WorkStep)
  {
  }

  lemma OverStays(r: Ring, e: Event)
    requires Inv(r) && r.over && Enabled(r, e)
    ensures var r' := Apply(r, e);
            && r'.over && |r'.buf| == |r.buf| && (e.WorkStep? ==> r' == WorkNext(r))
            && (!e.WorkStep? ==> r'.c == r.c && Unread(r') == Unread(r))
  {
  }

  // ------------------------------------------------------------------ making room

  /** How many more steps a worker with a job to fetch takes until it has popped it, counting the
    popping step. A test that loaded _end before anything was published costs another round. */
  function ToPop(c: Worker, start: nat, n: nat): nat {
    match c
    case Drop(_, _) => 1
    case DropStart(_) => 2
    case PopSlot(_) => 3
    case PopStart => 4
    case EmptyStart(e, _) => if n > 0 && e % n == start then 8 else 5
    case EmptyEnd => 6
    case Over(_) => 7
    case Free(_) => 7
    case DoWork(_) => 8
    case _ => 0
  }

  function StepsToPop(r: Ring): nat { ToPop(r.c, r.start, |r.buf|) }

  lemma PopComesNearer(r: Ring)
    requires Inv(r) && !r.over && Unread(r) > 0 && Enabled(r, WorkStep)
    ensures var r' := WorkNext(r);
            if r.c.Drop? then |r'.popped| == |r.popped| + 1
            else r'.popped == r.popped && 0 < StepsToPop(r') < StepsToPop(r)
  {
    hide Cyclic, Slots, Wrap;
    SlotCount(r);
    if r.c.EmptyEnd? {
      SmallMod(r.end, |r.buf|);
    } else if r.c.PopSlot? {
      InvKept(r, WorkStep);
    }
  }

  /** As long as the flag is not set and something is unread, the worker can move, and it pops
    within eight of its own steps, whatever the poster does. */
  lemma {:induction false} PopIsSoon(r: Ring, es: seq<Event>, r': Ring)
    requires Inv(r) && Unread(r) > 0 && Runs(r, es, r') && !r'.over
    ensures |r'.popped| >= |r.popped| && Enabled(r, WorkStep)
    ensures |r'.popped| == |r.popped| ==> WorkSteps(es) + StepsToPop(r') <= StepsToPop(r) <= 8 && StepsToPop(r') > 0
    decreases |es|
  {
    hide ToPop, Unread, Apply, Inv;
    NotOverBefore(r, es, r');
    StillFetching(r);
    if es != [] {
      InvKept(r, es[0]);
      var r1 := Apply(r, es[0]);
      RunKeepsInv(r1, es[1..], r');
      PoppedGrowsRun(r1, es[1..], r');
      PosterLeavesUnread(r, es[0]);
      if es[0].WorkStep? {
        PopComesNearer(r);
      }
      if |r1.popped| == |r.popped| {
        PopIsSoon(r1, es[1..], r');
      }
    }
  }

  lemma StillFetching(r: Ring)
    requires Inv(r) && !r.over && Unread(r) > 0
    ensures Enabled(r, WorkStep) && 0 < StepsToPop(r) <= 8
  {
  }

  lemma {:induction false} NotOverBefore(r: Ring, es: seq<Event>, r': Ring)
    requires Runs(r, es, r') && !r'.over
    ensures !r.over
    decreases |es|
  {
    if es != [] {
      NotOverBefore(Apply(r, es[0]), es[1..], r');
    }
  }

  lemma {:induction false} PoppedGrowsRun(r: Ring, es: seq<Event>, r': Ring)
    requires Runs(r, es, r')
    ensures |r.popped| <= |r'.popped|
    decreases |es|
  {
    if es != [] {
      PoppedGrowsRun(Apply(r, es[0]), es[1..], r');
    }
  }

  lemma PosterLeavesUnread(r: Ring, e: Event)
    requires Inv(r) && Enabled(r, e)
    ensures var r' := Apply(r, e);
            && |r'.buf| == |r.buf| && |r.popped| <= |r'.popped| && (e.WorkStep? ==> r' == WorkNext(r))
            && (|r'.popped| == |r.popped| ==> Unread(r') >= Unread(r))
            && (!e.WorkStep? ==> r'.popped == r.popped && StepsToPop(r') == StepsToPop(r))
  {
  }

  /** An empty ring at exit is not guaranteed: a job may be published between the load of _end
    and the load of the flag. */
  lemma ExitMayLeaveJobs(job: Job) returns (r0: Ring, es: seq<Event>, r: Ring)
    ensures Init(r0) && Runs(r0, es, r) && r.c.Exited? && Sane(r) && Slots(r) == [Some(job)]
  {
    r0 := Ring(0, 0, [None, None], false, Idle, EmptyEnd, [], [], [], []);
    var a1 := r0.(c := EmptyStart(0, 0));
    es, r := PublishAndExit(a1, job);
    es := Prepend(r0, WorkStep, a1, es, r);
  }

  lemma PublishAndExit(a1: Ring, job: Job) returns (es: seq<Event>, r: Ring)
    requires a1 == Ring(0, 0, [None, None], false, Idle, EmptyStart(0, 0), [], [], [], [])
    ensures Runs(a1, es, r) && r.c.Exited? && Sane(r) && Slots(r) == [Some(job)]
  {
    var a2 := a1.(p := FullEnd(job));
    var a3 := a1.(p := FullStart(job, 0));
    var a4 := a1.(p := PushEnd(job));
    var a5 := a1.(p := PushSlot(job, 0));
    var a6 := a1.(p := BumpEnd(job), buf := [Some(job), None]);
    es, r := BumpAndExit(a6, job);
    es := Prepend(a5, PostStep, a6, es, r);
    es := Prepend(a4, PostStep, a5, es, r);
    es := Prepend(a3, PostStep, a4, es, r);
    es := Prepend(a2, PostStep, a3, es, r);
    es := Prepend(a1, Call(job), a2, es, r);
  }

  lemma BumpAndExit(a6: Ring, job: Job) returns (es: seq<Event>, r: Ring)
    requires a6 == Ring(0, 0, [Some(job), None], false, BumpEnd(job), EmptyStart(0, 0), [], [], [], [])
    ensures Runs(a6, es, r) && r.c.Exited? && Sane(r) && Slots(r) == [Some(job)]
  {
    var a7 := a6.(p := Bump(job, 0));
    var a8 := a7.(p := Said(job, true), end := 1, pushed := [job]);
    var a9 := a8.(p := Idle);
    var b1 := a9.(over := true);
    var b2 := b1.(c := Over(0));
    r := b2.(c := Exited(0));
    es := Prepend(b2, WorkStep, r, [], r);
    es := Prepend(b1, WorkStep, b2, es, r);
    es := Prepend(a9, SetOver, b1, es, r);
    es := Prepend(a8, Return, a9, es, r);
    es := Prepend(a7, PostStep, a8, es, r);
    es := Prepend(a6, PostStep, a7, es, r);
  }

  lemma Prepend(r: Ring, e: Event, r1: Ring, es: seq<Event>, r': Ring) returns (all: seq<Event>)
    requires Enabled(r, e) && Apply(r, e) == r1 && Runs(r1, es, r')
    ensures Runs(r, all, r')
  {
    all := [e] + es;
    assert all[1..] == es;
  }
}
