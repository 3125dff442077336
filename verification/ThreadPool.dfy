/** The condition-variable thread pool of Thread/Thread.cpp as a system of small steps.

  Any number of workers run ThreadFunc, any number of producers call AddTask, and one
  more thread calls StopAll. Every lock, predicate test, wait, wake-up, list update, unlock,
  signal, flag store, broadcast and join is a step of its own, and a run is any sequence
  of steps. The wait atomically releases the mutex and sleeps; a woken thread takes the
  mutex again before it returns; a sleeper may also wake for no reason (pthread_cond_wait
  in POSIX.1-2017, System Interfaces). A signal wakes one sleeper if there is one; that it
  may wake more than one is covered by the spurious wake-ups. */
module ThreadPool {
  import opened Prelude

  /** Callers may add one pointer many times, so a task also carries its position of arrival. */
  datatype Task = Task(ticket: nat, ptr: int)

  /** What a worker does next. */
  datatype Worker =
    | Lock              // pthread_mutex_lock
    | Test              // the predicate of the inner loop
    | Wait              // about to enter pthread_cond_wait
    | Asleep            // blocked on the condition variable
    | Woken             // unblocked, about to take the mutex again
    | TestStop          // the test of shutdown after the loop
    | Take              // remove the head of the list
    | Unlock(task: Task)
    | Run(task: Task)
    | Leave             // unlock and exit
    | Exited
    | Crashed           // dereferenced the begin iterator of an empty list

  /** What a producer does next; `todo` is what it still has to add. */
  datatype Phase = Acquire | Push | Release | Signal
  datatype Producer = Producer(phase: Phase, todo: seq<int>)

  /** What the thread that calls StopAll does next. */
  datatype Stopper = Outside | Check | Store | Broadcast | Join(next: nat) | Returned | Refused

  datatype Tid = W(i: nat) | P(j: nat)

  /** `added`, `taken` and `ran` are histories: pushes, dequeues and finished runs in order. */
  datatype State = State(
    tasks: seq<Task>, shutdown: bool, owner: Option<Tid>,
    ws: seq<Worker>, ps: seq<Producer>, stop: Stopper,
    added: seq<Task>, taken: seq<Task>, ran: seq<Task>)

  datatype Event =
    | WorkerStep(i: nat)
    | Spurious(i: nat)
    | AddStep(j: nat)
    | SignalWake(j: nat, i: nat)
    | StopStep

  predicate Init(s: State) {
    && s.tasks == s.added == s.taken == s.ran == []
    && !s.shutdown && s.owner == None && s.stop == Outside
    && (forall i :: 0 <= i < |s.ws| ==> s.ws[i] == Lock)
    && (forall j :: 0 <= j < |s.ps| ==> s.ps[j].phase == Acquire)
  }

  predicate Enabled(s: State, e: Event) {
    match e
    case WorkerStep(i) =>
      && i < |s.ws|
      && !s.ws[i].Asleep? && !s.ws[i].Exited? && !s.ws[i].Crashed?
      && (s.ws[i].Lock? || s.ws[i].Woken? ==> s.owner == None)
    case Spurious(i) =>
      i < |s.ws| && s.ws[i].Asleep?
    case AddStep(j) =>
      && j < |s.ps|
      && (s.ps[j].phase == Acquire ==> s.owner == None && s.ps[j].todo != [])
      && (s.ps[j].phase == Push ==> s.ps[j].todo != [])
      && (s.ps[j].phase == Signal ==> forall i :: 0 <= i < |s.ws| ==> !s.ws[i].Asleep?)
    case SignalWake(j, i) =>
      j < |s.ps| && s.ps[j].phase == Signal && i < |s.ws| && s.ws[i].Asleep?
    case StopStep =>
      && !s.stop.Refused?
      && (s.stop.Join? && s.stop.next < |s.ws| ==> s.ws[s.stop.next].Exited?)
  }

  function WakeAll(ws: seq<Worker>): (r: seq<Worker>) {
    seq(|ws|, i requires 0 <= i < |ws| => if ws[i].Asleep? then Woken else ws[i])
  }

  function WorkerNext(s: State, i: nat): State
    requires Enabled(s, WorkerStep(i))
  {
    match s.ws[i]
    case Lock => s.(owner := Some(W(i)), ws := s.ws[i := Test])
    case Test => s.(ws := s.ws[i := if |s.tasks| == 0 && !s.shutdown then Wait else TestStop])
    case Wait => s.(owner := None, ws := s.ws[i := Asleep])
    case Woken => s.(owner := Some(W(i)), ws := s.ws[i := Test])
    case TestStop => s.(ws := s.ws[i := if s.shutdown then Leave else Take])
    case Take =>
      if s.tasks == [] then s.(ws := s.ws[i := Crashed])
      else s.(tasks := s.tasks[1..], taken := s.taken + [s.tasks[0]], ws := s.ws[i := Unlock(s.tasks[0])])
    case Unlock(t) => s.(owner := None, ws := s.ws[i := Run(t)])
    case Run(t) => s.(ran := s.ran + [t], ws := s.ws[i := Lock])
    case Leave => s.(owner := None, ws := s.ws[i := Exited])
  }

  function AddNext(s: State, j: nat): State
    requires Enabled(s, AddStep(j))
  {
    var p := s.ps[j];
    match p.phase
    case Acquire => s.(owner := Some(P(j)), ps := s.ps[j := p.(phase := Push)])
    case Push =>
      var t := Task(|s.added|, p.todo[0]);
      s.(tasks := s.tasks + [t], added := s.added + [t], ps := s.ps[j := Producer(Release, p.todo[1..])])
    case Release => s.(owner := None, ps := s.ps[j := p.(phase := Signal)])
    case Signal => s.(ps := s.ps[j := p.(phase := Acquire)])
  }

  /** StopAll may be called again once it has returned; the second call is refused. */
  function StopNext(s: State): State
    requires Enabled(s, StopStep)
  {
    match s.stop
    case Outside => s.(stop := Check)
    case Check => s.(stop := if s.shutdown then Refused else Store)
    case Store => s.(shutdown := true, stop := Broadcast)
    case Broadcast => s.(ws := WakeAll(s.ws), stop := Join(0))
    case Join(k) => s.(stop := if k < |s.ws| then Join(k + 1) else Returned)
    case Returned => s.(stop := Check)
  }

  function Apply(s: State, e: Event): State
    requires Enabled(s, e)
  {
    match e
    case WorkerStep(i) => WorkerNext(s, i)
    case Spurious(i) => s.(ws := s.ws[i := Woken])
    case AddStep(j) => AddNext(s, j)
    case SignalWake(j, i) => s.(ws := s.ws[i := Woken], ps := s.ps[j := s.ps[j].(phase := Acquire)])
    case StopStep => StopNext(s)
  }

  /** `es` is a run from `s` to `s'`. */
  predicate Runs(s: State, es: seq<Event>, s': State)
    decreases |es|
  {
    if es == [] then s' == s
    else Enabled(s, es[0]) && Runs(Apply(s, es[0]), es[1..], s')
  }

  /** A sleeper may wake for no reason, and a signal may choose any of them. */
  lemma AnySleeperMayWake(s: State, i: nat, j: nat)
    requires i < |s.ws| && s.ws[i].Asleep?
    ensures Enabled(s, Spurious(i)) && Apply(s, Spurious(i)) == s.(ws := s.ws[i := Woken])
    ensures j < |s.ps| && s.ps[j].phase == Signal ==>
              && Enabled(s, SignalWake(j, i)) && !Enabled(s, AddStep(j))
              && Apply(s, SignalWake(j, i)).ws == s.ws[i := Woken]
  {
  }

  // ------------------------------------------------------------------ the mutex

  predicate Holds(w: Worker) {
    w.Test? || w.Wait? || w.TestStop? || w.Take? || w.Unlock? || w.Leave? || w.Crashed?
  }

  ghost predicate MutexInv(s: State) {
    && (forall i {:trigger s.ws[i]} :: 0 <= i < |s.ws| ==> (Holds(s.ws[i]) <==> s.owner == Some(W(i))))
    && (forall j {:trigger s.ps[j]} :: 0 <= j < |s.ps| ==>
         ((s.ps[j].phase.Push? || s.ps[j].phase.Release?) <==> s.owner == Some(P(j))))
    && (s.owner.Some? ==> match s.owner.value case W(i) => i < |s.ws| case P(j) => j < |s.ps|)
  }

  lemma MutexKeptByWorker(s: State, i: nat)
    requires MutexInv(s) && Enabled(s, WorkerStep(i))
    ensures MutexInv(WorkerNext(s, i))
  {
  }

  lemma MutexKeptByOthers(s: State, e: Event)
    requires MutexInv(s) && Enabled(s, e) && !e.WorkerStep?
    ensures MutexInv(Apply(s, e))
  {
  }

  /** What each program point knows about the list, the flag and the other threads. */
  ghost predicate PointInv(s: State) {
    && (forall i {:trigger s.ws[i]} :: 0 <= i < |s.ws| ==> PointOk(s, s.ws[i]))
    && (forall j {:trigger s.ps[j]} :: 0 <= j < |s.ps| ==> (s.ps[j].phase.Push? ==> s.ps[j].todo != []))
    && (s.stop.Outside? || s.stop.Store? ==> !s.shutdown)
    && (s.stop.Broadcast? || s.stop.Join? || s.stop.Returned? || s.stop.Refused? ==> s.shutdown)
    && (s.stop.Join? ==> s.stop.next <= |s.ws| && forall i :: 0 <= i < s.stop.next ==> s.ws[i].Exited?)
    && (s.stop.Returned? || s.stop.Refused? || (s.stop.Check? && s.shutdown) ==>
         forall i :: 0 <= i < |s.ws| ==> s.ws[i].Exited?)
  }

  ghost predicate PointOk(s: State, w: Worker) {
    match w
    case Wait => s.tasks == []
    case TestStop => s.shutdown || s.tasks != []
    case Take => s.tasks != []
    case Leave => s.shutdown
    case Exited => s.shutdown
    case Crashed => false
    case _ => true
  }

  lemma PointKeptByWorker(s: State, i: nat)
    requires MutexInv(s) && PointInv(s) && Enabled(s, WorkerStep(i))
    ensures PointInv(WorkerNext(s, i))
  {
    var s' := WorkerNext(s, i);
    forall k | 0 <= k < |s'.ws| ensures PointOk(s', s'.ws[k]) {
      assert PointOk(s, s.ws[k]);
    }
  }

  lemma PointKeptByOthers(s: State, e: Event)
    requires MutexInv(s) && PointInv(s) && Enabled(s, e) && !e.WorkerStep?
    ensures PointInv(Apply(s, e))
  {
    var s' := Apply(s, e);
    forall k | 0 <= k < |s'.ws| ensures PointOk(s', s'.ws[k]) {
      assert PointOk(s, s.ws[k]);
    }
  }

  // ------------------------------------------------------------------ no lost wake-up

  function Sleeping(w: Worker): nat { Bit(w.Asleep?) }

  /** An awake worker on its way to the predicate test or, past it, to the dequeue. */
  function Heading(w: Worker): nat { Bit(w.Lock? || w.Test? || w.Woken? || w.TestStop? || w.Take?) }

  /** A producer that has pushed and not yet signalled. */
  function Owes(p: Producer): nat { Bit(p.phase.Release? || p.phase.Signal?) }

  ghost predicate ConservationInv(s: State) {
    !s.shutdown && Sum(s.ws, Sleeping) > 0 ==> |s.tasks| <= Sum(s.ps, Owes) + Sum(s.ws, Heading)
  }

  lemma ConservationKeptByWorker(s: State, i: nat)
    requires ConservationInv(s) && Enabled(s, WorkerStep(i)) && PointOk(s, s.ws[i])
    ensures ConservationInv(WorkerNext(s, i))
  {
    var w := WorkerNext(s, i).ws[i];
    SumUpdate(s.ws, i, w, Sleeping);
    SumUpdate(s.ws, i, w, Heading);
  }

  lemma ConservationKeptByOthers(s: State, e: Event)
    requires PointInv(s) && ConservationInv(s) && Enabled(s, e) && !e.WorkerStep?
    ensures ConservationInv(Apply(s, e))
  {
    match e
    case Spurious(i) =>
      SumUpdate(s.ws, i, Woken, Sleeping);
      SumUpdate(s.ws, i, Woken, Heading);
    case AddStep(j) =>
      SumUpdate(s.ps, j, AddNext(s, j).ps[j], Owes);
      if s.ps[j].phase.Signal? {
        SumZero(s.ws, Sleeping);
      }
    case SignalWake(j, i) =>
      SumUpdate(s.ws, i, Woken, Sleeping);
      SumUpdate(s.ws, i, Woken, Heading);
      SumUpdate(s.ps, j, s.ps[j].(phase := Acquire), Owes);
    case StopStep =>
  }

  // ------------------------------------------------------------------ histories

  function InHand(w: Worker): multiset<Task> {
    if w.Unlock? || w.Run? then multiset{w.task} else multiset{}
  }

  ghost predicate QueueInv(s: State) {
    && s.added == s.taken + s.tasks
    && forall k {:trigger s.added[k]} :: 0 <= k < |s.added| ==> s.added[k].ticket == k
  }

  lemma QueueKept(s: State, e: Event)
    requires QueueInv(s) && Enabled(s, e)
    ensures QueueInv(Apply(s, e))
  {
    var s' := Apply(s, e);
    if e.WorkerStep? && s.ws[e.i].Take? && s.tasks != [] {
      assert s.taken + s.tasks == s.taken + [s.tasks[0]] + s.tasks[1..];
    } else if e.AddStep? && s.ps[e.j].phase.Push? {
      var t := Task(|s.added|, s.ps[e.j].todo[0]);
      assert s.taken + (s.tasks + [t]) == s.taken + s.tasks + [t];
    } else {
      assert s'.added == s.added && s'.taken == s.taken && s'.tasks == s.tasks;
    }
  }

  /** Every dequeued task is in one worker's hands or has been run. */
  ghost predicate HandInv(s: State) {
    multiset(s.ran) + Gather(s.ws, InHand) == multiset(s.taken)
  }

  /** Moving what one worker holds from or to the other side keeps the balance. */
  lemma Balance(ran: multiset<Task>, held: multiset<Task>, held': multiset<Task>, h: multiset<Task>,
                h': multiset<Task>, done: multiset<Task>, taken: multiset<Task>, took: multiset<Task>)
    requires ran + held == taken && held' + h == held + h' && done + h' == h + took
    ensures (ran + done) + held' == taken + took
  {
    forall x ensures ((ran + done) + held')[x] == (taken + took)[x] {
      assert (ran + held)[x] == taken[x];
      assert (held' + h)[x] == (held + h')[x];
      assert (done + h')[x] == (h + took)[x];
    }
  }

  /** What a step of a worker at `w` finishes, and what it dequeues from `tasks`. */
  function Done(w: Worker): seq<Task> { if w.Run? then [w.task] else [] }
  function Took(w: Worker, tasks: seq<Task>): seq<Task> { if w.Take? then tasks[..Bit(tasks != [])] else [] }

  lemma WorkerHistories(s: State, i: nat)
    requires Enabled(s, WorkerStep(i)) && PointOk(s, s.ws[i])
    ensures var w, s' := s.ws[i], WorkerNext(s, i);
            && s'.ws == s.ws[i := s'.ws[i]]
            && s'.ran == s.ran + Done(w) && s'.taken == s.taken + Took(w, s.tasks)
            && (if w.Take? then s.tasks != [] && s'.ws[i] == Unlock(s.tasks[0])
                else if w.Unlock? then s'.ws[i] == Run(w.task)
                else !s'.ws[i].Unlock? && !s'.ws[i].Run?)
  {
  }

  lemma HandsBalance(w: Worker, w': Worker, tasks: seq<Task>)
    requires if w.Take? then tasks != [] && w' == Unlock(tasks[0])
             else if w.Unlock? then w' == Run(w.task)
             else !w'.Unlock? && !w'.Run?
    ensures multiset(Done(w)) + InHand(w') == InHand(w) + multiset(Took(w, tasks))
  {
  }

  lemma HandKeptByWorker(s: State, i: nat)
    requires HandInv(s) && Enabled(s, WorkerStep(i)) && PointOk(s, s.ws[i])
    ensures HandInv(WorkerNext(s, i))
  {
    WorkerHistories(s, i);
    var w, s' := s.ws[i], WorkerNext(s, i);
    HandsBalance(w, s'.ws[i], s.tasks);
    GatherUpdate(s.ws, i, s'.ws[i], InHand);
    HandMoved(s.ran, Done(w), s.taken, Took(w, s.tasks), s.ws, s'.ws, InHand(w), InHand(s'.ws[i]));
  }

  lemma HandMoved(ran: seq<Task>, done: seq<Task>, taken: seq<Task>, took: seq<Task>,
                  ws: seq<Worker>, ws': seq<Worker>, h: multiset<Task>, h': multiset<Task>)
    requires multiset(ran) + Gather(ws, InHand) == multiset(taken)
    requires Gather(ws', InHand) + h == Gather(ws, InHand) + h'
    requires multiset(done) + h' == h + multiset(took)
    ensures multiset(ran + done) + Gather(ws', InHand) == multiset(taken + took)
  {
    Balance(multiset(ran), Gather(ws, InHand), Gather(ws', InHand), h, h',
            multiset(done), multiset(taken), multiset(took));
  }

  lemma OtherHistories(s: State, e: Event)
    requires Enabled(s, e) && !e.WorkerStep?
    ensures var s' := Apply(s, e);
            && s'.ran == s.ran && s'.taken == s.taken && |s'.ws| == |s.ws|
            && forall i :: 0 <= i < |s.ws| ==> s'.ws[i] == s.ws[i] || (s.ws[i].Asleep? && s'.ws[i].Woken?)
  {
  }

  lemma HandKeptByOthers(s: State, e: Event)
    requires HandInv(s) && Enabled(s, e) && !e.WorkerStep?
    ensures HandInv(Apply(s, e))
  {
    OtherHistories(s, e);
    var ws' := Apply(s, e).ws;
    forall i | 0 <= i < |s.ws| ensures InHand(s.ws[i]) == InHand(ws'[i]) {
      if ws'[i] != s.ws[i] {
        assert InHand(s.ws[i]) == multiset{} == InHand(ws'[i]);
      }
    }
    GatherSame(s.ws, ws', InHand);
  }

  // ------------------------------------------------------------------ every reachable state

  ghost predicate Inv(s: State) {
    MutexInv(s) && PointInv(s) && ConservationInv(s) && QueueInv(s) && HandInv(s)
  }

  lemma InitInv(s: State)
    requires Init(s)
    ensures Inv(s)
  {
    SumZero(s.ws, Sleeping);
    GatherEmpty(s.ws, InHand);
  }

  lemma InvKept(s: State, e: Event)
    requires Inv(s) && Enabled(s, e)
    ensures Inv(Apply(s, e))
  {
    QueueKept(s, e);
    if e.WorkerStep? {
      assert PointOk(s, s.ws[e.i]);
      MutexKeptByWorker(s, e.i);
      PointKeptByWorker(s, e.i);
      ConservationKeptByWorker(s, e.i);
      HandKeptByWorker(s, e.i);
    } else {
      MutexKeptByOthers(s, e);
      PointKeptByOthers(s, e);
      ConservationKeptByOthers(s, e);
      HandKeptByOthers(s, e);
    }
  }

  /** No thread appears or disappears, and the flag is never cleared. */
  lemma StepShape(s: State, e: Event)
    requires Enabled(s, e)
    ensures |Apply(s, e).ws| == |s.ws| && |Apply(s, e).ps| == |s.ps| && (s.shutdown ==> Apply(s, e).shutdown)
  {
  }

  lemma {:induction false} RunKeepsInv(s: State, es: seq<Event>, s': State)
    requires Inv(s) && Runs(s, es, s')
    ensures Inv(s') && |s'.ws| == |s.ws| && |s'.ps| == |s.ps|
    ensures s.shutdown ==> s'.shutdown
    decreases |es|
  {
    if es != [] {
      InvKept(s, es[0]);
      StepShape(s, es[0]);
      RunKeepsInv(Apply(s, es[0]), es[1..], s');
    }
  }

  /** No wake-up is lost: while the pool is not stopped and some worker sleeps, every queued
    task is matched by a producer that still owes its signal or by an awake idle worker. */
  lemma WorkConservation(s0: State, es: seq<Event>, s: State)
    requires Init(s0) && Runs(s0, es, s)
    requires !s.shutdown && exists i :: 0 <= i < |s.ws| && s.ws[i].Asleep?
    ensures |s.tasks| <= Sum(s.ps, Owes) + Sum(s.ws, Heading)
  {
    InitInv(s0);
    RunKeepsInv(s0, es, s);
    var i :| 0 <= i < |s.ws| && s.ws[i].Asleep?;
    SumAtLeast(s.ws, i, Sleeping);
  }

  /** So with no signal outstanding, idle workers that all sleep leave no task behind. */
  lemma NoTaskUnclaimed(s0: State, es: seq<Event>, s: State)
    requires Init(s0) && Runs(s0, es, s) && !s.shutdown
    requires forall j :: 0 <= j < |s.ps| ==> s.ps[j].phase.Acquire?
    requires forall i :: 0 <= i < |s.ws| ==> s.ws[i].Asleep? || s.ws[i].Run?
    requires exists i :: 0 <= i < |s.ws| && s.ws[i].Asleep?
    ensures s.tasks == []
  {
    WorkConservation(s0, es, s);
    SumZero(s.ps, Owes);
    SumZero(s.ws, Heading);
  }

  /** FIFO and at most once: dequeues follow the order of the pushes, nobody dequeues from an
    empty list, and no ticket is run twice or run while it is also in a worker's hands. */
  lemma FifoAtMostOnce(s0: State, es: seq<Event>, s: State)
    requires Init(s0) && Runs(s0, es, s)
    ensures s.added == s.taken + s.tasks
    ensures forall i :: 0 <= i < |s.ws| ==> !s.ws[i].Crashed? && (s.ws[i].Take? ==> s.tasks != [])
    ensures forall t :: multiset(s.ran)[t] + Gather(s.ws, InHand)[t] <= 1
    ensures forall t :: t in s.ran ==> t in s.taken
  {
    InitInv(s0);
    RunKeepsInv(s0, es, s);
    TakenDistinct(s);
    forall i | 0 <= i < |s.ws| ensures !s.ws[i].Crashed? && (s.ws[i].Take? ==> s.tasks != []) {
      assert PointOk(s, s.ws[i]);
    }
  }

  lemma TakenDistinct(s: State)
    requires QueueInv(s) && HandInv(s)
    ensures forall t :: multiset(s.ran)[t] + Gather(s.ws, InHand)[t] <= 1
    ensures forall t :: t in s.ran ==> t in s.taken
  {
    forall k | 0 <= k < |s.taken| ensures s.taken[k].ticket == k {
      assert s.taken[k] == s.added[k];
    }
    forall t ensures multiset(s.ran)[t] + Gather(s.ws, InHand)[t] == multiset(s.taken)[t] <= 1 {
      Distinct(s.taken, t);
    }
    forall t | t in s.ran ensures t in s.taken {
      assert t in multiset(s.ran);
      assert t in multiset(s.taken);
    }
  }

  lemma {:induction false} Distinct(ts: seq<Task>, t: Task)
    requires forall k :: 0 <= k < |ts| ==> ts[k].ticket == k
    ensures multiset(ts)[t] <= 1
  {
    if ts != [] {
      var n := |ts| - 1;
      var front := ts[..n];
      assert ts == front + [ts[n]];
      Distinct(front, t);
      assert ts[n] !in front;
    }
  }

  // ------------------------------------------------------------------ whose tasks they are

  /** The pointers of some tickets, in order. */
  function Ptrs(ts: seq<Task>): (ps: seq<int>)
    ensures |ps| == |ts| && forall k :: 0 <= k < |ts| ==> ps[k] == ts[k].ptr
  {
    seq(|ts|, k requires 0 <= k < |ts| => ts[k].ptr)
  }

  /** What a producer still has to add. */
  function ToAdd(p: Producer): multiset<int> { multiset(p.todo) }

  /** All pointers, added or still to be added. */
  function AllPtrs(s: State): multiset<int> { multiset(Ptrs(s.added)) + Gather(s.ps, ToAdd) }

  lemma PtrsGrow(ts: seq<Task>, t: Task)
    ensures Ptrs(ts + [t]) == Ptrs(ts) + [t.ptr]
  {
  }

  lemma PtrMoved(added: multiset<int>, rest: multiset<int>, rest': multiset<int>, todo: multiset<int>,
                 todo': multiset<int>, x: int)
    requires rest' + todo == rest + todo' && todo == multiset{x} + todo'
    ensures added + multiset{x} + rest' == added + rest
  {
    forall y ensures (added + multiset{x} + rest')[y] == (added + rest)[y] {
      assert (rest' + todo)[y] == (rest + todo')[y];
    }
  }

  lemma SameToAdd(s: State, e: Event)
    requires Enabled(s, e) && !(e.AddStep? && s.ps[e.j].phase.Push?)
    ensures var s' := Apply(s, e);
            && s'.added == s.added && |s'.ps| == |s.ps|
            && forall j :: 0 <= j < |s.ps| ==> s'.ps[j].todo == s.ps[j].todo
  {
  }

  /** Every step keeps them: a push moves the caller's next pointer to the list. */
  lemma PtrsKept(s: State, e: Event)
    requires Enabled(s, e)
    ensures AllPtrs(Apply(s, e)) == AllPtrs(s)
  {
    if e.AddStep? && s.ps[e.j].phase.Push? {
      PushKeepsPtrs(s, e.j);
    } else {
      SameToAdd(s, e);
      GatherSame(s.ps, Apply(s, e).ps, ToAdd);
    }
  }

  lemma PushKeepsPtrs(s: State, j: nat)
    requires Enabled(s, AddStep(j)) && s.ps[j].phase.Push?
    ensures AllPtrs(AddNext(s, j)) == AllPtrs(s)
  {
    var p, p' := s.ps[j], AddNext(s, j).ps[j];
    GatherUpdate(s.ps, j, p', ToAdd);
    PushedPtr(s, j);
    assert p.todo == [p.todo[0]] + p'.todo;
    PtrMoved(multiset(Ptrs(s.added)), Gather(s.ps, ToAdd), Gather(AddNext(s, j).ps, ToAdd), ToAdd(p), ToAdd(p'),
             p.todo[0]);
  }

  lemma PushedPtr(s: State, j: nat)
    requires Enabled(s, AddStep(j)) && s.ps[j].phase.Push?
    ensures multiset(Ptrs(AddNext(s, j).added)) == multiset(Ptrs(s.added)) + multiset{s.ps[j].todo[0]}
  {
    PtrsGrow(s.added, Task(|s.added|, s.ps[j].todo[0]));
  }

  lemma {:induction false} RunKeepsPtrs(s: State, es: seq<Event>, s': State)
    requires Runs(s, es, s')
    ensures AllPtrs(s') == AllPtrs(s)
    decreases |es|
  {
    if es != [] {
      PtrsKept(s, es[0]);
      RunKeepsPtrs(Apply(s, es[0]), es[1..], s');
    }
  }

  /** The list is fed with the callers' own pointers: over every run those added and those still
    to be added make up those planned at the start, with multiplicity. */
  lemma PointersAreThePlan(s0: State, es: seq<Event>, s: State)
    requires Init(s0) && Runs(s0, es, s)
    ensures multiset(Ptrs(s.added)) + Gather(s.ps, ToAdd) == Gather(s0.ps, ToAdd)
  {
    RunKeepsPtrs(s0, es, s);
    assert Ptrs(s0.added) == [];
  }

  lemma InPlannedOrderStep(s: State, e: Event)
    requires Enabled(s, e) && |s.ps| == 1
    ensures var s' := Apply(s, e);
            |s'.ps| == 1 && Ptrs(s'.added) + s'.ps[0].todo == Ptrs(s.added) + s.ps[0].todo
  {
    var s' := Apply(s, e);
    if e.AddStep? && s.ps[0].phase.Push? {
      var todo := s.ps[0].todo;
      PtrsGrow(s.added, Task(|s.added|, todo[0]));
      assert Ptrs(s.added) + [todo[0]] + todo[1..] == Ptrs(s.added) + todo;
    }
  }

  lemma {:induction false} InPlannedOrderRun(s: State, es: seq<Event>, s': State)
    requires Runs(s, es, s') && |s.ps| == 1
    ensures |s'.ps| == 1 && Ptrs(s'.added) + s'.ps[0].todo == Ptrs(s.added) + s.ps[0].todo
    decreases |es|
  {
    if es != [] {
      InPlannedOrderStep(s, es[0]);
      InPlannedOrderRun(Apply(s, es[0]), es[1..], s');
    }
  }

  /** A single producer, as in main.cpp, adds its plan in order. */
  lemma OneProducerInOrder(s0: State, es: seq<Event>, s: State)
    requires Init(s0) && Runs(s0, es, s) && |s0.ps| == 1
    ensures |s.ps| == 1 && Ptrs(s.added) + s.ps[0].todo == s0.ps[0].todo
  {
    InPlannedOrderRun(s0, es, s);
    assert Ptrs(s0.added) + s0.ps[0].todo == s0.ps[0].todo;
  }

  lemma PtrsConcat(a: seq<Task>, b: seq<Task>)
    ensures Ptrs(a + b) == Ptrs(a) + Ptrs(b)
  {
  }

  lemma Middle<T>(a: seq<T>, x: T, b: seq<T>)
    ensures multiset(a + [x] + b) == multiset(a + b) + multiset{x}
  {
  }

  lemma CutAt<T>(ts: seq<T>, i: nat)
    requires i < |ts|
    ensures ts == ts[..i] + [ts[i]] + ts[i + 1..]
  {
  }

  lemma TakeOut(ts: seq<Task>, i: nat)
    requires i < |ts|
    ensures multiset(ts) == multiset(ts[..i] + ts[i + 1..]) + multiset{ts[i]}
    ensures multiset(Ptrs(ts)) == multiset(Ptrs(ts[..i] + ts[i + 1..])) + multiset{ts[i].ptr}
  {
    hide Ptrs;
    var front, back := ts[..i], ts[i + 1..];
    CutAt(ts, i);
    Middle(front, ts[i], back);
    PtrsConcat(front, back);
    PtrsConcat(front, [ts[i]]);
    PtrsConcat(front + [ts[i]], back);
    PtrsOfOne(ts[i]);
    Middle(Ptrs(front), ts[i].ptr, Ptrs(back));
  }

  lemma PtrsOfOne(t: Task)
    ensures Ptrs([t]) == [t.ptr]
  {
  }

  lemma Cancel<T>(a: multiset<T>, b: multiset<T>, x: T)
    requires a + multiset{x} == b + multiset{x}
    ensures a == b
  {
    assert a == (a + multiset{x}) - multiset{x} && b == (b + multiset{x}) - multiset{x};
  }

  /** The same tickets have the same pointers. */
  lemma {:induction false} PtrsOfSame(a: seq<Task>, b: seq<Task>)
    requires multiset(a) == multiset(b)
    ensures multiset(Ptrs(a)) == multiset(Ptrs(b))
    decreases |a|
  {
    hide Ptrs;
    if a == [] {
      assert |b| == |multiset(b)| == |multiset(a)| == 0;
    } else {
      var i := Position(b, a[0]);
      TakeOut(a, 0);
      TakeOut(b, i);
      Cancel(multiset(a[..0] + a[1..]), multiset(b[..i] + b[i + 1..]), a[0]);
      PtrsOfSame(a[..0] + a[1..], b[..i] + b[i + 1..]);
    }
  }

  lemma Position(ts: seq<Task>, t: Task) returns (i: nat)
    requires t in multiset(ts)
    ensures i < |ts| && ts[i] == t
  {
    i :| 0 <= i < |ts| && ts[i] == t;
  }

  /** Once all is added and every ticket has run, what ran is exactly the plan. */
  lemma RanIsThePlan(s0: State, es: seq<Event>, s: State)
    requires Init(s0) && Runs(s0, es, s) && multiset(s.ran) == multiset(s.added)
    requires forall j :: 0 <= j < |s.ps| ==> s.ps[j].todo == []
    ensures multiset(Ptrs(s.ran)) == multiset(Ptrs(s.added)) == Gather(s0.ps, ToAdd)
    ensures |s0.ps| == 1 ==> Ptrs(s.added) == s0.ps[0].todo
  {
    hide Ptrs;
    PointersAreThePlan(s0, es, s);
    GatherEmpty(s.ps, ToAdd);
    PtrsOfSame(s.ran, s.added);
    if |s0.ps| == 1 {
      OneProducerInOrder(s0, es, s);
    }
  }
}
