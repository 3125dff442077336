/** The pool as the object it is in Thread/Thread.cpp: fields updated in place by the steps of
  ThreadFunc, AddTask and StopAll, driven by a scheduler. */
module ThreadPoolObject {
  import opened Prelude
  import opened ThreadPool
  import opened ThreadPoolStop
  import opened ThreadPoolLive

  class CThreadPool {
    var taskList: seq<Task>
    var shutdown: bool
    var owner: Option<Tid>       // who holds m_pthreadMutex
    var workers: seq<Worker>     // where each worker is
    var producers: seq<Producer>
    var stopper: Stopper
    var added: seq<Task>
    var taken: seq<Task>
    var ran: seq<Task>

    function Snapshot(): State
      reads this
    {
      State(taskList, shutdown, owner, workers, producers, stopper, added, taken, ran)
    }

    constructor (threadNum: nat, plans: seq<seq<int>>)
      ensures Init(Snapshot()) && Inv(Snapshot()) && |workers| == threadNum && |producers| == |plans|
      ensures forall j :: 0 <= j < |plans| ==> producers[j].todo == plans[j]
    {
      taskList, added, taken, ran := [], [], [], [];
      shutdown, owner, stopper := false, None, Outside;
      workers := seq(threadNum, i => Lock);
      producers := seq(|plans|, j requires 0 <= j < |plans| => Producer(Acquire, plans[j]));
      new;
      InitInv(Snapshot());
    }

    /** The number of tickets added and not yet dequeued. */
    method GetTaskSize() returns (n: nat)
      ensures n == |taskList|
      ensures Inv(Snapshot()) ==> n == |added| - |taken|
    {
      n := |taskList|;
    }

    /** The next step of worker `i` in ThreadFunc. */
    method ThreadFunc(i: nat)
      requires Enabled(Snapshot(), WorkerStep(i))
      modifies this
      ensures Snapshot() == WorkerNext(old(Snapshot()), i)
    {
      match workers[i]
      case Lock =>
        owner, workers := Some(W(i)), workers[i := Test];
      case Test =>
        if |taskList| == 0 && !shutdown {
          workers := workers[i := Wait];
        } else {
          workers := workers[i := TestStop];
        }
      case Wait =>
        owner, workers := None, workers[i := Asleep];
      case Woken =>
        owner, workers := Some(W(i)), workers[i := Test];
      case TestStop =>
        workers := workers[i := if shutdown then Leave else Take];
      case Take =>
        if taskList == [] {
          workers := workers[i := Crashed];
        } else {
          var task := taskList[0];
          taskList := taskList[1..];
          taken := taken + [task];
          workers := workers[i := Unlock(task)];
        }
      case Unlock(task) =>
        owner, workers := None, workers[i := Run(task)];
      case Run(task) =>
        ran, workers := ran + [task], workers[i := Lock];
      case Leave =>
        owner, workers := None, workers[i := Exited];
    }

    /** The next step of producer `j` in AddTask, its signal waking `woken` if there is a sleeper. */
    method AddTask(j: nat, woken: Option<nat>)
      requires Enabled(Snapshot(), if woken.Some? then SignalWake(j, woken.value) else AddStep(j))
      modifies this
      ensures Snapshot() == Apply(old(Snapshot()), if woken.Some? then SignalWake(j, woken.value) else AddStep(j))
    {
      var p := producers[j];
      match p.phase
      case Acquire =>
        owner, producers := Some(P(j)), producers[j := p.(phase := Push)];
      case Push =>
        var task := Task(|added|, p.todo[0]);
        taskList := taskList + [task];
        added := added + [task];
        producers := producers[j := Producer(Release, p.todo[1..])];
      case Release =>
        owner, producers := None, producers[j := p.(phase := Signal)];
      case Signal =>
        if woken.Some? {
          workers := workers[woken.value := Woken];
        }
        producers := producers[j := p.(phase := Acquire)];
    }

    /** The next step of StopAll. */
    method StopAll()
      requires Enabled(Snapshot(), StopStep)
      modifies this
      ensures Snapshot() == StopNext(old(Snapshot()))
    {
      match stopper
      case Outside =>
        stopper := Check;
      case Check =>
        stopper := if shutdown then Refused else Store;
      case Store =>
        shutdown, stopper := true, Broadcast;
      case Broadcast =>
        workers, stopper := WakeAll(workers), Join(0);
      case Join(k) =>
        stopper := if k < |workers| then Join(k + 1) else Returned;
      case Returned =>
        stopper := Check;
    }

    /** Runs the pool under a schedule, passing over the steps that are not enabled when their
      turn comes. Whatever the schedule, the result is reached by the run of the other steps, and
      keeps the invariant of every run. */
    method Schedule(events: seq<Event>) returns (ghost es: seq<Event>)
      requires Inv(Snapshot())
      modifies this
      ensures es == EnabledOf(old(Snapshot()), events)
      ensures Inv(Snapshot()) && Runs(old(Snapshot()), es, Snapshot())
    {
      hide Inv, Runs, Enabled, Apply, WorkerNext, StopNext;
      es := [];
      NoSteps(Snapshot());
      assert events[0..] == events && [] + EnabledOf(Snapshot(), events) == EnabledOf(Snapshot(), events);
      for k := 0 to |events|
        invariant Inv(Snapshot()) && Runs(old(Snapshot()), es, Snapshot())
        invariant EnabledOf(old(Snapshot()), events) == es + EnabledOf(Snapshot(), events[k..])
      {
        var e := events[k];
        assert events[k..][1..] == events[k + 1..];
        if Enabled(Snapshot(), e) {
          assert es + ([e] + EnabledOf(Apply(Snapshot(), e), events[k + 1..])) ==
                 es + [e] + EnabledOf(Apply(Snapshot(), e), events[k + 1..]);
          InvKept(Snapshot(), e);
          OneMore(old(Snapshot()), es, Snapshot(), e);
          es := es + [e];
          StepOnce(e);
        }
      }
    }

    /** main while it adds its tasks and polls: the threads run in any order a scheduler may choose,
      until everything is added and a size of 0 is read. That always comes, and then every ticket
      is run or in a worker's hands. */
    method PollToZero(pick: State -> Event)
      requires Inv(Snapshot()) && Running(Snapshot()) && |workers| > 0
      modifies this
      ensures Inv(Snapshot()) && Running(Snapshot()) && |workers| == old(|workers|)
      ensures taskList == [] && forall j :: 0 <= j < |producers| ==> Finished(producers[j])
      ensures |added| == old(|added| + Sum(producers, Left))
      ensures multiset(Ptrs(added)) == old(AllPtrs(Snapshot()))
      ensures multiset(ran) + Gather(workers, InHand) == multiset(added)
    {
      hide Inv, Enabled, Apply, LiveMeasure;
      var size := GetTaskSize();
      while size != 0 || exists j :: 0 <= j < |producers| && !Finished(producers[j])
        invariant Inv(Snapshot()) && Running(Snapshot()) && |workers| == old(|workers|) && size == |taskList|
        invariant |added| + Sum(producers, Left) == old(|added| + Sum(producers, Left))
        invariant AllPtrs(Snapshot()) == old(AllPtrs(Snapshot()))
        decreases LiveMeasure(Snapshot())
      {
        BusyUntilServed(Snapshot());
        var e := pick(Snapshot());
        if e.Spurious? || e.StopStep? || !Enabled(Snapshot(), e) {
          e := SomeBusyMove(Snapshot());
        }
        LiveEvent(Snapshot(), e);
        InvKept(Snapshot(), e);
        StepShape(Snapshot(), e);
        NothingUncounted(Snapshot(), e);
        PtrsKept(Snapshot(), e);
        StepOnce(e);
        size := GetTaskSize();
      }
      SumZero(producers, Left);
      GatherEmpty(producers, ToAdd);
      EmptyMeansTaken(Snapshot());
    }

    /** Lets the threads run after the broadcast, in any order a scheduler may choose but without
      spurious wake-ups, until none of them can move: StopAll has returned and every worker is
      gone, unless a worker was at the wait and nobody had anything left to add. */
    method StopToTheEnd(pick: State -> Event)
      requires JustBroadcast(Snapshot())
      requires (forall i :: 0 <= i < |workers| ==> !workers[i].Wait?) ||
               exists j :: 0 <= j < |producers| && producers[j].todo != []
      modifies this
      ensures |workers| == old(|workers|) && stopper.Refused?
      ensures forall i :: 0 <= i < |workers| ==> workers[i].Exited?
    {
      hide Inv, Enabled, Apply, HelpComes, Measure;
      HelpedAtBroadcast(Snapshot());
      while Movable(Snapshot())
        invariant Stopping(Snapshot()) && HelpComes(Snapshot()) && |workers| == old(|workers|)
        decreases Measure(Snapshot())
      {
        var e := pick(Snapshot());
        if e.Spurious? || !Enabled(Snapshot(), e) {
          e := SomeMove(Snapshot());
        }
        EndComesNearer(Snapshot(), e);
        HelpKept(Snapshot(), e);
        StoppingKept(Snapshot(), e);
        StepShape(Snapshot(), e);
        StepOnce(e);
      }
      StillMeansStuck(Snapshot());
      HelpedMeansReturned(Snapshot());
    }

    method StepOnce(e: Event)
      requires Enabled(Snapshot(), e)
      modifies this
      ensures Snapshot() == Apply(old(Snapshot()), e)
    {
      match e
      case WorkerStep(i) => ThreadFunc(i);
      case Spurious(i) => workers := workers[i := Woken];
      case AddStep(j) => AddTask(j, None);
      case SignalWake(j, i) => AddTask(j, Some(i));
      case StopStep => StopAll();
    }
  }

  /** The events of a schedule that are enabled when their turn comes. */
  function EnabledOf(s: State, events: seq<Event>): seq<Event>
    decreases |events|
  {
    if events == [] then []
    else if Enabled(s, events[0]) then [events[0]] + EnabledOf(Apply(s, events[0]), events[1..])
    else EnabledOf(s, events[1..])
  }

  /** Some worker or producer can move without a spurious wake-up. */
  predicate Busy(s: State) {
    || (exists i :: 0 <= i < |s.ws| && Enabled(s, WorkerStep(i)))
    || (exists j :: 0 <= j < |s.ps| && Enabled(s, AddStep(j)))
    || (exists j, i {:trigger SignalWake(j, i)} :: 0 <= j < |s.ps| && 0 <= i < |s.ws| && Enabled(s, SignalWake(j, i)))
  }

  predicate Movable(s: State) { Busy(s) || Enabled(s, StopStep) }

  method SomeBusyMove(s: State) returns (e: Event)
    requires Busy(s)
    ensures Enabled(s, e) && !e.Spurious? && !e.StopStep?
  {
    if i :| 0 <= i < |s.ws| && Enabled(s, WorkerStep(i)) {
      e := WorkerStep(i);
    } else if j :| 0 <= j < |s.ps| && Enabled(s, AddStep(j)) {
      e := AddStep(j);
    } else {
      var j, i :| 0 <= j < |s.ps| && 0 <= i < |s.ws| && Enabled(s, SignalWake(j, i));
      e := SignalWake(j, i);
    }
  }

  method SomeMove(s: State) returns (e: Event)
    requires Movable(s)
    ensures Enabled(s, e) && !e.Spurious?
  {
    if Enabled(s, StopStep) {
      e := StopStep;
    } else {
      e := SomeBusyMove(s);
    }
  }

  /** Until everything is added and dequeued, some worker or producer can move. */
  lemma BusyUntilServed(s: State)
    requires Inv(s) && Running(s) && |s.ws| > 0
    ensures Busy(s) || (s.tasks == [] && forall j :: 0 <= j < |s.ps| ==> Finished(s.ps[j]))
  {
    if !Busy(s) {
      assert AtRest(s);
      RestMeansServed(s);
    }
  }

  lemma LiveEvent(s: State, e: Event)
    requires Running(s) && Inv(s) && Enabled(s, e) && !e.StopStep? && !e.Spurious?
    ensures Running(Apply(s, e)) && LiveMeasure(Apply(s, e)) < LiveMeasure(s)
  {
    LiveStep(s, e);
  }

  lemma EmptyMeansTaken(s: State)
    requires Inv(s) && s.tasks == []
    ensures multiset(s.ran) + Gather(s.ws, InHand) == multiset(s.added)
  {
    assert s.added == s.taken + [] == s.taken;
  }

  lemma EndComesNearer(s: State, e: Event)
    requires Stopping(s) && Enabled(s, e) && !e.Spurious?
    ensures Measure(Apply(s, e)) < Measure(s)
  {
    MeasureDrops(s, e);
  }

  lemma StillMeansStuck(s: State)
    requires !Movable(s)
    ensures Stuck(s)
  {
  }

  lemma HelpedAtBroadcast(b: State)
    requires JustBroadcast(b)
    requires (forall i :: 0 <= i < |b.ws| ==> !b.ws[i].Wait?) || exists j :: 0 <= j < |b.ps| && b.ps[j].todo != []
    ensures Stopping(b) && HelpComes(b)
  {
    BroadcastIsStopping(b);
    if exists j :: 0 <= j < |b.ps| && b.ps[j].todo != [] {
      HelpAtBroadcast(b);
    }
  }

  lemma NoSteps(s: State)
    ensures Runs(s, [], s)
  {
  }

  /** A run followed by one more step is a run. */
  lemma {:induction false} OneMore(s: State, es: seq<Event>, s': State, e: Event)
    requires Runs(s, es, s') && Enabled(s', e)
    ensures Runs(s, es + [e], Apply(s', e))
    decreases |es|
  {
    if es == [] {
      assert [e][1..] == [] && es + [e] == [e];
    } else {
      hide Enabled, Apply;
      assert (es + [e])[1..] == es[1..] + [e];
      OneMore(Apply(s, es[0]), es[1..], s', e);
    }
  }
}
