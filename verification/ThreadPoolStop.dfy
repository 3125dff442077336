/** What StopAll of Thread/Thread.cpp guarantees, exactly, and the client of Thread/main.cpp.

  StopAll stores the flag and broadcasts without the mutex, so a worker between the predicate
  test and the wait misses both. This module bounds the damage, shows that every client of the
  pool has runs in which StopAll never returns, and proves exactly when it does return. */
module ThreadPoolStop {
  import opened Prelude
  import opened ThreadPool

  // ------------------------------------------------------------------ dequeues after the store

  function AtTake(w: Worker): nat { Bit(w.Take?) }

  lemma TakePotential(s: State, e: Event)
    requires Enabled(s, e) && s.shutdown
    ensures |Apply(s, e).taken| + Sum(Apply(s, e).ws, AtTake) <= |s.taken| + Sum(s.ws, AtTake)
    ensures s.taken <= Apply(s, e).taken
  {
    match e
    case WorkerStep(i) => SumUpdate(s.ws, i, Apply(s, e).ws[i], AtTake);
    case _ =>
      OtherHistories(s, e);
      SumSame(s.ws, Apply(s, e).ws, AtTake);
  }

  lemma {:induction false} TakePotentialRun(s: State, es: seq<Event>, s': State)
    requires Runs(s, es, s') && s.shutdown
    ensures |s'.taken| + Sum(s'.ws, AtTake) <= |s.taken| + Sum(s.ws, AtTake)
    ensures s.taken <= s'.taken
    decreases |es|
  {
    if es != [] {
      TakePotential(s, es[0]);
      StepShape(s, es[0]);
      TakePotentialRun(Apply(s, es[0]), es[1..], s');
    }
  }

  /** A weight carried by at most one thread sums to at most one. */
  lemma {:induction false} SumUnique<T>(s: seq<T>, f: T -> nat)
    requires forall i :: 0 <= i < |s| ==> f(s[i]) <= 1
    requires forall i, j :: 0 <= i < j < |s| ==> f(s[i]) == 0 || f(s[j]) == 0
    ensures Sum(s, f) <= 1
  {
    if s != [] {
      if f(s[0]) == 0 {
        SumUnique(s[1..], f);
      } else {
        SumZero(s[1..], f);
      }
    }
  }

  /** After the store of shutdown at most one task is dequeued, whatever the threads do; and
    none at all unless a worker was already past its test of the flag at that moment. */
  lemma AtMostOneMoreTask(s0: State, es: seq<Event>, s: State, es': seq<Event>, s': State)
    requires Init(s0) && Runs(s0, es, s) && s.shutdown && Runs(s, es', s')
    ensures s.taken <= s'.taken
    ensures |s'.taken| <= |s.taken| + 1
    ensures (forall i :: 0 <= i < |s.ws| ==> !s.ws[i].Take?) ==> s'.taken == s.taken
  {
    InitInv(s0);
    RunKeepsInv(s0, es, s);
    TakePotentialRun(s, es', s');
    SumUnique(s.ws, AtTake);
    if forall i :: 0 <= i < |s.ws| ==> !s.ws[i].Take? {
      SumZero(s.ws, AtTake);
    }
  }

  // ------------------------------------------------------------------ sleepers after the broadcast

  /** The broadcast of StopAll has just been sent in a reachable state. */
  ghost predicate JustBroadcast(b: State) {
    Inv(b) && b.stop == Join(0) && forall i {:trigger b.ws[i]} :: 0 <= i < |b.ws| ==> !b.ws[i].Asleep?
  }

  lemma BroadcastReached(s0: State, es: seq<Event>, s: State)
    requires Init(s0) && Runs(s0, es, s) && s.stop.Broadcast?
    ensures JustBroadcast(Apply(s, StopStep))
  {
    InitInv(s0);
    RunKeepsInv(s0, es, s);
    InvKept(s, StopStep);
  }

  predicate Drowsy(w: Worker) { w.Wait? || w.Asleep? }

  lemma NoNewSleeper(s: State, e: Event)
    requires Enabled(s, e) && s.shutdown
    ensures var s' := Apply(s, e);
            |s'.ws| == |s.ws| && forall i {:trigger s'.ws[i]} :: 0 <= i < |s.ws| && Drowsy(s'.ws[i]) ==> Drowsy(s.ws[i])
  {
  }

  lemma {:induction false} NoNewSleeperRun(s: State, es: seq<Event>, s': State)
    requires Runs(s, es, s') && s.shutdown
    ensures |s'.ws| == |s.ws|
    ensures forall i {:trigger s'.ws[i]} :: 0 <= i < |s.ws| && Drowsy(s'.ws[i]) ==> Drowsy(s.ws[i])
    decreases |es|
  {
    if es != [] {
      NoNewSleeper(s, es[0]);
      StepShape(s, es[0]);
      NoNewSleeperRun(Apply(s, es[0]), es[1..], s');
    }
  }

  /** After the broadcast only one worker can ever sleep: the one that held the mutex between
    the predicate test and the wait when the broadcast was sent. */
  lemma AtMostOneSleeper(b: State, es: seq<Event>, s: State)
    requires JustBroadcast(b) && Runs(b, es, s)
    ensures |s.ws| == |b.ws|
    ensures forall i :: 0 <= i < |s.ws| && Drowsy(s.ws[i]) ==> b.ws[i].Wait? && b.owner == Some(W(i))
    ensures forall i, j :: 0 <= i < |s.ws| && 0 <= j < |s.ws| && Drowsy(s.ws[i]) && Drowsy(s.ws[j]) ==> i == j
  {
    NoNewSleeperRun(b, es, s);
  }

  /** Nothing rouses a sleeper in these steps. */
  predicate Quiet(es: seq<Event>) {
    forall k :: 0 <= k < |es| ==> !es[k].Spurious? && !es[k].SignalWake?
  }

  lemma {:induction false} StaysDrowsy(s: State, es: seq<Event>, s': State, i: nat)
    requires s.shutdown && !s.stop.Broadcast? && !s.stop.Store?
    requires Runs(s, es, s') && Quiet(es) && i < |s.ws| && Drowsy(s.ws[i])
    ensures i < |s'.ws| && Drowsy(s'.ws[i])
    decreases |es|
  {
    if es != [] {
      DrowsyStep(s, es[0], i);
      StepShape(s, es[0]);
      StaysDrowsy(Apply(s, es[0]), es[1..], s', i);
    }
  }

  lemma DrowsyStep(s: State, e: Event, i: nat)
    requires Enabled(s, e) && !e.Spurious? && !e.SignalWake? && i < |s.ws| && Drowsy(s.ws[i])
    requires s.shutdown && !s.stop.Broadcast? && !s.stop.Store?
    ensures Drowsy(Apply(s, e).ws[i]) && !Apply(s, e).stop.Broadcast? && !Apply(s, e).stop.Store?
  {
  }

  /** The worker that was about to wait sleeps through the stop: unless a later signal or a
    spurious wake-up rouses it, StopAll never returns. */
  lemma SleepsThroughStop(b: State, es: seq<Event>, s: State, i: nat)
    requires JustBroadcast(b) && i < |b.ws| && b.ws[i].Wait? && Runs(b, es, s) && Quiet(es)
    ensures i < |s.ws| && Drowsy(s.ws[i]) && !s.stop.Returned? && !s.stop.Refused?
  {
    StaysDrowsy(b, es, s, i);
    RunKeepsInv(b, es, s);
  }

  // ------------------------------------------------------------------ when StopAll does return

  function Rank(w: Worker): nat {
    match w
    case Exited => 0 case Crashed => 0 case Asleep => 0
    case Wait => 1 case Leave => 1 case TestStop => 2 case Test => 3
    case Lock => 4 case Woken => 4 case Run(_) => 5 case Unlock(_) => 6 case Take => 7
  }

  function Work(p: Producer): nat {
    match p.phase
    case Acquire => 8 * |p.todo|
    case Push => if p.todo == [] then 0 else 8 * |p.todo| - 1
    case Release => 8 * |p.todo| + 6
    case Signal => 8 * |p.todo| + 5
  }

  function StopRank(c: Stopper, n: nat): nat {
    match c
    case Outside => n + 8 case Store => n + 6 case Broadcast => n + 5
    case Join(k) => if k <= n then n - k + 4 else 4
    case Returned => 3 case Check => 2 case Refused => 0
  }

  function Measure(s: State): nat {
    Sum(s.ws, Rank) + Sum(s.ps, Work) + StopRank(s.stop, |s.ws|)
  }

  lemma WorkerMeasureDrops(s: State, i: nat)
    requires Enabled(s, WorkerStep(i)) && s.shutdown
    ensures Measure(WorkerNext(s, i)) < Measure(s)
  {
    SumUpdate(s.ws, i, WorkerNext(s, i).ws[i], Rank);
  }

  lemma ProducerMeasureDrops(s: State, j: nat)
    requires Enabled(s, AddStep(j))
    ensures Measure(AddNext(s, j)) < Measure(s)
  {
    SumUpdate(s.ps, j, AddNext(s, j).ps[j], Work);
  }

  /** A signal costs its producer more than the roused worker gains. */
  lemma SignalMeasureDrops(s: State, j: nat, i: nat)
    requires Enabled(s, SignalWake(j, i))
    ensures Measure(Apply(s, SignalWake(j, i))) < Measure(s)
  {
    SumUpdate(s.ws, i, Woken, Rank);
    SumUpdate(s.ps, j, s.ps[j].(phase := Acquire), Work);
  }

  /** Once the flag is set every step but a spurious wake-up brings the end nearer. */
  lemma MeasureDrops(s: State, e: Event)
    requires Enabled(s, e) && s.shutdown && !e.Spurious?
    requires s.stop.Join? ==> s.stop.next <= |s.ws|
    requires !s.stop.Outside? && !s.stop.Store? && !s.stop.Broadcast?
    ensures Measure(Apply(s, e)) < Measure(s)
  {
    match e
    case WorkerStep(i) => WorkerMeasureDrops(s, i);
    case AddStep(j) => ProducerMeasureDrops(s, j);
    case SignalWake(j, i) => SignalMeasureDrops(s, j, i);
    case StopStep =>
  }

  ghost predicate Stopping(s: State) {
    Inv(s) && s.shutdown && !s.stop.Outside? && !s.stop.Store? && !s.stop.Broadcast?
  }

  lemma BroadcastIsStopping(b: State)
    requires JustBroadcast(b)
    ensures Stopping(b)
  {
  }

  lemma StoppingKept(s: State, e: Event)
    requires Stopping(s) && Enabled(s, e)
    ensures Stopping(Apply(s, e))
  {
    InvKept(s, e);
    StepShape(s, e);
    StopStepKept(s, e);
  }

  lemma StopStepKept(s: State, e: Event)
    requires Enabled(s, e) && s.shutdown && !s.stop.Outside? && !s.stop.Store? && !s.stop.Broadcast?
    ensures var c := Apply(s, e).stop; !c.Outside? && !c.Store? && !c.Broadcast?
  {
  }

  predicate NoSpurious(es: seq<Event>) {
    forall k :: 0 <= k < |es| ==> !es[k].Spurious?
  }

  lemma {:induction false} RunsAreShort(s: State, es: seq<Event>, s': State)
    requires Stopping(s) && Runs(s, es, s') && NoSpurious(es)
    ensures Stopping(s') && |es| + Measure(s') <= Measure(s)
    decreases |es|
  {
    if es != [] {
      StoppingKept(s, es[0]);
      MeasureDrops(s, es[0]);
      RunsAreShort(Apply(s, es[0]), es[1..], s');
    }
  }

  /** Nothing can happen any more, spurious wake-ups aside. */
  ghost predicate Stuck(s: State) {
    forall e :: Enabled(s, e) ==> e.Spurious?
  }

  /** Whoever holds the mutex can move. */
  lemma HolderCanMove(s: State) returns (e: Event)
    requires Inv(s) && s.owner.Some?
    ensures Enabled(s, e) && !e.Spurious? && !e.StopStep?
  {
    match s.owner.value
    case W(i) =>
      assert PointOk(s, s.ws[i]);
      e := WorkerStep(i);
    case P(j) =>
      e := AddStep(j);
  }

  lemma StuckMeansFree(s: State)
    requires Inv(s) && Stuck(s)
    ensures s.owner == None
  {
    if s.owner.Some? {
      var e := HolderCanMove(s);
      assert false;
    }
  }

  /** While the stop is under way and nobody sleeps, some thread can always move: whoever
    holds the mutex, or any thread that wants it, or the join. */
  lemma StuckMeansReturned(s: State)
    requires Stopping(s) && Stuck(s) && forall i :: 0 <= i < |s.ws| ==> !s.ws[i].Asleep?
    ensures s.stop.Refused? && forall i :: 0 <= i < |s.ws| ==> s.ws[i].Exited?
  {
    assert !Enabled(s, StopStep);
    StuckMeansFree(s);
    forall i | 0 <= i < |s.ws| ensures s.ws[i].Exited? {
      assert PointOk(s, s.ws[i]);
      assert !Enabled(s, WorkerStep(i));
    }
  }

  lemma {:induction false} NobodySleeps(s: State, es: seq<Event>, s': State)
    requires Runs(s, es, s') && s.shutdown && forall i :: 0 <= i < |s.ws| ==> !Drowsy(s.ws[i])
    ensures Quiet(es)
    decreases |es|
  {
    if es != [] {
      NoNewSleeper(s, es[0]);
      StepShape(s, es[0]);
      NobodySleeps(Apply(s, es[0]), es[1..], s');
    }
  }

  /** With no worker between test and wait at the broadcast, StopAll returns: every run is
    bounded, and one that cannot go on has joined every worker. */
  lemma StopAllReturns(b: State, es: seq<Event>, s: State)
    requires JustBroadcast(b) && Runs(b, es, s)
    requires forall i :: 0 <= i < |b.ws| ==> !b.ws[i].Wait?
    ensures |es| <= Measure(b)
    ensures Stuck(s) ==> s.stop.Refused? && forall i :: 0 <= i < |s.ws| ==> s.ws[i].Exited?
  {
    NobodySleeps(b, es, s);
    RunsAreShort(b, es, s);
    AtMostOneSleeper(b, es, s);
    if Stuck(s) {
      forall i | 0 <= i < |s.ws| ensures !s.ws[i].Asleep? {
        assert !Drowsy(s.ws[i]);
      }
      StuckMeansReturned(s);
    }
  }

  ghost predicate IdleProducers(s: State) {
    forall j {:trigger s.ps[j]} :: 0 <= j < |s.ps| ==> s.ps[j] == Producer(Acquire, [])
  }

  lemma OneMoreStep(s: State) returns (e: Event)
    requires Stopping(s) && IdleProducers(s) && !Stuck(s)
    ensures Enabled(s, e) && !e.Spurious? && !e.SignalWake?
    ensures Stopping(Apply(s, e)) && IdleProducers(Apply(s, e)) && Measure(Apply(s, e)) < Measure(s)
  {
    e :| Enabled(s, e) && !e.Spurious?;
    IdleProducersStay(s, e);
    StoppingKept(s, e);
    MeasureDrops(s, e);
  }

  /** Every run of a stopping pool goes on until nothing can happen. */
  lemma {:induction false} RunToTheEnd(s: State) returns (es: seq<Event>, s': State)
    requires Stopping(s) && IdleProducers(s)
    ensures Runs(s, es, s') && Quiet(es) && Stuck(s')
    decreases Measure(s)
  {
    hide Inv, Stuck, Enabled, Apply, Measure;
    if Stuck(s) {
      es, s' := [], s;
    } else {
      var e := OneMoreStep(s);
      var rest: seq<Event>;
      rest, s' := RunToTheEnd(Apply(s, e));
      es := [e] + rest;
      assert es[1..] == rest;
    }
  }

  lemma IdleProducersStay(s: State, e: Event)
    requires Enabled(s, e) && IdleProducers(s)
    ensures !e.SignalWake? && Apply(s, e).ps == s.ps
  {
  }

  lemma {:induction false} RunsConcat(s: State, es: seq<Event>, t: State, es': seq<Event>, u: State)
    requires Runs(s, es, t) && Runs(t, es', u)
    ensures Runs(s, es + es', u)
    decreases |es|
  {
    if es == [] {
      assert es + es' == es';
    } else {
      assert (es + es')[1..] == es[1..] + es';
      RunsConcat(Apply(s, es[0]), es[1..], t, es', u);
    }
  }

  /** Producers with nothing to add may signal before the worker at the wait sleeps. */
  lemma {:induction false} SignalsFirst(s: State, i: nat) returns (es: seq<Event>, s': State)
    requires Stopping(s) && i < |s.ws| && s.ws[i].Wait? && forall k :: 0 <= k < |s.ws| ==> !s.ws[k].Asleep?
    requires forall j :: 0 <= j < |s.ps| ==> s.ps[j].todo == []
    ensures Runs(s, es, s') && Quiet(es) && Stopping(s') && IdleProducers(s')
    decreases Sum(s.ps, Owes)
  {
    if j: nat :| j < |s.ps| && s.ps[j].phase != Acquire {
      assert s.owner == Some(W(i)) && s.ps[j].phase == Signal;
      var e := AddStep(j);
      StoppingKept(s, e);
      SumUpdate(s.ps, j, Apply(s, e).ps[j], Owes);
      var rest: seq<Event>;
      rest, s' := SignalsFirst(Apply(s, e), i);
      es := [e] + rest;
      assert es[1..] == rest;
    } else {
      es, s' := [], s;
      forall j | 0 <= j < |s.ps| ensures s.ps[j] == Producer(Acquire, []) {
        assert s.ps[j].phase == Acquire;
      }
    }
  }

  /** With nothing left to add, a worker at the wait makes StopAll hang. */
  lemma HangsWithoutHelp(b: State, i: nat) returns (es: seq<Event>, s: State)
    requires JustBroadcast(b) && i < |b.ws| && b.ws[i].Wait?
    requires forall j :: 0 <= j < |b.ps| ==> b.ps[j].todo == []
    ensures Runs(b, es, s) && NoSpurious(es) && Stuck(s) && !s.stop.Refused?
  {
    hide Runs, Stuck, IdleProducers;
    BroadcastIsStopping(b);
    var es1, t := SignalsFirst(b, i);
    var es2;
    es2, s := RunToTheEnd(t);
    es := es1 + es2;
    RunsConcat(b, es1, t, es2, s);
    SleepsThroughStop(b, es, s, i);
  }

  /** A producer that is yet to signal after the worker at the wait has gone to sleep. */
  predicate Helper(s: State, j: nat) {
    && j < |s.ps|
    && (s.ps[j].todo != [] || s.ps[j].phase == Release ||
        (s.ps[j].phase == Signal && forall i :: 0 <= i < |s.ws| ==> !s.ws[i].Wait?))
  }

  /** At most one worker is drowsy, and if one is, help is on its way. */
  ghost predicate HelpComes(s: State) {
    && (forall i, k {:trigger s.ws[i], s.ws[k]} ::
          0 <= i < |s.ws| && 0 <= k < |s.ws| && Drowsy(s.ws[i]) && Drowsy(s.ws[k]) ==> i == k)
    && ((exists i :: 0 <= i < |s.ws| && Drowsy(s.ws[i])) ==> exists j :: Helper(s, j))
  }

  lemma HelpKept(s: State, e: Event)
    requires Stopping(s) && HelpComes(s) && Enabled(s, e) && !e.Spurious?
    ensures HelpComes(Apply(s, e))
  {
    var s' := Apply(s, e);
    NoNewSleeper(s, e);
    if i :| 0 <= i < |s'.ws| && Drowsy(s'.ws[i]) {
      assert Drowsy(s.ws[i]);
      var j :| Helper(s, j);
      HelperKept(s, e, j, i);
    }
  }

  lemma HelperKept(s: State, e: Event, j: nat, i: nat)
    requires Stopping(s) && HelpComes(s) && Enabled(s, e) && !e.Spurious? && Helper(s, j)
    requires i < |s.ws| && Drowsy(Apply(s, e).ws[i])
    ensures Helper(Apply(s, e), j)
  {
    var s' := Apply(s, e);
    NoNewSleeper(s, e);
    NoNewWait(s, e);
    if e == AddStep(j) && s.ps[j].phase == Release {
      assert s.owner == Some(P(j));
    }
  }

  lemma NoNewWait(s: State, e: Event)
    requires Enabled(s, e) && s.shutdown
    ensures var s' := Apply(s, e);
            |s'.ws| == |s.ws| && forall i {:trigger s'.ws[i]} :: 0 <= i < |s.ws| && s'.ws[i].Wait? ==> s.ws[i].Wait?
  {
  }

  lemma {:induction false} HelpStays(s: State, es: seq<Event>, s': State)
    requires Stopping(s) && HelpComes(s) && Runs(s, es, s') && NoSpurious(es)
    ensures Stopping(s') && HelpComes(s')
    decreases |es|
  {
    if es != [] {
      HelpKept(s, es[0]);
      StoppingKept(s, es[0]);
      HelpStays(Apply(s, es[0]), es[1..], s');
    }
  }

  lemma SignallerCanMove(s: State, j: nat) returns (e: Event)
    requires j < |s.ps| && s.ps[j].phase == Signal
    ensures Enabled(s, e) && !e.Spurious? && !e.StopStep?
  {
    if i: nat :| i < |s.ws| && s.ws[i].Asleep? {
      e := SignalWake(j, i);
    } else {
      e := AddStep(j);
    }
  }

  /** When nothing can move, no producer is yet to signal. */
  lemma StuckMeansNoHelper(s: State, j: nat)
    requires Stopping(s) && Stuck(s)
    ensures !Helper(s, j)
  {
    StuckMeansFree(s);
    if j < |s.ps| {
      assert !Enabled(s, AddStep(j));
      if s.ps[j].phase == Signal {
        var e := SignallerCanMove(s, j);
        assert false;
      }
    }
  }

  /** Exactly when the stop succeeds: every run without spurious wake-ups ends with StopAll
    returned if and only if, when the broadcast was sent, no worker was between the predicate
    test and the wait, or some producer still had a task to add, whose signal comes late enough. */
  lemma StopAllReturnsIff(b: State)
    requires JustBroadcast(b)
    ensures (forall es, s :: Runs(b, es, s) && NoSpurious(es) && Stuck(s) ==> s.stop.Refused?)
       <==> ((forall i :: 0 <= i < |b.ws| ==> !b.ws[i].Wait?) || exists j :: 0 <= j < |b.ps| && b.ps[j].todo != [])
    ensures forall es, s :: Runs(b, es, s) && NoSpurious(es) ==> |es| <= Measure(b)
  {
    hide Inv, Runs, Stuck, HelpComes, Measure;
    BroadcastIsStopping(b);
    forall es, s | Runs(b, es, s) && NoSpurious(es) ensures |es| <= Measure(b) {
      RunsAreShort(b, es, s);
    }
    if forall i :: 0 <= i < |b.ws| ==> !b.ws[i].Wait? {
      forall es, s | Runs(b, es, s) && NoSpurious(es) && Stuck(s) ensures s.stop.Refused? {
        StopAllReturns(b, es, s);
      }
    } else if exists j :: 0 <= j < |b.ps| && b.ps[j].todo != [] {
      HelpAtBroadcast(b);
      forall es, s | Runs(b, es, s) && NoSpurious(es) && Stuck(s) ensures s.stop.Refused? {
        HelpStays(b, es, s);
        HelpedMeansReturned(s);
      }
    } else {
      var i :| 0 <= i < |b.ws| && b.ws[i].Wait?;
      var es, s := HangsWithoutHelp(b, i);
    }
  }

  lemma HelpAtBroadcast(b: State)
    requires JustBroadcast(b) && exists j :: 0 <= j < |b.ps| && b.ps[j].todo != []
    ensures HelpComes(b)
  {
    var j: nat :| j < |b.ps| && b.ps[j].todo != [];
    assert Helper(b, j);
  }

  lemma HelpedMeansReturned(s: State)
    requires Stopping(s) && HelpComes(s) && Stuck(s)
    ensures s.stop.Refused? && forall i :: 0 <= i < |s.ws| ==> s.ws[i].Exited?
  {
    forall j ensures !Helper(s, j) {
      StuckMeansNoHelper(s, j);
    }
    assert forall i :: 0 <= i < |s.ws| ==> !Drowsy(s.ws[i]);
    StuckMeansReturned(s);
  }

  // ------------------------------------------------------------------ the client of main.cpp

  predicate Finished(p: Producer) { p.phase == Acquire && p.todo == [] }

  /** main adds all its tasks, then polls the size and calls StopAll only on reading 0. */
  predicate ClientMay(s: State, e: Event) {
    e.StopStep? && (s.stop.Outside? || s.stop.Returned?) ==>
      s.tasks == [] && forall j :: 0 <= j < |s.ps| ==> Finished(s.ps[j])
  }

  predicate ClientRuns(s: State, es: seq<Event>, s': State)
    decreases |es|
  {
    if es == [] then s' == s
    else Enabled(s, es[0]) && ClientMay(s, es[0]) && ClientRuns(Apply(s, es[0]), es[1..], s')
  }

  lemma {:induction false} ClientRunsAreRuns(s: State, es: seq<Event>, s': State)
    requires ClientRuns(s, es, s')
    ensures Runs(s, es, s')
    decreases |es|
  {
    if es != [] {
      ClientRunsAreRuns(Apply(s, es[0]), es[1..], s');
    }
  }

  function Left(p: Producer): nat { |p.todo| }

  /** The client has added everything before it stops, and nothing is lost on the way. */
  ghost predicate ClientInv(s: State, total: nat) {
    && |s.added| + Sum(s.ps, Left) == total
    && (!s.stop.Outside? ==> s.tasks == [] && forall j {:trigger s.ps[j]} :: 0 <= j < |s.ps| ==> Finished(s.ps[j]))
  }

  lemma FinishedStay(s: State, e: Event)
    requires Enabled(s, e) && s.tasks == [] && forall j :: 0 <= j < |s.ps| ==> Finished(s.ps[j])
    ensures Apply(s, e).ps == s.ps && Apply(s, e).tasks == [] && Apply(s, e).added == s.added
  {
  }

  lemma NothingUncounted(s: State, e: Event)
    requires Enabled(s, e)
    ensures |Apply(s, e).added| + Sum(Apply(s, e).ps, Left) == |s.added| + Sum(s.ps, Left)
  {
    if e.AddStep? || e.SignalWake? {
      SumUpdate(s.ps, e.j, Apply(s, e).ps[e.j], Left);
    }
  }

  lemma ClientKept(s: State, e: Event, total: nat)
    requires ClientInv(s, total) && Enabled(s, e) && ClientMay(s, e)
    ensures ClientInv(Apply(s, e), total)
  {
    NothingUncounted(s, e);
    if !s.stop.Outside? {
      FinishedStay(s, e);
    }
  }

  lemma {:induction false} ClientRunKept(s: State, es: seq<Event>, s': State, total: nat)
    requires ClientInv(s, total) && ClientRuns(s, es, s')
    ensures ClientInv(s', total)
    decreases |es|
  {
    if es != [] {
      ClientKept(s, es[0], total);
      ClientRunKept(Apply(s, es[0]), es[1..], s', total);
    }
  }

  /** When StopAll has returned to this client, every task it added has run exactly once, and the
    pointers that ran are those it planned, as often as it planned them. */
  lemma ClientRunsEveryTaskOnce(s0: State, es: seq<Event>, s: State)
    requires Init(s0) && ClientRuns(s0, es, s) && (s.stop.Returned? || s.stop.Refused?)
    ensures |s.added| == Sum(s0.ps, Left)
    ensures multiset(s.ran) == multiset(s.added)
    ensures forall k :: 0 <= k < |s.added| ==> multiset(s.ran)[s.added[k]] == 1
    ensures multiset(Ptrs(s.ran)) == Gather(s0.ps, ToAdd)
    ensures |s0.ps| == 1 ==> Ptrs(s.added) == s0.ps[0].todo
  {
    hide Ptrs;
    InitInv(s0);
    ClientRunsAreRuns(s0, es, s);
    RunKeepsInv(s0, es, s);
    ClientRunKept(s0, es, s, Sum(s0.ps, Left));
    SumZero(s.ps, Left);
    AllRan(s);
    RanIsThePlan(s0, es, s);
  }

  /** With nothing queued and every worker gone, each ticket has run once. */
  lemma AllRan(s: State)
    requires QueueInv(s) && HandInv(s) && s.tasks == [] && forall i :: 0 <= i < |s.ws| ==> s.ws[i].Exited?
    ensures multiset(s.ran) == multiset(s.added)
    ensures forall k :: 0 <= k < |s.added| ==> multiset(s.ran)[s.added[k]] == 1
  {
    GatherEmpty(s.ws, InHand);
    assert s.added == s.taken;
    EachOnce(s);
  }

  lemma EachOnce(s: State)
    requires QueueInv(s) && multiset(s.ran) == multiset(s.added)
    ensures forall k :: 0 <= k < |s.added| ==> multiset(s.ran)[s.added[k]] == 1
  {
    forall k | 0 <= k < |s.added| ensures multiset(s.ran)[s.added[k]] == 1 {
      Distinct(s.added, s.added[k]);
      assert s.added[k] in multiset(s.added);
    }
  }

  /** Why main may poll the size without the mutex: once everything was added, a size of 0 is
    final, and every ticket has been dequeued and is run or in a worker's hands. */
  lemma SizeZeroIsFinal(s0: State, es: seq<Event>, s: State, es': seq<Event>, s': State)
    requires Init(s0) && Runs(s0, es, s) && Runs(s, es', s')
    requires s.tasks == [] && forall j :: 0 <= j < |s.ps| ==> Finished(s.ps[j])
    ensures s'.tasks == [] && s'.added == s.added == s'.taken
    ensures multiset(s'.ran) + Gather(s'.ws, InHand) == multiset(s.added)
  {
    InitInv(s0);
    RunKeepsInv(s0, es, s);
    RunKeepsInv(s, es', s');
    NothingAddedAgain(s, es', s');
  }

  lemma {:induction false} NothingAddedAgain(s: State, es: seq<Event>, s': State)
    requires Runs(s, es, s') && s.tasks == [] && forall j :: 0 <= j < |s.ps| ==> Finished(s.ps[j])
    ensures s'.tasks == [] && s'.added == s.added
    decreases |es|
  {
    if es != [] {
      FinishedStay(s, es[0]);
      NothingAddedAgain(Apply(s, es[0]), es[1..], s');
    }
  }

  // ------------------------------------------------------------------ every client can hang

  lemma {:induction false} ClientConcat(s: State, es: seq<Event>, t: State, es': seq<Event>, u: State)
    requires ClientRuns(s, es, t) && ClientRuns(t, es', u)
    ensures ClientRuns(s, es + es', u)
    decreases |es|
  {
    if es == [] {
      assert es + es' == es';
    } else {
      assert (es + es')[1..] == es[1..] + es';
      ClientConcat(Apply(s, es[0]), es[1..], t, es', u);
    }
  }

  /** The pool at rest: every worker is about to lock, no producer is inside AddTask. */
  predicate Resting(s: State) {
    && !s.shutdown && s.owner == None && s.stop == Outside
    && (forall i {:trigger s.ws[i]} :: 0 <= i < |s.ws| ==> s.ws[i] == Lock)
    && (forall j {:trigger s.ps[j]} :: 0 <= j < |s.ps| ==> s.ps[j].phase == Acquire)
  }

  /** One call of AddTask, undisturbed. */
  lemma AddOne(s: State, j: nat) returns (es: seq<Event>, s': State)
    requires Resting(s) && j < |s.ps| && s.ps[j].todo != []
    ensures ClientRuns(s, es, s') && Resting(s') && |s'.ws| == |s.ws|
    ensures s'.ps == s.ps[j := Producer(Acquire, s.ps[j].todo[1..])]
  {
    var e := AddStep(j);
    var s1 := Apply(s, e);
    var s2 := Apply(s1, e);
    var s3 := Apply(s2, e);
    s' := Apply(s3, e);
    es := Prepend(s3, e, s', [], s');
    es := Prepend(s2, e, s3, es, s');
    es := Prepend(s1, e, s2, es, s');
    es := Prepend(s, e, s1, es, s');
  }

  lemma {:induction false} AddAll(s: State) returns (es: seq<Event>, s': State)
    requires Resting(s)
    ensures ClientRuns(s, es, s') && Resting(s') && |s'.ws| == |s.ws|
    ensures forall j :: 0 <= j < |s'.ps| ==> Finished(s'.ps[j])
    decreases Sum(s.ps, Left)
  {
    if j: nat :| j < |s.ps| && s.ps[j].todo != [] {
      var es1, t := AddOne(s, j);
      SumUpdate(s.ps, j, t.ps[j], Left);
      var es2;
      es2, s' := AddAll(t);
      es := es1 + es2;
      ClientConcat(s, es1, t, es2, s');
    } else {
      es, s' := [], s;
    }
  }

  /** The first worker takes and runs the oldest task, undisturbed. */
  lemma ServeOne(s: State) returns (es: seq<Event>, s': State)
    requires Resting(s) && |s.ws| > 0 && s.tasks != []
    ensures ClientRuns(s, es, s') && Resting(s') && s'.ps == s.ps && |s'.ws| == |s.ws| && |s'.tasks| == |s.tasks| - 1
  {
    var e := WorkerStep(0);
    var s1 := Apply(s, e);
    var s2 := Apply(s1, e);
    var s3 := Apply(s2, e);
    assert s3.ws[0] == Take;
    var es3;
    es3, s' := ServeTaken(s3);
    es := Prepend(s2, e, s3, es3, s');
    es := Prepend(s1, e, s2, es, s');
    es := Prepend(s, e, s1, es, s');
  }

  lemma ServeTaken(s: State) returns (es: seq<Event>, s': State)
    requires !s.shutdown && s.owner == Some(W(0)) && s.stop == Outside && s.tasks != []
    requires |s.ws| > 0 && s.ws[0] == Take && forall i :: 0 < i < |s.ws| ==> s.ws[i] == Lock
    requires forall j :: 0 <= j < |s.ps| ==> s.ps[j].phase == Acquire
    ensures ClientRuns(s, es, s') && Resting(s') && s'.ps == s.ps && |s'.ws| == |s.ws| && |s'.tasks| == |s.tasks| - 1
  {
    var e := WorkerStep(0);
    var s1 := Apply(s, e);
    var s2 := Apply(s1, e);
    s' := Apply(s2, e);
    es := Prepend(s2, e, s', [], s');
    es := Prepend(s1, e, s2, es, s');
    es := Prepend(s, e, s1, es, s');
  }

  lemma {:induction false} ServeAll(s: State) returns (es: seq<Event>, s': State)
    requires Resting(s) && |s.ws| > 0
    ensures ClientRuns(s, es, s') && Resting(s') && s'.ps == s.ps && |s'.ws| == |s.ws| && s'.tasks == []
    decreases |s.tasks|
  {
    if s.tasks == [] {
      es, s' := [], s;
    } else {
      var es1, t := ServeOne(s);
      var es2;
      es2, s' := ServeAll(t);
      es := es1 + es2;
      ClientConcat(s, es1, t, es2, s');
    }
  }

  /** From any state in which the client may stop the pool while a worker is about to test: the
    worker tests the predicate, then the flag is stored and the broadcast sent before it waits. */
  lemma StopInTheGap(s: State, i: nat) returns (es: seq<Event>, b: State)
    requires s.tasks == [] && !s.shutdown && s.owner == None && s.stop == Outside
    requires forall j :: 0 <= j < |s.ps| ==> Finished(s.ps[j])
    requires i < |s.ws| && (s.ws[i].Lock? || s.ws[i].Woken?)
    ensures ClientRuns(s, es, b) && b.stop == Join(0) && b.ps == s.ps
    ensures i < |b.ws| && b.ws[i].Wait? && forall k :: 0 <= k < |b.ws| ==> !b.ws[k].Asleep?
  {
    var s1 := Apply(s, WorkerStep(i));
    var s2 := Apply(s1, WorkerStep(i));
    var s3 := Apply(s2, StopStep);
    var s4 := Apply(s3, StopStep);
    var s5 := Apply(s4, StopStep);
    b := Apply(s5, StopStep);
    es := Prepend(s5, StopStep, b, [], b);
    es := Prepend(s4, StopStep, s5, es, b);
    es := Prepend(s3, StopStep, s4, es, b);
    es := Prepend(s2, StopStep, s3, es, b);
    es := Prepend(s1, WorkerStep(i), s2, es, b);
    es := Prepend(s, WorkerStep(i), s1, es, b);
  }

  lemma {:induction false} FinishedMeansQuiet(s: State, es: seq<Event>, s': State)
    requires Runs(s, es, s') && NoSpurious(es) && forall j :: 0 <= j < |s.ps| ==> Finished(s.ps[j])
    ensures Quiet(es)
    decreases |es|
  {
    if es != [] {
      FinishedMeansQuiet(Apply(s, es[0]), es[1..], s');
    }
  }

  /** The gap is real for every client: whatever the number of workers and whatever is to be
    added, there is a run of the client of main.cpp after whose broadcast StopAll never returns
    unless a wake-up comes for no reason. */
  lemma StopAllCanHang(s0: State) returns (es: seq<Event>, b: State)
    requires Init(s0) && |s0.ws| > 0
    ensures ClientRuns(s0, es, b) && JustBroadcast(b)
    ensures forall es', s :: Runs(b, es', s) && NoSpurious(es') ==> !s.stop.Returned? && !s.stop.Refused?
  {
    hide Inv, Runs, ClientRuns;
    var es1, s1 := AddAll(s0);
    var es2, s2 := ServeAll(s1);
    var es3, b' := StopInTheGap(s2, 0);
    b := b';
    ClientConcat(s0, es1, s1, es2, s2);
    ClientConcat(s0, es1 + es2, s2, es3, b);
    es := es1 + es2 + es3;
    InitInv(s0);
    ClientRunsAreRuns(s0, es, b);
    RunKeepsInv(s0, es, b);
    forall es', s | Runs(b, es', s) && NoSpurious(es') ensures !s.stop.Returned? && !s.stop.Refused? {
      FinishedMeansQuiet(b, es', s);
      SleepsThroughStop(b, es', s, 0);
    }
  }

  lemma Prepend(s: State, e: Event, s1: State, es: seq<Event>, s': State) returns (r: seq<Event>)
    requires Enabled(s, e) && ClientMay(s, e) && Apply(s, e) == s1 && ClientRuns(s1, es, s')
    ensures ClientRuns(s, r, s')
  {
    r := [e] + es;
    assert r[1..] == es;
  }
}
