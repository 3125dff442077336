/** The pool before it is stopped: every task that is added is served, so the client of
  Thread/main.cpp gets to see an empty list. */
module ThreadPoolLive {
  import opened Prelude
  import opened ThreadPool
  import opened ThreadPoolStop

  /** How far a worker is from sleeping, if it finds no more tasks. */
  function Effort(w: Worker): nat {
    match w
    case Asleep => 0 case Take => 0 case Wait => 1 case TestStop => 1 case Test => 2
    case Lock => 3 case Woken => 3 case Run(_) => 4 case Unlock(_) => 5
    case Leave => 0 case Exited => 0 case Crashed => 0
  }

  /** What a producer still costs: 20 for every task it has to add. */
  function Cost(p: Producer): nat {
    match p.phase
    case Acquire => 20 * |p.todo|
    case Push => if p.todo == [] then 0 else 20 * |p.todo| - 1
    case Release => 20 * |p.todo| + 6
    case Signal => 20 * |p.todo| + 5
  }

  /** A bound on the steps until everything is served; a queued task costs 8. */
  function LiveMeasure(s: State): nat {
    Sum(s.ws, Effort) + Sum(s.ps, Cost) + 8 * |s.tasks|
  }

  function SpuriousIn(es: seq<Event>): nat {
    if es == [] then 0 else Bit(es[0].Spurious?) + SpuriousIn(es[1..])
  }

  predicate NoStop(es: seq<Event>) {
    forall k :: 0 <= k < |es| ==> !es[k].StopStep?
  }

  predicate Running(s: State) { !s.shutdown && s.stop == Outside }

  lemma WorkerEffort(s: State, i: nat)
    requires Running(s) && PointInv(s) && Enabled(s, WorkerStep(i))
    ensures LiveMeasure(WorkerNext(s, i)) < LiveMeasure(s)
  {
    assert PointOk(s, s.ws[i]);
    SumUpdate(s.ws, i, WorkerNext(s, i).ws[i], Effort);
  }

  lemma ProducerCost(s: State, j: nat)
    requires PointInv(s) && Enabled(s, AddStep(j))
    ensures LiveMeasure(AddNext(s, j)) < LiveMeasure(s)
  {
    SumUpdate(s.ps, j, AddNext(s, j).ps[j], Cost);
  }

  lemma SignalCost(s: State, j: nat, i: nat)
    requires Enabled(s, SignalWake(j, i))
    ensures LiveMeasure(Apply(s, SignalWake(j, i))) < LiveMeasure(s)
  {
    SumUpdate(s.ws, i, Woken, Effort);
    SumUpdate(s.ps, j, s.ps[j].(phase := Acquire), Cost);
  }

  /** Every step but a spurious wake-up brings the end nearer, and such a wake-up costs 3. */
  lemma LiveStep(s: State, e: Event)
    requires Running(s) && PointInv(s) && Enabled(s, e) && !e.StopStep?
    ensures Running(Apply(s, e)) && LiveMeasure(Apply(s, e)) + 1 <= LiveMeasure(s) + 4 * Bit(e.Spurious?)
  {
    match e
    case WorkerStep(i) => WorkerEffort(s, i);
    case AddStep(j) => ProducerCost(s, j);
    case SignalWake(j, i) => SignalCost(s, j, i);
    case Spurious(i) => SumUpdate(s.ws, i, Woken, Effort);
  }

  lemma {:induction false} LiveRun(s: State, es: seq<Event>, s': State)
    requires Running(s) && Inv(s) && Runs(s, es, s') && NoStop(es)
    ensures Running(s') && Inv(s') && |es| + LiveMeasure(s') <= LiveMeasure(s) + 4 * SpuriousIn(es)
    decreases |es|
  {
    hide LiveMeasure, Apply, Enabled;
    if es != [] {
      LiveStep(s, es[0]);
      InvKept(s, es[0]);
      LiveRun(Apply(s, es[0]), es[1..], s');
    }
  }

  /** Only the stop or a wake-up for no reason could still happen. */
  ghost predicate AtRest(s: State) {
    forall e :: Enabled(s, e) ==> e.Spurious? || e.StopStep?
  }

  lemma RestIsFree(s: State)
    requires Inv(s) && AtRest(s)
    ensures s.owner == None
  {
    if s.owner.Some? {
      var e := HolderCanMove(s);
      assert false;
    }
  }

  /** At rest every worker sleeps and every producer is done. */
  lemma RestMeansIdle(s: State)
    requires Running(s) && Inv(s) && AtRest(s)
    ensures forall i :: 0 <= i < |s.ws| ==> s.ws[i].Asleep?
    ensures forall j :: 0 <= j < |s.ps| ==> Finished(s.ps[j])
  {
    RestIsFree(s);
    forall i | 0 <= i < |s.ws| ensures s.ws[i].Asleep? {
      assert PointOk(s, s.ws[i]);
      assert !Enabled(s, WorkerStep(i));
    }
    forall j | 0 <= j < |s.ps| ensures Finished(s.ps[j]) {
      assert !Enabled(s, AddStep(j));
      if s.ps[j].phase == Signal {
        var e := SignallerCanMove(s, j);
        assert false;
      }
    }
  }

  /** Sleepers hold nothing, and by the count of wake-ups they leave nothing in the list. */
  lemma RestMeansServed(s: State)
    requires Running(s) && Inv(s) && AtRest(s) && |s.ws| > 0
    ensures s.tasks == [] && multiset(s.ran) == multiset(s.added)
    ensures forall j :: 0 <= j < |s.ps| ==> Finished(s.ps[j])
  {
    RestMeansIdle(s);
    SumAtLeast(s.ws, 0, Sleeping);
    SumZero(s.ps, Owes);
    SumZero(s.ws, Heading);
    GatherEmpty(s.ws, InHand);
    assert s.added == s.taken + [] == s.taken;
  }

  /** A pool with a worker serves everything, for any number of producers: until the stop, a run
    is bounded but for its spurious wake-ups, and one in which nothing else can happen has added
    every task, emptied the list and run each ticket exactly once, with the planned pointers. So
    main reads a size of 0. */
  lemma EveryTaskIsServed(s0: State, es: seq<Event>, s: State)
    requires Init(s0) && |s0.ws| > 0 && Runs(s0, es, s) && NoStop(es)
    ensures |es| <= LiveMeasure(s0) + 4 * SpuriousIn(es)
    ensures AtRest(s) ==>
              && s.tasks == [] && |s.added| == Sum(s0.ps, Left) && multiset(s.ran) == multiset(s.added)
              && (forall k :: 0 <= k < |s.added| ==> multiset(s.ran)[s.added[k]] == 1)
              && multiset(Ptrs(s.ran)) == Gather(s0.ps, ToAdd)
  {
    hide Inv, Runs, AtRest, LiveMeasure, Ptrs;
    InitInv(s0);
    RunKeepsInv(s0, es, s);
    LiveRun(s0, es, s);
    if AtRest(s) {
      RestMeansServed(s);
      AllAdded(s0, es, s);
      SumZero(s.ps, Left);
      EachOnce(s);
      RanIsThePlan(s0, es, s);
    }
  }

  lemma {:induction false} AllAdded(s: State, es: seq<Event>, s': State)
    requires Runs(s, es, s')
    ensures |s'.added| + Sum(s'.ps, Left) == |s.added| + Sum(s.ps, Left)
    decreases |es|
  {
    if es != [] {
      NothingUncounted(s, es[0]);
      AllAdded(Apply(s, es[0]), es[1..], s');
    }
  }
}
