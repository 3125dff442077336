/** The whole test harness of TAIR/tair_test: the main thread builds jobs, posts them round
  robin over the workers' rings and finally stops the workers (tair_test.cpp, Thread_work.cpp).

  A state holds one ring per worker; a step is a step of the main thread or of one worker. The
  main thread's accesses to a ring are the micro-steps of RingSteps. Rounds come from an
  arbitrary script that says how many keys each round wants and whether its reader gives up. */
module Harness {
  import opened Prelude
  import opened MyQueue
  import opened RingSteps

  datatype Round = Round(nums: nat, givesUp: bool)

  /** What a round leaves in total_op. */
  function Kept(r: Round): nat { if r.givesUp then 0 else r.nums }

  /** What became of the k-th job ever created: posted to a worker, or given up and deleted. */
  datatype Fate = Posted(worker: nat, size: nat) | GaveUp(size: nat)

  datatype Main =
    | NextRound
    | Building(nums: nat, givesUp: bool)  // total_op is raised, the job is being filled
    | Post(job: Job)                      // PostJob: about to offer to the selected worker
    | InOffer(job: Job)                   // inside offerJob
    | Retry(job: Job)                     // refused: select the next worker
    | Advance                             // accepted: select the next worker
    | Stop(k: nat)                        // k workers are still to be destroyed, the last first
    | Joining(k: nat)                     // waits for worker k - 1
    | Gone

  /** `fates`, `deleted` (the numbers of the deleted jobs) and `rejects` are histories. */
  datatype State = State(
    rings: seq<Ring>, main: Main, sel: nat, script: seq<Round>, total: int,
    fates: seq<Fate>, deleted: seq<nat>, rejects: nat)

  datatype Move = MainStep | Work(i: nat)

  predicate Start(h: State) {
    && |h.rings| > 0 && h.main == NextRound && h.sel == 0 && h.total == 0
    && h.fates == [] && h.deleted == [] && h.rejects == 0
    && forall i {:trigger h.rings[i]} :: 0 <= i < |h.rings| ==> Init(h.rings[i])
  }

  /** The ring the main thread works on and what it does there. */
  function Target(h: State): nat {
    match h.main
    case Stop(k) => if k > 0 then k - 1 else 0
    case Joining(k) => if k > 0 then k - 1 else 0
    case _ => h.sel
  }

  predicate TouchesRing(h: State) {
    h.main.Post? || h.main.InOffer? || (h.main.Stop? && h.main.k > 0)
  }

  function RingEvent(h: State): Event
    requires TouchesRing(h) && Target(h) < |h.rings|
  {
    match h.main
    case Post(j) => Call(j)
    case InOffer(_) => if h.rings[Target(h)].p.Said? then Return else PostStep
    case _ => SetOver
  }

  predicate May(h: State, m: Move) {
    match m
    case Work(i) => i < |h.rings| && Enabled(h.rings[i], WorkStep)
    case MainStep =>
      && |h.rings| > 0 && !h.main.Gone?
      && (TouchesRing(h) ==> Target(h) < |h.rings| && Enabled(h.rings[Target(h)], RingEvent(h)))
      && (h.main.Joining? ==> Target(h) < |h.rings| && h.rings[Target(h)].c.Exited?)
  }

  function MainNext(h: State): State
    requires May(h, MainStep)
  {
    var n := |h.rings|;
    if TouchesRing(h) then
      var i := Target(h);
      var r := h.rings[i];
      var rings := h.rings[i := Apply(r, RingEvent(h))];
      match h.main
      case Post(j) => h.(rings := rings, main := InOffer(j))
      case InOffer(j) =>
        if r.p.Said? then
          if r.p.ok then h.(rings := rings, main := Advance)
          else h.(rings := rings, main := Retry(j), rejects := h.rejects + 1)
        else if r.p.Bump? then h.(rings := rings, fates := h.fates + [Posted(i, j.size)])
        else h.(rings := rings)
      case Stop(k) => h.(rings := rings, main := Joining(k))
    else
      match h.main
      case NextRound =>
        if h.script == [] then h.(main := Stop(n))
        else h.(total := h.total + h.script[0].nums, script := h.script[1..],
                main := Building(h.script[0].nums, h.script[0].givesUp))
      case Building(nums, givesUp) =>
        if givesUp then
          h.(total := h.total - nums, deleted := h.deleted + [|h.fates|], fates := h.fates + [GaveUp(nums)],
             main := NextRound)
        else h.(main := Post(Job(|h.fates|, nums)))
      case Retry(j) => h.(sel := Next(h.sel, n), main := Post(j))
      case Advance => h.(sel := Next(h.sel, n), main := NextRound)
      case Stop(_) => h.(main := Gone)
      case Joining(k) => h.(main := Stop(if k > 0 then k - 1 else 0))
  }

  function Step(h: State, m: Move): State
    requires May(h, m)
  {
    match m
    case MainStep => MainNext(h)
    case Work(i) =>
      var c := h.rings[i].c;
      h.(rings := h.rings[i := WorkNext(h.rings[i])], deleted := h.deleted + if c.Free? then [c.d.id] else [])
  }

  predicate Steps(h: State, ms: seq<Move>, h': State)
    decreases |ms|
  {
    if ms == [] then h' == h
    else May(h, ms[0]) && Steps(Step(h, ms[0]), ms[1..], h')
  }

  // ------------------------------------------------------------------ control invariant

  predicate OverNow(m: Main, i: nat) {
    match m
    case Stop(k) => i >= k
    case Joining(k) => i + 1 >= k
    case Gone => true
    case _ => false
  }

  /** The job in the main thread's hands was not published yet. */
  predicate Unposted(h: State) {
    || h.main.Post? || h.main.Retry?
    || (h.main.InOffer? && !(h.sel < |h.rings| && h.rings[h.sel].p.Said? && h.rings[h.sel].p.ok))
  }

  ghost predicate RingOk(h: State, i: nat)
    requires i < |h.rings|
  {
    && Inv(h.rings[i])
    && h.rings[i].over == OverNow(h.main, i)
    && (if h.main.InOffer? && i == h.sel then !h.rings[i].p.Idle? && h.rings[i].p.job == h.main.job
        else h.rings[i].p.Idle?)
  }

  ghost predicate ControlInv(h: State) {
    && h.sel < |h.rings|
    && (forall i {:trigger h.rings[i]} :: 0 <= i < |h.rings| ==> RingOk(h, i))
    && (h.main.Stop? ==> h.main.k <= |h.rings|)
    && (h.main.Joining? ==> 0 < h.main.k <= |h.rings|)
    && (Unposted(h) ==> h.main.job.id == |h.fates|)
    && (h.main.Retry? ==> h.rejects > 0)
  }

  /** What a step on a ring leaves alone. */
  lemma RingFrame(r: Ring, e: Event)
    requires Enabled(r, e)
    ensures var r' := Apply(r, e);
            && (e.WorkStep? ==> r'.p == r.p && r'.over == r.over && r'.pushed == r.pushed)
            && (!e.WorkStep? ==> r'.c == r.c && r'.popped == r.popped && r'.done == r.done && r'.freed == r.freed)
            && (e.PostStep? ==> !r'.p.Idle? && r'.p.job == r.p.job && r'.over == r.over)
            && r'.pushed == r.pushed + (if e.PostStep? && r.p.Bump? then [r.p.job] else [])
            && (e.PostStep? ==> (r.p.Bump? <==> r'.p.Said? && r'.p.ok))
  {
  }

  lemma ControlKeptByWorker(h: State, i: nat)
    requires ControlInv(h) && May(h, Work(i))
    ensures ControlInv(Step(h, Work(i)))
  {
    assert RingOk(h, i);
    RingFrame(h.rings[i], WorkStep);
    InvKept(h.rings[i], WorkStep);
    var h' := Step(h, Work(i));
    forall k | 0 <= k < |h'.rings| ensures RingOk(h', k) {
      assert RingOk(h, k);
    }
    assert RingOk(h, h.sel);
    assert Unposted(h') ==> Unposted(h);
  }

  lemma ControlKeptByRingStep(h: State)
    requires ControlInv(h) && May(h, MainStep) && TouchesRing(h)
    ensures ControlInv(MainNext(h))
  {
    var i := Target(h);
    assert RingOk(h, i);
    RingFrame(h.rings[i], RingEvent(h));
    InvKept(h.rings[i], RingEvent(h));
    var h' := MainNext(h);
    forall k | 0 <= k < |h'.rings| ensures RingOk(h', k) {
      assert RingOk(h, k);
    }
    assert Unposted(h') ==> Unposted(h);
  }

  lemma ControlKeptByLocalStep(h: State)
    requires ControlInv(h) && May(h, MainStep) && !TouchesRing(h)
    ensures ControlInv(MainNext(h))
  {
    var h' := MainNext(h);
    assert h'.rings == h.rings && h'.sel < |h.rings|;
    forall k | 0 <= k < |h'.rings| ensures RingOk(h', k) {
      assert RingOk(h, k);
    }
    assert Unposted(h') ==> h.main.Building? || Unposted(h);
  }

  // ------------------------------------------------------------------ who got which job

  /** The jobs posted to worker `i`, in posting order. */
  function Mine(fs: seq<Fate>, i: nat): seq<Job> {
    if fs == [] then [] else
    var k := |fs| - 1;
    Mine(fs[..k], i) + if fs[k].Posted? && fs[k].worker == i then [Job(k, fs[k].size)] else []
  }

  lemma MineGrows(fs: seq<Fate>, f: Fate, i: nat)
    ensures Mine(fs + [f], i) == Mine(fs, i) + if f.Posted? && f.worker == i then [Job(|fs|, f.size)] else []
  {
    assert (fs + [f])[..|fs|] == fs;
  }

  /** Each ring has received exactly the jobs posted to its worker, and there are no others. */
  ghost predicate FateInv(h: State) {
    && (forall i {:trigger h.rings[i]} :: 0 <= i < |h.rings| ==> h.rings[i].pushed == Mine(h.fates, i))
    && (forall k :: 0 <= k < |h.fates| && h.fates[k].Posted? ==> h.fates[k].worker < |h.rings|)
  }

  /** The step that stores _end publishes the job; every other step leaves the rings' histories
    of published jobs alone. */
  predicate Publishes(h: State, m: Move) {
    m.MainStep? && h.main.InOffer? && h.sel < |h.rings| && h.rings[h.sel].p.Bump?
  }

  predicate GivesUp(h: State, m: Move) {
    m.MainStep? && h.main.Building? && h.main.givesUp
  }

  lemma PushedByWorker(h: State, i: nat)
    requires May(h, Work(i))
    ensures var h' := Step(h, Work(i));
            |h'.rings| == |h.rings| && forall k {:trigger h'.rings[k]} :: 0 <= k < |h.rings| ==>
              h'.rings[k].pushed == h.rings[k].pushed
  {
    RingFrame(h.rings[i], WorkStep);
  }

  lemma PushedByMain(h: State)
    requires ControlInv(h) && May(h, MainStep)
    ensures var h' := MainNext(h);
            |h'.rings| == |h.rings| && forall k {:trigger h'.rings[k]} :: 0 <= k < |h.rings| ==>
              h'.rings[k].pushed ==
              h.rings[k].pushed + if Publishes(h, MainStep) && k == h.sel then [h.main.job] else []
  {
    if TouchesRing(h) {
      assert RingOk(h, Target(h)) && RingOk(h, h.sel);
      RingFrame(h.rings[Target(h)], RingEvent(h));
    }
  }

  lemma PushedStep(h: State, m: Move)
    requires ControlInv(h) && May(h, m)
    ensures var h' := Step(h, m);
            |h'.rings| == |h.rings| && forall k {:trigger h'.rings[k]} :: 0 <= k < |h.rings| ==>
              h'.rings[k].pushed == h.rings[k].pushed + if Publishes(h, m) && k == h.sel then [h.main.job] else []
  {
    hide ControlInv, MainNext, WorkNext;
    match m
    case Work(i) => PushedByWorker(h, i);
    case MainStep => PushedByMain(h);
  }

  lemma FateStep(h: State, m: Move)
    requires ControlInv(h) && May(h, m)
    ensures Step(h, m).fates == h.fates + if Publishes(h, m) then [Posted(h.sel, h.main.job.size)]
                                          else if GivesUp(h, m) then [GaveUp(h.main.nums)] else []
    ensures Publishes(h, m) ==> h.main.job.id == |h.fates|
  {
    assert RingOk(h, h.sel);
    assert Unposted(h) ==> h.main.job.id == |h.fates|;
  }

  lemma FateKept(h: State, m: Move)
    requires ControlInv(h) && FateInv(h) && May(h, m)
    ensures FateInv(Step(h, m))
  {
    hide ControlInv, May, Step;
    PushedStep(h, m);
    FateStep(h, m);
    var h' := Step(h, m);
    forall i | 0 <= i < |h'.rings| ensures h'.rings[i].pushed == Mine(h'.fates, i) {
      assert h.rings[i].pushed == Mine(h.fates, i);
      if Publishes(h, m) || GivesUp(h, m) {
        MineGrows(h.fates, h'.fates[|h.fates|], i);
      } else {
        assert h'.fates == h.fates && h'.rings[i].pushed == h.rings[i].pushed;
      }
    }
  }

  // ------------------------------------------------------------------ operation count

  function JobSize(j: Job): nat { j.size }
  function PushedSize(r: Ring): nat { Sum(r.pushed, JobSize) }

  /** The part of total_op that belongs to the job under construction. */
  function Pending(h: State): nat
    requires h.sel < |h.rings|
  {
    if h.main.Building? then h.main.nums else if Unposted(h) then h.main.job.size else 0
  }

  ghost predicate TotalInv(h: State) {
    h.sel < |h.rings| && h.total == Sum(h.rings, PushedSize) + Pending(h)
  }

  /** Publishing adds the size of the job to the sum over the rings. */
  lemma PublishedSize(h: State, m: Move)
    requires ControlInv(h) && May(h, m)
    ensures Sum(Step(h, m).rings, PushedSize) ==
            Sum(h.rings, PushedSize) + if Publishes(h, m) then h.main.job.size else 0
  {
    hide RingOk, May, Step;
    PushedStep(h, m);
    var rs, rs', i := h.rings, Step(h, m).rings, h.sel;
    var r' := rs'[i];
    SumUpdate(rs, i, r', PushedSize);
    forall k | 0 <= k < |rs| ensures PushedSize(rs[i := r'][k]) == PushedSize(rs'[k]) {
      assert k != i ==> rs'[k].pushed == rs[k].pushed;
    }
    SumSame(rs[i := r'], rs', PushedSize);
    if Publishes(h, m) {
      SumSnoc(rs[i].pushed, h.main.job, JobSize);
    } else {
      assert r'.pushed == rs[i].pushed;
    }
  }

  lemma PendingByWorker(h: State, i: nat)
    requires h.sel < |h.rings| && May(h, Work(i))
    ensures var h' := Step(h, Work(i));
            |h'.rings| == |h.rings| && h'.sel == h.sel && h'.total == h.total && Pending(h') == Pending(h)
  {
    RingFrame(h.rings[i], WorkStep);
  }

  lemma PendingInRingStep(h: State)
    requires ControlInv(h) && May(h, MainStep) && TouchesRing(h)
    ensures var h' := MainNext(h);
            && |h'.rings| == |h.rings| && h'.sel == h.sel && h'.total == h.total
            && Pending(h') + (if Publishes(h, MainStep) then h.main.job.size else 0) == Pending(h)
  {
    assert RingOk(h, Target(h)) && RingOk(h, h.sel);
    RingFrame(h.rings[Target(h)], RingEvent(h));
  }

  /** What total_op gains or loses is under construction before or after. */
  lemma PendingStep(h: State, m: Move)
    requires ControlInv(h) && May(h, m)
    ensures var h' := Step(h, m);
            h'.sel < |h'.rings| &&
            Pending(h') + (if Publishes(h, m) then h.main.job.size else 0) == Pending(h) + h'.total - h.total
  {
    hide RingOk;
    match m
    case Work(i) => PendingByWorker(h, i);
    case MainStep =>
      if TouchesRing(h) {
        PendingInRingStep(h);
      }
  }

  lemma TotalKept(h: State, m: Move)
    requires ControlInv(h) && TotalInv(h) && May(h, m)
    ensures TotalInv(Step(h, m))
  {
    hide ControlInv, May, Step, Pending;
    PublishedSize(h, m);
    PendingStep(h, m);
  }

  // ------------------------------------------------------------------ round robin

  /** How many rings, counted from the first, are one post ahead in the current lap. */
  function Ahead(h: State): nat
    requires h.sel < |h.rings|
  {
    h.sel + Bit(h.main.Advance? || (h.main.InOffer? && h.rings[h.sel].p.Said? && h.rings[h.sel].p.ok))
  }

  ghost predicate FairInv(h: State) {
    && h.sel < |h.rings|
    && (h.rejects == 0 ==>
         var last := |h.rings| - 1;
         forall i {:trigger h.rings[i]} :: 0 <= i < |h.rings| ==>
           |h.rings[i].pushed| + Bit(last < Ahead(h)) == |h.rings[last].pushed| + Bit(i < Ahead(h)))
  }

  /** Publishing moves the lap on, and the last worker's turn ends it. */
  lemma AheadStep(h: State, m: Move)
    requires ControlInv(h) && May(h, m) && Step(h, m).rejects == 0
    ensures var h', n := Step(h, m), |h.rings|;
            && h.rejects == 0 && h'.sel < n == |h'.rings|
            && (Publishes(h, m) ==> Ahead(h) == h.sel)
            && (Ahead(h') == Ahead(h) + Bit(Publishes(h, m)) ||
                (!Publishes(h, m) && Ahead(h) == n && Ahead(h') == 0))
  {
    assert RingOk(h, h.sel);
    match m
    case Work(i) => RingFrame(h.rings[i], WorkStep);
    case MainStep =>
      if TouchesRing(h) {
        AheadInRingStep(h);
      }
  }

  lemma AheadInRingStep(h: State)
    requires ControlInv(h) && May(h, MainStep) && TouchesRing(h)
    ensures var h' := MainNext(h);
            && h.rejects <= h'.rejects && h'.sel == h.sel < |h'.rings| == |h.rings|
            && (h'.rejects == 0 ==> Ahead(h') == Ahead(h) + Bit(Publishes(h, MainStep)))
            && (Publishes(h, MainStep) ==> Ahead(h) == h.sel)
  {
    assert RingOk(h, Target(h)) && RingOk(h, h.sel);
    RingFrame(h.rings[Target(h)], RingEvent(h));
  }

  lemma FairKept(h: State, m: Move)
    requires ControlInv(h) && FairInv(h) && May(h, m)
    ensures FairInv(Step(h, m))
  {
    hide RingOk, May, Step, Ahead;
    PendingStep(h, m);
    PushedStep(h, m);
    if Step(h, m).rejects == 0 {
      AheadStep(h, m);
      var rs := Step(h, m).rings;
      forall k {:trigger rs[k]} | 0 <= k < |rs|
        ensures |rs[k].pushed| == |h.rings[k].pushed| + Bit(Publishes(h, m) && k == h.sel)
      {
      }
      AheadBound(h);
    }
  }

  lemma AheadBound(h: State)
    requires h.sel < |h.rings|
    ensures Ahead(h) <= |h.rings|
  {
  }

  // ------------------------------------------------------------------ every reachable state

  ghost predicate AllInv(h: State) {
    ControlInv(h) && FateInv(h) && TotalInv(h) && FairInv(h)
  }

  lemma StartInv(h: State)
    requires Start(h)
    ensures AllInv(h)
  {
    forall i | 0 <= i < |h.rings| ensures RingOk(h, i) {
      InitInv(h.rings[i]);
    }
    SumZero(h.rings, PushedSize);
  }

  lemma ControlKept(h: State, m: Move)
    requires ControlInv(h) && May(h, m)
    ensures ControlInv(Step(h, m))
  {
    hide ControlInv, RingOk, MainNext, WorkNext;
    match m
    case Work(i) => ControlKeptByWorker(h, i);
    case MainStep =>
      if TouchesRing(h) {
        ControlKeptByRingStep(h);
      } else {
        ControlKeptByLocalStep(h);
      }
  }

  lemma AllKept(h: State, m: Move)
    requires AllInv(h) && May(h, m)
    ensures AllInv(Step(h, m))
  {
    hide ControlInv, FateInv, TotalInv, FairInv, May, Step;
    ControlKept(h, m);
    FateKept(h, m);
    TotalKept(h, m);
    FairKept(h, m);
  }

  lemma {:induction false} StepsKeepAll(h: State, ms: seq<Move>, h': State)
    requires AllInv(h) && Steps(h, ms, h')
    ensures AllInv(h')
    decreases |ms|
  {
    if ms != [] {
      AllKept(h, ms[0]);
      StepsKeepAll(Step(h, ms[0]), ms[1..], h');
    }
  }
}
