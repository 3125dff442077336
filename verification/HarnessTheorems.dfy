/** What the harness guarantees over any number of rounds, workers and steps. */
module HarnessTheorems {
  import opened Prelude
  import opened MyQueue
  import opened RingSteps
  import opened Harness

  // ------------------------------------------------------------------ executed at most once

  /** The jobs of one worker carry increasing numbers and are exactly those posted to it. */
  lemma {:induction false} MineIsThePosting(fs: seq<Fate>, i: nat)
    ensures forall a, b :: 0 <= a < b < |Mine(fs, i)| ==> Mine(fs, i)[a].id < Mine(fs, i)[b].id
    ensures forall a {:trigger Mine(fs, i)[a]} :: 0 <= a < |Mine(fs, i)| ==>
              Mine(fs, i)[a].id < |fs| && fs[Mine(fs, i)[a].id] == Posted(i, Mine(fs, i)[a].size)
    ensures forall k :: 0 <= k < |fs| && fs[k].Posted? && fs[k].worker == i ==> Job(k, fs[k].size) in Mine(fs, i)
    decreases |fs|
  {
    if fs != [] {
      var k := |fs| - 1;
      var front := fs[..k];
      MineIsThePosting(front, i);
      assert fs == front + [fs[k]];
      MineGrows(front, fs[k], i);
    }
  }

  /** Each job is executed at most once, by the worker it was posted to and in posting order;
    a worker frees what it has executed, in the same order, and never a job that was given up. */
  lemma ExecutedAtMostOnce(h0: State, ms: seq<Move>, h: State)
    requires Start(h0) && Steps(h0, ms, h)
    ensures forall i :: 0 <= i < |h.rings| ==>
              h.rings[i].freed <= h.rings[i].done <= h.rings[i].pushed == Mine(h.fates, i)
    ensures forall i, a {:trigger h.rings[i].done[a]} :: 0 <= i < |h.rings| && 0 <= a < |h.rings[i].done| ==>
              var d := h.rings[i].done[a]; d.id < |h.fates| && h.fates[d.id] == Posted(i, d.size)
    ensures forall i, j, a, b {:trigger h.rings[i].done[a], h.rings[j].done[b]} ::
              (0 <= i < |h.rings| && 0 <= j < |h.rings| && 0 <= a < |h.rings[i].done| && 0 <= b < |h.rings[j].done| &&
               h.rings[i].done[a].id == h.rings[j].done[b].id) ==> i == j && a == b
  {
    StartInv(h0);
    StepsKeepAll(h0, ms, h);
    forall i | 0 <= i < |h.rings|
      ensures h.rings[i].freed <= h.rings[i].done <= h.rings[i].pushed == Mine(h.fates, i)
    {
      assert RingOk(h, i);
    }
    forall i, a | 0 <= i < |h.rings| && 0 <= a < |h.rings[i].done|
      ensures h.rings[i].done[a] == Mine(h.fates, i)[a]
      ensures var d := h.rings[i].done[a]; d.id < |h.fates| && h.fates[d.id] == Posted(i, d.size)
    {
      MineIsThePosting(h.fates, i);
    }
    forall i, j, a, b | 0 <= i < |h.rings| && 0 <= j < |h.rings| && 0 <= a < |h.rings[i].done| &&
                        0 <= b < |h.rings[j].done| && h.rings[i].done[a].id == h.rings[j].done[b].id
      ensures i == j && a == b
    {
      assert h.fates[h.rings[i].done[a].id].worker == i && h.fates[h.rings[j].done[b].id].worker == j;
      MineIsThePosting(h.fates, i);
      assert h.rings[i].done[a] == Mine(h.fates, i)[a] && h.rings[i].done[b] == Mine(h.fates, i)[b];
    }
  }

  // ------------------------------------------------------------------ conservation of total_op

  function SlotSize(o: Option<Job>): nat { if o.Some? then o.value.size else 0 }

  function InHandSize(c: Worker): nat { if c.DoWork? then c.d.size else 0 }

  /** What a ring accounts for: finished jobs, the one in hand and the queued ones. */
  function Load(r: Ring): nat {
    Sum(r.done, JobSize) + InHandSize(r.c) + if Sane(r) then Sum(Slots(r), SlotSize) else 0
  }

  lemma {:induction false} WrapSize(js: seq<Job>)
    ensures Sum(Wrap(js), SlotSize) == Sum(js, JobSize)
  {
    if js != [] {
      assert Wrap(js)[1..] == Wrap(js[1..]);
      WrapSize(js[1..]);
    }
  }

  /** What was popped is done, but for the job in hand. */
  lemma PoppedSize(r: Ring)
    requires Sane(r) && WorkerInv(r)
    ensures Sum(r.popped, JobSize) == Sum(r.done, JobSize) + InHandSize(r.c)
  {
    if r.c.DoWork? {
      SumSnoc(r.done, r.c.d, JobSize);
    }
  }

  lemma LoadIsPushed(r: Ring)
    requires Inv(r)
    ensures Load(r) == PushedSize(r)
  {
    var unread := r.pushed[|r.popped|..];
    WrapSize(unread);
    SumAppend(r.popped, unread, JobSize);
    assert r.pushed == r.popped + unread;
    PoppedSize(r);
  }

  lemma {:induction false} SumLoads(rs: seq<Ring>)
    requires forall i {:trigger rs[i]} :: 0 <= i < |rs| ==> Inv(rs[i])
    ensures Sum(rs, Load) == Sum(rs, PushedSize)
  {
    if rs != [] {
      assert Inv(rs[0]);
      LoadIsPushed(rs[0]);
      forall i | 0 <= i < |rs[1..]| ensures Inv(rs[1..][i]) {
        assert Inv(rs[i + 1]);
      }
      SumLoads(rs[1..]);
    }
  }

  /** With no job under construction, total_op is the summed size of the finished, in-hand and
    queued jobs; a job that was given up contributes nothing. */
  lemma TotalIsConserved(h0: State, ms: seq<Move>, h: State)
    requires Start(h0) && Steps(h0, ms, h)
    ensures h.sel < |h.rings| && h.total == Sum(h.rings, Load) + Pending(h)
    ensures h.main.NextRound? || h.main.Advance? || h.main.Stop? || h.main.Joining? || h.main.Gone? ==>
              h.total == Sum(h.rings, Load)
  {
    StartInv(h0);
    StepsKeepAll(h0, ms, h);
    forall i | 0 <= i < |h.rings| ensures Inv(h.rings[i]) {
      assert RingOk(h, i);
    }
    SumLoads(h.rings);
  }

  // ------------------------------------------------------------------ the script is followed

  /** The rounds as they turned out. */
  function Outline(fs: seq<Fate>): (rs: seq<Round>)
    ensures |rs| == |fs|
  {
    seq(|fs|, k requires 0 <= k < |fs| => Round(fs[k].size, fs[k].GaveUp?))
  }

  /** The round that is under way. */
  function InWork(h: State): seq<Round>
    requires h.sel < |h.rings|
  {
    if h.main.Building? then [Round(h.main.nums, h.main.givesUp)]
    else if Unposted(h) then [Round(h.main.job.size, false)] else []
  }

  ghost predicate ScriptInv(h: State, all: seq<Round>) {
    && h.sel < |h.rings|
    && Outline(h.fates) + (InWork(h) + h.script) == all
    && h.total == Sum(Outline(h.fates), Kept) + Pending(h)
  }

  lemma OutlineGrows(fs: seq<Fate>, f: Fate)
    ensures Outline(fs + [f]) == Outline(fs) + [Round(f.size, f.GaveUp?)]
  {
  }

  /** The round that a step finishes. */
  function Finishes(h: State, m: Move): seq<Round> {
    if Publishes(h, m) then [Round(h.main.job.size, false)]
    else if GivesUp(h, m) then [Round(h.main.nums, true)] else []
  }

  lemma OutlineStep(h: State, m: Move)
    requires ControlInv(h) && May(h, m)
    ensures Outline(Step(h, m).fates) == Outline(h.fates) + Finishes(h, m)
  {
    FateStep(h, m);
    hide ControlInv, May, Step;
    if Publishes(h, m) {
      OutlineGrows(h.fates, Posted(h.sel, h.main.job.size));
    } else if GivesUp(h, m) {
      OutlineGrows(h.fates, GaveUp(h.main.nums));
    } else {
      assert Step(h, m).fates == h.fates;
      assert Outline(h.fates) + [] == Outline(h.fates);
    }
  }

  /** A round moves from the script to being under way and from there to the outline. */
  lemma WorkInStep(h: State, m: Move)
    requires ControlInv(h) && May(h, m)
    ensures var h' := Step(h, m);
            h'.sel < |h'.rings| && Finishes(h, m) + (InWork(h') + h'.script) == InWork(h) + h.script
  {
    hide RingOk, InWork, Finishes, MainNext;
    match m
    case Work(i) =>
      UnderWayByWorker(h, i);
      assert [] + (InWork(h) + h.script) == InWork(h) + h.script;
    case MainStep =>
      var h' := MainNext(h);
      if TouchesRing(h) {
        WorkInRingStep(h);
        assert Finishes(h, m) + (InWork(h') + h.script) == Finishes(h, m) + InWork(h') + h.script;
      } else {
        WorkInLocalStep(h);
      }
  }

  lemma WorkInLocalStep(h: State)
    requires ControlInv(h) && May(h, MainStep) && !TouchesRing(h)
    ensures var h' := MainNext(h);
            h'.sel < |h'.rings| && Finishes(h, MainStep) + (InWork(h') + h'.script) == InWork(h) + h.script
  {
    hide RingOk;
  }

  lemma WorkInRingStep(h: State)
    requires ControlInv(h) && May(h, MainStep) && TouchesRing(h)
    ensures var h' := MainNext(h);
            && h'.sel == h.sel < |h'.rings| && h'.script == h.script
            && Finishes(h, MainStep) + InWork(h') == InWork(h)
  {
    assert RingOk(h, Target(h)) && RingOk(h, h.sel);
    RingFrame(h.rings[Target(h)], RingEvent(h));
  }

  lemma UnderWayByWorker(h: State, i: nat)
    requires h.sel < |h.rings| && May(h, Work(i))
    ensures var h' := Step(h, Work(i));
            && |h'.rings| == |h.rings| && h'.sel == h.sel && h'.script == h.script
            && InWork(h') == InWork(h) && Finishes(h, Work(i)) == []
  {
    RingFrame(h.rings[i], WorkStep);
  }

  lemma ScriptKept(h: State, m: Move, all: seq<Round>)
    requires ControlInv(h) && ScriptInv(h, all) && May(h, m)
    ensures ScriptInv(Step(h, m), all)
  {
    hide ControlInv, May, Step, InWork, Pending, Outline;
    var h' := Step(h, m);
    OutlineStep(h, m);
    WorkInStep(h, m);
    PendingStep(h, m);
    SumAppend(Outline(h.fates), Finishes(h, m), Kept);
    FinishedSize(h, m);
    assert Outline(h.fates) + (Finishes(h, m) + (InWork(h') + h'.script)) ==
           Outline(h.fates) + Finishes(h, m) + (InWork(h') + h'.script);
  }

  lemma FinishedSize(h: State, m: Move)
    ensures Sum(Finishes(h, m), Kept) == if Publishes(h, m) then h.main.job.size else 0
  {
    if Finishes(h, m) != [] {
      assert Finishes(h, m)[1..] == [];
    }
  }

  lemma {:induction false} StepsFollowScript(h: State, ms: seq<Move>, h': State, all: seq<Round>)
    requires ControlInv(h) && ScriptInv(h, all) && Steps(h, ms, h')
    ensures ScriptInv(h', all)
    decreases |ms|
  {
    hide ControlInv, ScriptInv, May, Step;
    if ms != [] {
      ControlKept(h, ms[0]);
      ScriptKept(h, ms[0], all);
      StepsFollowScript(Step(h, ms[0]), ms[1..], h', all);
    }
  }

  /** Nothing is left to build or to post. */
  predicate AllPosted(h: State) {
    h.script == [] && (h.main.NextRound? || h.main.Advance? || ShuttingDown(h))
  }

  /** The rounds are taken from the script in order, each once, and once all are over total_op is
    the size of the rounds that did not give up. */
  lemma ScriptIsFollowed(h0: State, ms: seq<Move>, h: State)
    requires Start(h0) && Steps(h0, ms, h)
    ensures h.sel < |h.rings| && Outline(h.fates) + (InWork(h) + h.script) == h0.script
    ensures AllPosted(h) ==> Outline(h.fates) == h0.script && h.total == Sum(h0.script, Kept)
  {
    hide Steps;
    StartInv(h0);
    assert Outline([]) + ([] + h0.script) == h0.script;
    StepsFollowScript(h0, ms, h, h0.script);
    assert Outline(h.fates) + ([] + []) == Outline(h.fates);
  }

  // ------------------------------------------------------------------ deleting jobs

  /** What a step deletes: the job the main thread gives up, or the job a worker has finished. */
  function DeletedBy(h: State, m: Move): seq<nat>
    requires May(h, m)
  {
    match m
    case MainStep => if GivesUp(h, m) then [|h.fates|] else []
    case Work(i) => if h.rings[i].c.Free? then [h.rings[i].c.d.id] else []
  }

  /** Job `k` was given up, or freed by a worker. */
  ghost predicate Released(h: State, k: nat) {
    || (k < |h.fates| && h.fates[k].GaveUp?)
    || exists i, a {:trigger h.rings[i].freed[a]} ::
         0 <= i < |h.rings| && 0 <= a < |h.rings[i].freed| && h.rings[i].freed[a].id == k
  }

  lemma DeletedStep(h: State, m: Move)
    requires May(h, m)
    ensures Step(h, m).deleted == h.deleted + DeletedBy(h, m)
  {
  }

  lemma FreedStep(h: State, m: Move)
    requires ControlInv(h) && May(h, m)
    ensures var h' := Step(h, m);
            |h'.rings| == |h.rings| && forall i {:trigger h'.rings[i]} :: 0 <= i < |h.rings| ==>
              h'.rings[i].freed ==
              h.rings[i].freed + if m == Work(i) && h.rings[i].c.Free? then [h.rings[i].c.d] else []
  {
    if m.MainStep? && TouchesRing(h) {
      RingFrame(h.rings[Target(h)], RingEvent(h));
    }
  }

  /** What was pushed to a worker's ring were postings to it, in order. */
  lemma PushedArePosted(h: State, i: nat, a: nat)
    requires AllInv(h) && i < |h.rings| && a < |h.rings[i].pushed|
    ensures a < |Mine(h.fates, i)| && h.rings[i].pushed[a] == Mine(h.fates, i)[a]
    ensures var d := h.rings[i].pushed[a]; d.id < |h.fates| && h.fates[d.id] == Posted(i, d.size)
  {
    assert h.rings[i].pushed == Mine(h.fates, i);
    MineIsThePosting(h.fates, i);
  }

  lemma PoppedArePosted(h: State, i: nat, a: nat)
    requires AllInv(h) && i < |h.rings| && a < |h.rings[i].popped|
    ensures a < |Mine(h.fates, i)| && h.rings[i].popped[a] == Mine(h.fates, i)[a]
    ensures var d := h.rings[i].popped[a]; d.id < |h.fates| && h.fates[d.id] == Posted(i, d.size)
  {
    hide Mine, FateInv, TotalInv, FairInv;
    assert RingOk(h, i);
    PushedArePosted(h, i, a);
  }

  /** Popped jobs have different numbers. */
  lemma PoppedDiffer(h: State, i: nat, a: nat, j: nat, b: nat)
    requires AllInv(h) && i < |h.rings| && a < |h.rings[i].popped| && j < |h.rings| && b < |h.rings[j].popped|
    requires h.rings[i].popped[a].id == h.rings[j].popped[b].id
    ensures i == j && a == b
  {
    hide AllInv, Mine;
    PoppedArePosted(h, i, a);
    PoppedArePosted(h, j, b);
    MineIsThePosting(h.fates, i);
  }

  lemma FreedArePopped(h: State, i: nat)
    requires AllInv(h) && i < |h.rings|
    ensures h.rings[i].freed <= h.rings[i].popped
    ensures h.rings[i].c.Free? ==> h.rings[i].popped == h.rings[i].freed + [h.rings[i].c.d]
  {
    assert RingOk(h, i);
  }

  /** A worker frees a job that was not released before. */
  lemma FreesOnce(h: State, i: nat)
    requires AllInv(h) && i < |h.rings| && h.rings[i].c.Free?
    ensures !Released(h, h.rings[i].c.d.id) && h.rings[i].c.d.id < |h.fates|
  {
    hide AllInv;
    var d, n := h.rings[i].c.d, |h.rings[i].freed|;
    FreedArePopped(h, i);
    PoppedArePosted(h, i, n);
    forall j, b {:trigger h.rings[j].freed[b]} | 0 <= j < |h.rings| && 0 <= b < |h.rings[j].freed|
      ensures h.rings[j].freed[b].id != d.id
    {
      FreedArePopped(h, j);
      if h.rings[j].freed[b].id == d.id {
        PoppedDiffer(h, j, b, i, n);
      }
    }
  }

  /** Nothing has the number of the next job yet. */
  lemma NextIsNew(h: State)
    requires AllInv(h)
    ensures !Released(h, |h.fates|)
  {
    hide AllInv;
    forall j, b {:trigger h.rings[j].freed[b]} | 0 <= j < |h.rings| && 0 <= b < |h.rings[j].freed|
      ensures h.rings[j].freed[b].id != |h.fates|
    {
      FreedArePopped(h, j);
      PoppedArePosted(h, j, b);
    }
  }

  lemma StaysReleased(h: State, m: Move, k: nat)
    requires ControlInv(h) && May(h, m) && Released(h, k)
    ensures Released(Step(h, m), k)
  {
    FateStep(h, m);
    FreedStep(h, m);
    hide ControlInv, May, Step, Publishes, GivesUp;
    var h' := Step(h, m);
    if !(k < |h.fates| && h.fates[k].GaveUp?) {
      var i, a :| 0 <= i < |h.rings| && 0 <= a < |h.rings[i].freed| && h.rings[i].freed[a].id == k;
      assert h'.rings[i].freed[a].id == k;
    }
  }

  lemma DeletedIsReleased(h: State, m: Move, k: nat)
    requires ControlInv(h) && May(h, m) && k in DeletedBy(h, m)
    ensures Released(Step(h, m), k)
  {
    FateStep(h, m);
    FreedStep(h, m);
    hide ControlInv, Step;
    if m.Work? {
      assert Step(h, m).rings[m.i].freed[|h.rings[m.i].freed|].id == k;
    }
  }

  lemma FreedWasDeleted(h: State, m: Move, i: nat, a: nat)
    requires ControlInv(h) && May(h, m) && i < |h.rings|
    requires |Step(h, m).rings| == |h.rings| && a < |Step(h, m).rings[i].freed|
    ensures var k := Step(h, m).rings[i].freed[a].id; Released(h, k) || k in DeletedBy(h, m)
  {
    FreedStep(h, m);
    hide ControlInv, Step;
    if a < |h.rings[i].freed| {
      assert h.rings[i].freed[a].id == Step(h, m).rings[i].freed[a].id;
    }
  }

  lemma ReleasedWasDeleted(h: State, m: Move, k: nat)
    requires ControlInv(h) && May(h, m) && Released(Step(h, m), k)
    ensures Released(h, k) || k in DeletedBy(h, m)
  {
    var h' := Step(h, m);
    FateStep(h, m);
    hide ControlInv, May, Step;
    if k < |h'.fates| && h'.fates[k].GaveUp? {
      assert k < |h.fates| ==> h'.fates[k] == h.fates[k];
    } else {
      var i, a :| 0 <= i < |h'.rings| && 0 <= a < |h'.rings[i].freed| && h'.rings[i].freed[a].id == k;
      FatesGrowStep(h, m);
      FreedWasDeleted(h, m, i, a);
    }
  }

  /** A step releases exactly the jobs it deletes, and none that was released before. */
  lemma ReleasedStep(h: State, m: Move, k: nat)
    requires AllInv(h) && May(h, m)
    ensures Released(Step(h, m), k) <==> Released(h, k) || k in DeletedBy(h, m)
    ensures k in DeletedBy(h, m) ==> !Released(h, k)
  {
    hide Step, ControlInv, TotalInv, FairInv, FateInv, Released;
    if Released(h, k) {
      StaysReleased(h, m, k);
    } else if k in DeletedBy(h, m) {
      DeletedIsReleased(h, m, k);
    } else if Released(Step(h, m), k) {
      ReleasedWasDeleted(h, m, k);
    }
    if m.Work? && h.rings[m.i].c.Free? {
      FreesOnce(h, m.i);
    }
    NextIsNew(h);
  }

  /** The deletions so far: no job twice, and exactly the released jobs. */
  ghost predicate DeleteInv(h: State) {
    && (forall k :: multiset(h.deleted)[k] <= 1)
    && (forall k :: k in h.deleted <==> Released(h, k))
  }

  lemma DeleteKept(h: State, m: Move)
    requires AllInv(h) && DeleteInv(h) && May(h, m)
    ensures DeleteInv(Step(h, m))
  {
    hide AllInv, May, Step, Released;
    var h' := Step(h, m);
    DeletedStep(h, m);
    forall k ensures multiset(h'.deleted)[k] <= 1 && (k in h'.deleted <==> Released(h', k)) {
      ReleasedStep(h, m, k);
      DeletesOne(h, m);
      if k !in DeletedBy(h, m) {
        assert multiset(h'.deleted)[k] == multiset(h.deleted)[k];
      }
    }
  }

  lemma DeletesOne(h: State, m: Move)
    requires May(h, m)
    ensures |DeletedBy(h, m)| <= 1
  {
  }

  lemma {:induction false} StepsKeepDeletes(h: State, ms: seq<Move>, h': State)
    requires AllInv(h) && DeleteInv(h) && Steps(h, ms, h')
    ensures DeleteInv(h')
    decreases |ms|
  {
    hide AllInv, DeleteInv;
    if ms != [] {
      AllKept(h, ms[0]);
      DeleteKept(h, ms[0]);
      StepsKeepDeletes(Step(h, ms[0]), ms[1..], h');
    }
  }

  lemma StartDeletes(h: State)
    requires Start(h)
    ensures DeleteInv(h)
  {
    forall k ensures !Released(h, k) {
    }
  }

  /** No job is ever deleted twice, and the jobs deleted so far are exactly those that were given
    up and those that a worker has executed and freed. */
  lemma EachJobIsDeletedOnce(h0: State, ms: seq<Move>, h: State)
    requires Start(h0) && Steps(h0, ms, h)
    ensures forall k {:trigger multiset(h.deleted)[k]} :: multiset(h.deleted)[k] == if Released(h, k) then 1 else 0
  {
    hide Released, AllInv, Start;
    StartInv(h0);
    StartDeletes(h0);
    StepsKeepDeletes(h0, ms, h);
    forall k ensures multiset(h.deleted)[k] == if Released(h, k) then 1 else 0 {
      assert k in h.deleted <==> Released(h, k);
    }
  }

  /** A job that was given up stays given up, never reaches a worker, and is deleted exactly once. */
  lemma GivenUpIsReleasedOnce(h0: State, ms: seq<Move>, h: State, ms': seq<Move>, h': State, k: nat)
    requires Start(h0) && Steps(h0, ms, h) && Steps(h, ms', h') && k < |h.fates| && h.fates[k].GaveUp?
    ensures k < |h'.fates| && h'.fates[k] == h.fates[k]
    ensures forall i, a {:trigger h'.rings[i].pushed[a]} ::
              0 <= i < |h'.rings| && 0 <= a < |h'.rings[i].pushed| ==> h'.rings[i].pushed[a].id != k
    ensures multiset(h.deleted)[k] == multiset(h'.deleted)[k] == 1
  {
    hide Start, Steps, Released;
    StartInv(h0);
    StepsKeepAll(h0, ms, h);
    StepsKeepAll(h, ms', h');
    FatesGrow(h, ms', h');
    NeverPushed(h', k);
    StartDeletes(h0);
    StepsKeepDeletes(h0, ms, h);
    StepsKeepDeletes(h, ms', h');
    GivenUpIsReleased(h, k);
    GivenUpIsReleased(h', k);
  }

  lemma GivenUpIsReleased(h: State, k: nat)
    requires DeleteInv(h) && k < |h.fates| && h.fates[k].GaveUp?
    ensures multiset(h.deleted)[k] == 1
  {
    assert Released(h, k);
    assert k in h.deleted;
  }

  lemma NeverPushed(h: State, k: nat)
    requires FateInv(h) && k < |h.fates| && h.fates[k].GaveUp?
    ensures forall i, a {:trigger h.rings[i].pushed[a]} ::
              0 <= i < |h.rings| && 0 <= a < |h.rings[i].pushed| ==> h.rings[i].pushed[a].id != k
  {
    forall i, a | 0 <= i < |h.rings| && 0 <= a < |h.rings[i].pushed| ensures h.rings[i].pushed[a].id != k {
      MineIsThePosting(h.fates, i);
      assert h.rings[i].pushed == Mine(h.fates, i);
    }
  }

  lemma {:induction false} FatesGrow(h: State, ms: seq<Move>, h': State)
    requires Steps(h, ms, h')
    ensures h.fates <= h'.fates && h.rejects <= h'.rejects && |h'.rings| == |h.rings|
    decreases |ms|
  {
    if ms != [] {
      FatesGrowStep(h, ms[0]);
      FatesGrow(Step(h, ms[0]), ms[1..], h');
    }
  }

  lemma FatesGrowStep(h: State, m: Move)
    requires May(h, m)
    ensures h.fates <= Step(h, m).fates && h.rejects <= Step(h, m).rejects && |Step(h, m).rings| == |h.rings|
  {
  }

  // ------------------------------------------------------------------ shutdown of the harness

  /** Once the main thread is gone every worker has exited, having executed exactly what was
    published before its last look at the ring. */
  lemma EveryWorkerExits(h0: State, ms: seq<Move>, h: State)
    requires Start(h0) && Steps(h0, ms, h) && h.main.Gone?
    ensures forall i {:trigger h.rings[i]} :: 0 <= i < |h.rings| ==>
              var r := h.rings[i]; r.c.Exited? && r.freed == r.done <= r.pushed && |r.done| == r.c.seen
  {
    hide Start, Steps, Inv, FateInv, TotalInv, FairInv;
    StartInv(h0);
    StepsKeepAll(h0, ms, h);
    ExitsKept(h0, ms, h);
    forall i | 0 <= i < |h.rings|
      ensures var r := h.rings[i]; r.c.Exited? && r.freed == r.done <= r.pushed && |r.done| == r.c.seen
    {
      assert RingOk(h, i);
      ExitFacts(h.rings[i]);
    }
  }

  lemma ExitFacts(r: Ring)
    requires Inv(r) && r.c.Exited?
    ensures r.freed == r.done <= r.pushed && |r.done| == r.c.seen
  {
  }

  /** Job `k` was published to a worker after its last look at its ring. */
  ghost predicate LeftInRing(h: State, k: nat) {
    exists i, a {:trigger h.rings[i].pushed[a]} ::
      0 <= i < |h.rings| && h.rings[i].c.Exited? && h.rings[i].c.seen <= a < |h.rings[i].pushed| &&
      h.rings[i].pushed[a].id == k
  }

  ghost predicate AllExited(h: State) {
    forall i {:trigger h.rings[i]} :: 0 <= i < |h.rings| ==>
      h.rings[i].c.Exited? && |h.rings[i].freed| == h.rings[i].c.seen
  }

  /** So when the harness is gone, the jobs that were never deleted are exactly those published
    after their worker's last look at its ring. */
  lemma NotDeletedExactly(h0: State, ms: seq<Move>, h: State)
    requires Start(h0) && Steps(h0, ms, h) && h.main.Gone?
    ensures forall k :: 0 <= k < |h.fates| ==> (k !in h.deleted <==> LeftInRing(h, k))
  {
    hide AllInv, Released, LeftInRing;
    StartInv(h0);
    StepsKeepAll(h0, ms, h);
    EachJobIsDeletedOnce(h0, ms, h);
    EveryWorkerExits(h0, ms, h);
    forall k | 0 <= k < |h.fates| ensures k !in h.deleted <==> LeftInRing(h, k) {
      assert k in h.deleted <==> multiset(h.deleted)[k] > 0;
      if LeftInRing(h, k) {
        LeftIsNotReleased(h, k);
      } else if !Released(h, k) {
        NotReleasedIsLeft(h, k);
      }
    }
  }

  lemma FreedArePushed(h: State, i: nat)
    requires AllInv(h) && i < |h.rings|
    ensures h.rings[i].freed <= h.rings[i].pushed
  {
    assert RingOk(h, i);
  }

  lemma LeftIsNotReleased(h: State, k: nat)
    requires AllInv(h) && AllExited(h) && LeftInRing(h, k)
    ensures !Released(h, k)
  {
    hide AllInv, Mine;
    var i, a :| 0 <= i < |h.rings| && h.rings[i].c.Exited? && h.rings[i].c.seen <= a < |h.rings[i].pushed| &&
                h.rings[i].pushed[a].id == k;
    PushedArePosted(h, i, a);
    forall j, b {:trigger h.rings[j].freed[b]} | 0 <= j < |h.rings| && 0 <= b < |h.rings[j].freed|
      ensures h.rings[j].freed[b].id != k
    {
      FreedArePushed(h, j);
      PushedArePosted(h, j, b);
      MineIsThePosting(h.fates, i);
    }
  }

  lemma NotReleasedIsLeft(h: State, k: nat)
    requires AllInv(h) && AllExited(h) && k < |h.fates| && !Released(h, k)
    ensures LeftInRing(h, k)
  {
    hide ControlInv, TotalInv, FairInv, Mine;
    var i := h.fates[k].worker;
    assert i < |h.rings| && h.rings[i].pushed == Mine(h.fates, i);
    MineIsThePosting(h.fates, i);
    assert Job(k, h.fates[k].size) in h.rings[i].pushed;
    var a :| 0 <= a < |h.rings[i].pushed| && h.rings[i].pushed[a] == Job(k, h.fates[k].size);
    FreedArePushed(h, i);
  }

  /** The workers joined so far have exited. */
  ghost predicate JoinedInv(h: State) {
    forall i {:trigger h.rings[i]} ::
      0 <= i < |h.rings| && (h.main.Gone? || ((h.main.Stop? || h.main.Joining?) && i >= h.main.k)) ==>
        h.rings[i].c.Exited?
  }

  lemma JoinedStep(h: State, m: Move)
    requires JoinedInv(h) && May(h, m) && (h.main.Joining? ==> h.main.k > 0)
    ensures JoinedInv(Step(h, m))
  {
    if m.MainStep? && TouchesRing(h) {
      RingFrame(h.rings[Target(h)], RingEvent(h));
    }
  }

  lemma {:induction false} JoinedKept(h: State, ms: seq<Move>, h': State)
    requires AllInv(h) && JoinedInv(h) && Steps(h, ms, h')
    ensures JoinedInv(h')
    decreases |ms|
  {
    if ms != [] {
      AllKept(h, ms[0]);
      JoinedStep(h, ms[0]);
      JoinedKept(Step(h, ms[0]), ms[1..], h');
    }
  }

  lemma ExitsKept(h0: State, ms: seq<Move>, h: State)
    requires Start(h0) && Steps(h0, ms, h)
    ensures JoinedInv(h)
  {
    StartInv(h0);
    JoinedKept(h0, ms, h);
  }

  // ------------------------------------------------------------------ how long the shutdown takes

  predicate ShuttingDown(h: State) { h.main.Stop? || h.main.Joining? || h.main.Gone? }

  /** The steps that matter: those of the main thread, and of the worker it is waiting for. */
  predicate Matters(h: State, m: Move) {
    m.MainStep? || (h.main.Joining? && m == Work(Target(h)))
  }

  function MattersIn(h: State, ms: seq<Move>): nat
    decreases |ms|
  {
    if ms == [] || !May(h, ms[0]) then 0
    else Bit(Matters(h, ms[0])) + MattersIn(Step(h, ms[0]), ms[1..])
  }

  /** No ring has more than `slots` slots. */
  predicate SlotsWithin(h: State, slots: nat) {
    forall i {:trigger h.rings[i]} :: 0 <= i < |h.rings| ==> |h.rings[i].buf| <= slots
  }

  /** `k` times what the shutdown of one worker takes at most: eight steps per slot and two. */
  function Shares(k: nat, slots: nat): nat {
    if k == 0 then 0 else Shares(k - 1, slots) + 8 * slots + 2
  }

  lemma {:induction false} SharesProduct(k: nat, slots: nat)
    ensures Shares(k, slots) == k * (8 * slots + 2)
  {
    if k > 0 {
      SharesProduct(k - 1, slots);
      assert k * (8 * slots + 2) == (k - 1) * (8 * slots + 2) + (8 * slots + 2);
    }
  }

  /** A bound on the steps that matter. */
  function StepsLeft(h: State, slots: nat): nat {
    match h.main
    case Stop(k) => Shares(k, slots) + 1
    case Joining(k) =>
      if 0 < k <= |h.rings| then
        Shares(k - 1, slots) + 2 + ToGo(h.rings[k - 1].c, Unread(h.rings[k - 1]))
      else 0
    case _ => 0
  }

  lemma StoppingNext(h: State, slots: nat)
    requires ControlInv(h) && h.main.Stop? && May(h, MainStep) && SlotsWithin(h, slots)
    ensures ShuttingDown(MainNext(h)) && StepsLeft(MainNext(h), slots) < StepsLeft(h, slots)
  {
    hide ToGo, Unread, Inv;
    if h.main.k > 0 {
      var i := h.main.k - 1;
      assert RingOk(h, i);
      ToGoBound(h.rings[i]);
      OverLeavesTheRest(h.rings[i]);
    }
  }

  lemma MainBringsTheEndNearer(h: State, slots: nat)
    requires ControlInv(h) && ShuttingDown(h) && May(h, MainStep) && SlotsWithin(h, slots)
    ensures ShuttingDown(MainNext(h)) && StepsLeft(MainNext(h), slots) < StepsLeft(h, slots)
  {
    hide ToGo, Unread, RingOk;
    if h.main.Stop? {
      StoppingNext(h, slots);
    }
  }

  lemma OverLeavesTheRest(r: Ring)
    requires Enabled(r, SetOver)
    ensures Apply(r, SetOver).c == r.c && Unread(Apply(r, SetOver)) == Unread(r)
  {
  }

  lemma WorkerBringsTheEndNearer(h: State, i: nat, slots: nat)
    requires ControlInv(h) && ShuttingDown(h) && May(h, Work(i)) && SlotsWithin(h, slots)
    ensures var h' := Step(h, Work(i));
            && ShuttingDown(h') && StepsLeft(h', slots) <= StepsLeft(h, slots)
            && (Matters(h, Work(i)) ==> StepsLeft(h', slots) < StepsLeft(h, slots))
  {
    hide ToGo, Unread;
    assert RingOk(h, i);
    if Matters(h, Work(i)) {
      ExitComesNearer(h.rings[i]);
    }
  }

  lemma SlotsStay(h: State, m: Move, slots: nat)
    requires ControlInv(h) && May(h, m) && SlotsWithin(h, slots)
    ensures SlotsWithin(Step(h, m), slots)
  {
    var t := if m.Work? then m.i else Target(h);
    if m.Work? || TouchesRing(h) {
      assert RingOk(h, t);
      StepRefinesFifo(h.rings[t], if m.Work? then WorkStep else RingEvent(h));
    }
  }

  /** While the shutdown is not over, a step that matters is enabled. */
  lemma ShutdownCanMove(h: State)
    requires ControlInv(h) && ShuttingDown(h) && !h.main.Gone?
    ensures exists m :: May(h, m) && Matters(h, m)
  {
    if h.main.Joining? {
      var i := Target(h);
      assert RingOk(h, i);
      if h.rings[i].c.Exited? {
        assert May(h, MainStep) && Matters(h, MainStep);
      } else {
        WorkerCanMove(h.rings[i]);
        assert May(h, Work(i)) && Matters(h, Work(i));
      }
    } else {
      assert h.main.k > 0 ==> RingOk(h, Target(h));
      assert May(h, MainStep) && Matters(h, MainStep);
    }
  }

  lemma {:induction false} ShutdownRun(h: State, ms: seq<Move>, h': State, slots: nat)
    requires ControlInv(h) && ShuttingDown(h) && SlotsWithin(h, slots) && Steps(h, ms, h')
    ensures ControlInv(h') && ShuttingDown(h') && MattersIn(h, ms) + StepsLeft(h', slots) <= StepsLeft(h, slots)
    decreases |ms|
  {
    hide ControlInv, StepsLeft, SlotsWithin, ShuttingDown, Matters, May, Step;
    if ms != [] {
      ControlKept(h, ms[0]);
      SlotsStay(h, ms[0], slots);
      ShutdownStep(h, ms[0], slots);
      ShutdownRun(Step(h, ms[0]), ms[1..], h', slots);
    }
  }

  lemma ShutdownStep(h: State, m: Move, slots: nat)
    requires ControlInv(h) && ShuttingDown(h) && SlotsWithin(h, slots) && May(h, m)
    ensures ShuttingDown(Step(h, m)) && StepsLeft(Step(h, m), slots) + Bit(Matters(h, m)) <= StepsLeft(h, slots)
  {
    hide ControlInv, SlotsWithin, ShuttingDown, StepsLeft, MainNext, WorkNext;
    match m
    case MainStep => MainBringsTheEndNearer(h, slots);
    case Work(i) => WorkerBringsTheEndNearer(h, i, slots);
  }

  /** The shutdown ends whatever is still queued: once the main thread has no more rounds, it and
    the worker it is waiting for take a bounded number of steps, at most eight per slot and two
    per worker, and one of them can always move until every worker has been joined. */
  lemma ShutdownEnds(h0: State, ms: seq<Move>, h: State, ms': seq<Move>, h': State, slots: nat)
    requires Start(h0) && Steps(h0, ms, h) && h.main == Stop(|h.rings|) && SlotsWithin(h, slots)
    requires Steps(h, ms', h')
    ensures MattersIn(h, ms') <= |h.rings| * (8 * slots + 2) + 1
    ensures h'.main.Gone? || exists m :: May(h', m) && Matters(h', m)
  {
    hide Start, Steps, ControlInv, Matters, May, SlotsWithin;
    SharesProduct(|h.rings|, slots);
    StartInv(h0);
    StepsKeepAll(h0, ms, h);
    ShutdownRun(h, ms', h', slots);
    if !h'.main.Gone? {
      ShutdownCanMove(h');
    }
  }

  // ------------------------------------------------------------------ PostJob

  /** As long as no offer has been refused, no worker is ever two posts ahead of another. */
  lemma FairWithoutRefusals(h0: State, ms: seq<Move>, h: State)
    requires Start(h0) && Steps(h0, ms, h) && h.rejects == 0
    ensures forall i, j {:trigger h.rings[i], h.rings[j]} :: 0 <= i < |h.rings| && 0 <= j < |h.rings| ==>
              |h.rings[i].pushed| <= |h.rings[j].pushed| + 1
  {
    StartInv(h0);
    StepsKeepAll(h0, ms, h);
  }

  predicate Offering(h: State) { h.main.Post? || h.main.InOffer? || h.main.Retry? }

  predicate HasRoom(h: State, j: nat) {
    j < |h.rings| && Sane(h.rings[j]) && !Full(h.rings[j])
  }

  predicate Refused(h: State)
    requires h.sel < |h.rings|
  {
    h.main.InOffer? && h.rings[h.sel].p.Said? && !h.rings[h.sel].p.ok
  }

  /** Cyclic distance from the selected worker to worker `j`. */
  function Distance(from: nat, j: nat, n: nat): nat
    requires from < n && j < n
  {
    if from <= j then j - from else n - from + j
  }

  /** How many more probes can be refused while ring `j` has room. */
  function Credit(h: State, j: nat): nat
    requires h.sel < |h.rings| && j < |h.rings|
  {
    var d := Distance(h.sel, j, |h.rings|);
    if h.main.Retry? then (if d == 0 then |h.rings| - 1 else d - 1)
    else if Refused(h) && d == 0 then |h.rings|
    else d
  }

  /** Steps of the main thread until the next refusal or the publication. */
  function Patience(h: State): nat
    requires h.sel < |h.rings|
  {
    if h.main.Retry? then 9 else if h.main.Post? then 8 else
    match h.rings[h.sel].p
    case FullEnd(_) => 7 case FullStart(_, _) => 6 case PushEnd(_) => 5 case PushSlot(_, _) => 4
    case BumpEnd(_) => 3 case Bump(_, _) => 2 case Said(_, _) => 1 case Idle => 0
  }

  function Budget(h: State, j: nat): nat
    requires h.sel < |h.rings| && j < |h.rings|
  {
    9 * Credit(h, j) + Patience(h)
  }

  /** A worker's step never fills a ring and does not touch the main thread's progress. */
  lemma WorkerKeepsRoom(h: State, i: nat, j: nat)
    requires ControlInv(h) && May(h, Work(i)) && HasRoom(h, j)
    ensures HasRoom(Step(h, Work(i)), j)
  {
    assert RingOk(h, i);
    StepRefinesFifo(h.rings[i], WorkStep);
  }

  lemma WorkerKeepsBudget(h: State, i: nat, j: nat)
    requires h.sel < |h.rings| && j < |h.rings| && May(h, Work(i))
    ensures Budget(Step(h, Work(i)), j) == Budget(h, j) && Credit(Step(h, Work(i)), j) == Credit(h, j)
    ensures Unposted(Step(h, Work(i))) == Unposted(h)
  {
    RingFrame(h.rings[i], WorkStep);
  }

  /** A refusal selects the next worker, which is one nearer. */
  lemma RetryUsesBudget(h: State, j: nat)
    requires ControlInv(h) && May(h, MainStep) && HasRoom(h, j) && h.main.Retry?
    ensures var h' := MainNext(h); h'.sel < |h.rings| && h'.main.Post? && HasRoom(h', j)
    ensures Budget(MainNext(h), j) < Budget(h, j)
    ensures MainNext(h).rejects + Credit(MainNext(h), j) <= h.rejects + Credit(h, j)
  {
  }

  /** Calling offerJob, and getting refused, leave the ring alone. */
  lemma CallUsesBudget(h: State, j: nat)
    requires ControlInv(h) && May(h, MainStep) && HasRoom(h, j)
    requires h.main.Post? || (h.main.InOffer? && h.rings[h.sel].p.Said? && !h.rings[h.sel].p.ok)
    ensures var h' := MainNext(h); h'.sel < |h.rings| && Offering(h') && Unposted(h') && HasRoom(h', j)
    ensures Budget(MainNext(h), j) < Budget(h, j)
    ensures MainNext(h).rejects + Credit(MainNext(h), j) <= h.rejects + Credit(h, j)
  {
    hide RingOk, Cyclic;
  }

  /** A step inside offerJob that stores no _end. */
  lemma PollUsesBudget(h: State, j: nat)
    requires ControlInv(h) && May(h, MainStep) && HasRoom(h, j) && h.main.InOffer?
    requires !h.rings[h.sel].p.Said? && !h.rings[h.sel].p.Bump?
    ensures var h' := MainNext(h); h'.sel < |h.rings| && Offering(h') && Unposted(h') && HasRoom(h', j)
    ensures Budget(MainNext(h), j) < Budget(h, j)
    ensures MainNext(h).rejects + Credit(MainNext(h), j) <= h.rejects + Credit(h, j)
  {
    hide Cyclic;
    assert RingOk(h, h.sel);
    var r := h.rings[h.sel];
    PostStepRefinesFifo(r);
    SlotCount(r);
  }

  lemma ProbeUsesBudget(h: State, j: nat)
    requires ControlInv(h) && May(h, MainStep) && HasRoom(h, j) && (h.main.Post? || h.main.InOffer?) && Unposted(h)
    requires MainNext(h).fates == h.fates
    ensures var h' := MainNext(h); h'.sel < |h.rings| && Offering(h') && Unposted(h') && HasRoom(h', j)
    ensures Budget(MainNext(h), j) < Budget(h, j)
    ensures MainNext(h).rejects + Credit(MainNext(h), j) <= h.rejects + Credit(h, j)
  {
    hide ControlInv, Budget, Credit;
    assert |MainNext(h).fates| == |h.fates|;
    if h.main.Post? || h.rings[h.sel].p.Said? {
      CallUsesBudget(h, j);
    } else {
      PollUsesBudget(h, j);
    }
  }

  /** A step of an offer that publishes nothing keeps the room and uses up the budget. */
  lemma OfferUsesBudget(h: State, j: nat)
    requires ControlInv(h) && May(h, MainStep) && HasRoom(h, j) && Offering(h) && Unposted(h)
    requires MainNext(h).fates == h.fates
    ensures MainNext(h).sel < |h.rings| && Offering(MainNext(h)) && Unposted(MainNext(h)) && HasRoom(MainNext(h), j)
    ensures Budget(MainNext(h), j) < Budget(h, j)
    ensures MainNext(h).rejects + Credit(MainNext(h), j) <= h.rejects + Credit(h, j)
  {
    if h.main.Retry? {
      RetryUsesBudget(h, j);
    } else {
      ProbeUsesBudget(h, j);
    }
  }

  function MainSteps(ms: seq<Move>): nat {
    if ms == [] then 0 else Bit(ms[0].MainStep?) + MainSteps(ms[1..])
  }

  lemma {:induction false} OfferRun(h: State, ms: seq<Move>, h': State, j: nat)
    requires ControlInv(h) && HasRoom(h, j) && Offering(h) && Unposted(h)
    requires Steps(h, ms, h') && h'.fates == h.fates
    ensures h'.sel < |h'.rings| && j < |h'.rings| && Offering(h') && Unposted(h') && ControlInv(h')
    ensures MainSteps(ms) + Budget(h', j) <= Budget(h, j)
    ensures h'.rejects + Credit(h', j) <= h.rejects + Credit(h, j)
    decreases |ms|
  {
    if ms != [] {
      var h1 := Step(h, ms[0]);
      FatesGrowStep(h, ms[0]);
      FatesGrow(h1, ms[1..], h');
      assert h1.fates == h.fates;
      if ms[0].Work? {
        WorkerKeepsRoom(h, ms[0].i, j);
        WorkerKeepsBudget(h, ms[0].i, j);
        ControlKeptByWorker(h, ms[0].i);
      } else {
        OfferUsesBudget(h, j);
        if TouchesRing(h) {
          ControlKeptByRingStep(h);
        } else {
          ControlKeptByLocalStep(h);
        }
      }
      OfferRun(h1, ms[1..], h', j);
    }
  }

  /** PostJob ends once some ring has room, whatever the workers do meanwhile: until the job is
    published at most one probe per worker is still refused, the main thread takes a bounded
    number of steps, and it always has a step to take. */
  lemma PostJobEnds(h0: State, ms: seq<Move>, h: State, j: nat, ms': seq<Move>, h': State)
    requires Start(h0) && Steps(h0, ms, h) && Offering(h) && Unposted(h) && HasRoom(h, j)
    requires Steps(h, ms', h') && h'.fates == h.fates
    ensures h'.rejects <= h.rejects + |h.rings|
    ensures MainSteps(ms') <= 9 * |h.rings| + 9
    ensures May(h', MainStep) && h'.sel < |h'.rings|
  {
    hide RingOk, Budget, Credit, Steps, MainNext, Step;
    StartInv(h0);
    StepsKeepAll(h0, ms, h);
    OfferRun(h, ms', h', j);
    FatesGrow(h, ms', h');
    OfferCanMove(h');
    BudgetBound(h, j);
  }

  lemma BudgetBound(h: State, j: nat)
    requires h.sel < |h.rings| && j < |h.rings|
    ensures Credit(h, j) <= |h.rings| && Budget(h, j) <= 9 * |h.rings| + 9
  {
  }

  /** A thread that offers a job never waits. */
  lemma OfferCanMove(h: State)
    requires ControlInv(h) && Offering(h)
    ensures May(h, MainStep)
  {
    assert RingOk(h, h.sel);
  }

  // ------------------------------------------------------------------ waiting for room

  function WorkOf(ms: seq<Move>, j: nat): nat {
    if ms == [] then 0 else Bit(ms[0] == Work(j)) + WorkOf(ms[1..], j)
  }

  /** A thread that offers a job goes on offering until it is published. */
  lemma StillOffering(h: State, m: Move)
    requires ControlInv(h) && May(h, m) && Offering(h) && Unposted(h) && Step(h, m).fates == h.fates
    ensures Offering(Step(h, m)) && Unposted(Step(h, m))
  {
    FateStep(h, m);
    assert RingOk(h, h.sel) && h.fates + [Posted(h.sel, h.main.job.size)] != h.fates;
    match m
    case Work(i) => RingFrame(h.rings[i], WorkStep);
    case MainStep =>
      if TouchesRing(h) {
        RingFrame(h.rings[h.sel], RingEvent(h));
      }
  }

  /** Nobody else disturbs a worker's way to its next job. */
  lemma OthersKeepPace(h: State, m: Move, j: nat)
    requires ControlInv(h) && May(h, m) && m != Work(j) && j < |h.rings|
    ensures var r, r' := h.rings[j], Step(h, m).rings[j];
            |r'.buf| == |r.buf| && StepsToPop(r') == StepsToPop(r)
  {
    assert RingOk(h, j);
    if m.MainStep? && TouchesRing(h) && Target(h) == j {
      PosterLeavesUnread(h.rings[j], RingEvent(h));
    }
  }

  /** A worker with a full ring either makes room or comes nearer to it. */
  lemma FullRingStep(h: State, j: nat)
    requires ControlInv(h) && May(h, Work(j)) && Offering(h) && |h.rings[j].buf| > 1 && !HasRoom(h, j)
    ensures var h' := Step(h, Work(j));
            |h'.rings[j].buf| == |h.rings[j].buf| &&
            (HasRoom(h', j) || StepsToPop(h'.rings[j]) < StepsToPop(h.rings[j]))
  {
    hide Cyclic, StepsToPop;
    assert RingOk(h, j);
    var r := h.rings[j];
    StepRefinesFifo(r, WorkStep);
    SlotCount(r);
    PopComesNearer(r);
    if r.c.Drop? {
      assert |Slots(r)| == 1 + |Slots(WorkNext(r))|;
    }
  }

  /** While the job is not published, a ring keeps its room, and a worker without room has that
    many fewer steps to go to make some. */
  lemma {:induction false} RoomRun(h: State, ms: seq<Move>, h': State, j: nat)
    requires ControlInv(h) && Offering(h) && Unposted(h) && j < |h.rings| && |h.rings[j].buf| > 1
    requires Steps(h, ms, h') && h'.fates == h.fates
    ensures ControlInv(h') && Offering(h') && Unposted(h') && |h'.rings| == |h.rings| && |h'.rings[j].buf| > 1
    ensures HasRoom(h, j) ==> HasRoom(h', j)
    ensures HasRoom(h', j) || WorkOf(ms, j) + StepsToPop(h'.rings[j]) <= StepsToPop(h.rings[j])
    decreases |ms|
  {
    hide ControlInv, HasRoom, StepsToPop, Unposted, May, Step;
    if ms != [] {
      var m, h1 := ms[0], Step(h, ms[0]);
      FatesGrowStep(h, m);
      FatesGrow(h1, ms[1..], h');
      assert h1.fates == h.fates;
      ControlKept(h, m);
      StillOffering(h, m);
      if HasRoom(h, j) {
        RoomKept(h, m, j);
      }
      if m == Work(j) && !HasRoom(h, j) {
        FullRingStep(h, j);
      } else if m != Work(j) {
        OthersKeepPace(h, m, j);
      }
      RoomRun(h1, ms[1..], h', j);
    }
  }

  lemma RoomKept(h: State, m: Move, j: nat)
    requires ControlInv(h) && May(h, m) && HasRoom(h, j) && Offering(h) && Unposted(h) && Step(h, m).fates == h.fates
    ensures HasRoom(Step(h, m), j) && |Step(h, m).rings[j].buf| == |h.rings[j].buf|
  {
    hide ControlInv, Unposted, Offering, Full, MainNext, WorkNext;
    match m
    case Work(i) =>
      WorkerKeepsRoom(h, i, j);
      SameBuffers(h, m, j);
    case MainStep =>
      OfferUsesBudget(h, j);
      SameBuffers(h, m, j);
  }

  lemma SameBuffers(h: State, m: Move, j: nat)
    requires ControlInv(h) && May(h, m) && j < |h.rings|
    ensures |Step(h, m).rings| == |h.rings| && |Step(h, m).rings[j].buf| == |h.rings[j].buf|
  {
    var t := if m.Work? then m.i else Target(h);
    if m.Work? || TouchesRing(h) {
      assert RingOk(h, t);
      StepRefinesFifo(h.rings[t], if m.Work? then WorkStep else RingEvent(h));
    }
  }

  /** The worker of a ring can always move while a job is being offered. */
  lemma OfferedWorkerCanMove(h: State, j: nat)
    requires ControlInv(h) && Offering(h) && j < |h.rings|
    ensures May(h, Work(j)) && StepsToPop(h.rings[j]) <= 8
    ensures !HasRoom(h, j) && |h.rings[j].buf| > 1 ==> StepsToPop(h.rings[j]) > 0
  {
    assert RingOk(h, j);
    SlotCount(h.rings[j]);
  }

  /** So PostJob ends even if every ring is full: once some worker with a ring that holds anything
    has taken eight steps of its own, which it always can, its ring has room, and PostJob needs a
    bounded number of further steps. */
  lemma PostJobEndsWhenServed(h0: State, ms: seq<Move>, h: State, j: nat,
                              ms1: seq<Move>, h1: State, ms2: seq<Move>, h2: State)
    requires Start(h0) && Steps(h0, ms, h) && Offering(h) && Unposted(h) && j < |h.rings| && |h.rings[j].buf| > 1
    requires Steps(h, ms1, h1) && Steps(h1, ms2, h2) && h2.fates == h.fates
    ensures May(h1, Work(j)) && May(h1, MainStep)
    ensures WorkOf(ms1, j) >= 8 ==>
              HasRoom(h1, j) && MainSteps(ms2) <= 9 * |h.rings| + 9 && h2.rejects <= h1.rejects + |h.rings|
  {
    hide Start, Steps, ControlInv, HasRoom, StepsToPop, Unposted, May, Budget, Credit;
    StartInv(h0);
    StepsKeepAll(h0, ms, h);
    FatesGrow(h, ms1, h1);
    FatesGrow(h1, ms2, h2);
    assert h1.fates == h.fates;
    RoomRun(h, ms1, h1, j);
    OfferedWorkerCanMove(h, j);
    OfferedWorkerCanMove(h1, j);
    OfferCanMove(h1);
    if WorkOf(ms1, j) >= 8 {
      SelectedExists(h1);
      OfferRun(h1, ms2, h2, j);
      BudgetBound(h1, j);
    }
  }

  lemma SelectedExists(h: State)
    requires ControlInv(h)
    ensures h.sel < |h.rings|
  {
  }
}
