/** A run of the whole harness that ends with a job nobody executes or deletes. */
module HarnessLeak {
  import opened Prelude
  import opened MyQueue
  import opened RingSteps
  import opened Harness
  import opened HarnessTheorems

  lemma Before(h: State, m: Move, h1: State, ms: seq<Move>, h': State) returns (all: seq<Move>)
    requires May(h, m) && Step(h, m) == h1 && Steps(h1, ms, h')
    ensures Steps(h, all, h')
  {
    all := [m] + ms;
    assert all[1..] == ms;
  }

  /** One worker, one ring. */
  function One(r: Ring, m: Main, script: seq<Round>, total: int, fates: seq<Fate>): State {
    Harness.State([r], m, 0, script, total, fates, [], 0)
  }

  lemma OneRing(r: Ring, r': Ring)
    ensures [r][0 := r'] == [r']
  {
  }

  /** The main thread's step on the ring. */
  lemma RingMove(h: State, h1: State, e: RingSteps.Event, ms: seq<Move>, h': State) returns (all: seq<Move>)
    requires |h.rings| == 1 && h.sel == 0 && May(h, MainStep) && TouchesRing(h) && RingEvent(h) == e && Target(h) == 0
    requires h1 == MainNext(h).(rings := [Apply(h.rings[0], e)]) && Steps(h1, ms, h')
    ensures Steps(h, all, h')
  {
    OneRing(h.rings[0], Apply(h.rings[0], e));
    assert h.rings == [h.rings[0]];
    all := Before(h, MainStep, h1, ms, h');
  }

  /** A step of the worker that frees nothing. */
  lemma WorkerMove(h: State, h1: State, ms: seq<Move>, h': State) returns (all: seq<Move>)
    requires |h.rings| == 1 && May(h, Work(0)) && !h.rings[0].c.Free?
    requires h1 == h.(rings := [WorkNext(h.rings[0])]) && Steps(h1, ms, h')
    ensures Steps(h, all, h')
  {
    OneRing(h.rings[0], WorkNext(h.rings[0]));
    assert h.rings == [h.rings[0]] && h.deleted + [] == h.deleted;
    all := Before(h, Work(0), h1, ms, h');
  }

  /** After the worker has exited, the main thread finishes. */
  lemma JoinAndGo(r: Ring, total: int, fates: seq<Fate>) returns (ms: seq<Move>, h: State)
    requires Sane(r) && r.c.Exited?
    ensures h == One(r, Gone, [], total, fates) && Steps(One(r, Joining(1), [], total, fates), ms, h)
  {
    var h1 := One(r, Stop(0), [], total, fates);
    h := One(r, Gone, [], total, fates);
    ms := Before(h1, MainStep, h, [], h);
    ms := Before(One(r, Joining(1), [], total, fates), MainStep, h1, ms, h);
  }

  /** The worker acts on what it loaded before the job was published. */
  lemma ExitAndJoin(r: Ring, total: int, fates: seq<Fate>) returns (ms: seq<Move>, h: State)
    requires Sane(r) && r.start == 0 && r.over && r.c == EmptyStart(0, 0)
    ensures h == One(r.(c := Exited(0)), Gone, [], total, fates)
    ensures Steps(One(r, Joining(1), [], total, fates), ms, h)
  {
    hide Steps;
    var r1 := r.(c := Over(0));
    var r2 := r.(c := Exited(0));
    SmallMod(0, |r.buf|);
    ms, h := JoinAndGo(r2, total, fates);
    ms := WorkerMove(One(r1, Joining(1), [], total, fates), One(r2, Joining(1), [], total, fates), ms, h);
    ms := WorkerMove(One(r, Joining(1), [], total, fates), One(r1, Joining(1), [], total, fates), ms, h);
  }

  lemma StopAndExit(r: Ring, total: int, fates: seq<Fate>) returns (ms: seq<Move>, h: State)
    requires Sane(r) && r.start == 0 && r.p == Idle && r.c == EmptyStart(0, 0)
    ensures h == One(r.(over := true, c := Exited(0)), Gone, [], total, fates)
    ensures Steps(One(r, Advance, [], total, fates), ms, h)
  {
    hide Steps;
    ms, h := ExitAndJoin(r.(over := true), total, fates);
    ms := RingMove(One(r, Stop(1), [], total, fates), One(r.(over := true), Joining(1), [], total, fates),
                   SetOver, ms, h);
    ms := Before(One(r, NextRound, [], total, fates), MainStep, One(r, Stop(1), [], total, fates), ms, h);
    ms := Before(One(r, Advance, [], total, fates), MainStep, One(r, NextRound, [], total, fates), ms, h);
  }

  /** A step inside offerJob that publishes nothing. */
  lemma OfferMove(r: Ring, r': Ring, job: Job, ms: seq<Move>, h: State) returns (all: seq<Move>)
    requires Enabled(r, PostStep) && !r.p.Bump? && PostNext(r) == r'
    requires Steps(One(r', InOffer(job), [], job.size, []), ms, h)
    ensures Steps(One(r, InOffer(job), [], job.size, []), all, h)
  {
    hide Steps, PostNext;
    all := RingMove(One(r, InOffer(job), [], job.size, []), One(r', InOffer(job), [], job.size, []), PostStep, ms, h);
  }

  /** The run ends with the job in the ring, counted and not deleted. */
  predicate Leaked(h: State, job: Job) {
    && h.main.Gone? && h.fates == [Posted(0, job.size)] && h.deleted == [] && h.total == job.size
    && |h.rings| == 1 && h.rings[0].c == Exited(0) && h.rings[0].pushed == [job]
  }

  lemma PublishAndExit(r: Ring, job: Job) returns (ms: seq<Move>, h: State)
    requires |r.buf| > 1 && r.start == r.end == 0 && r.c == EmptyStart(0, 0) && job.id == 0 && r.pushed == []
    requires r.p == Bump(job, 0)
    ensures Leaked(h, job) && Steps(One(r, InOffer(job), [], job.size, []), ms, h)
  {
    hide Steps;
    var r1 := r.(p := Said(job, true), end := 1, pushed := [job]);
    var fates := [Posted(0, job.size)];
    ms, h := StopAndExit(r1.(p := Idle), job.size, fates);
    ms := RingMove(One(r1, InOffer(job), [], job.size, fates), One(r1.(p := Idle), Advance, [], job.size, fates),
                   Return, ms, h);
    assert [] + [job] == [job] && [] + fates == fates;
    ms := RingMove(One(r, InOffer(job), [], job.size, []), One(r1, InOffer(job), [], job.size, fates), PostStep, ms, h);
  }

  lemma PushAndExit(r: Ring, job: Job) returns (ms: seq<Move>, h: State)
    requires |r.buf| > 1 && r.start == r.end == 0 && r.c == EmptyStart(0, 0) && job.id == 0 && r.pushed == []
    requires r.p == FullEnd(job)
    ensures Leaked(h, job) && Steps(One(r, InOffer(job), [], job.size, []), ms, h)
  {
    hide Steps, Leaked, One;
    var r1, r2, r3 := r.(p := FullStart(job, 0)), r.(p := PushEnd(job)), r.(p := PushSlot(job, 0));
    var r4 := r.(p := BumpEnd(job), buf := r.buf[0 := Some(job)]);
    var r5 := r4.(p := Bump(job, 0));
    ms, h := PublishAndExit(r5, job);
    ms := OfferMove(r4, r5, job, ms, h);
    ms := OfferMove(r3, r4, job, ms, h);
    ms := OfferMove(r2, r3, job, ms, h);
    ms := OfferMove(r1, r2, job, ms, h);
    ms := OfferMove(r, r1, job, ms, h);
  }

  lemma OfferAndExit(r: Ring, job: Job) returns (ms: seq<Move>, h: State)
    requires |r.buf| > 1 && r.start == r.end == 0 && r.c == EmptyStart(0, 0) && job.id == 0 && r.pushed == []
    requires r.p == Idle && !r.over
    ensures Leaked(h, job) && Steps(One(r, Post(job), [], job.size, []), ms, h)
  {
    hide Steps, Leaked;
    var r1 := r.(p := FullEnd(job));
    ms, h := PushAndExit(r1, job);
    ms := RingMove(One(r, Post(job), [], job.size, []), One(r1, InOffer(job), [], job.size, []), Call(job), ms, h);
  }

  lemma BuildAndExit(r: Ring, nums: nat) returns (ms: seq<Move>, h: State)
    requires |r.buf| > 1 && r.start == r.end == 0 && r.c == EmptyStart(0, 0) && r.pushed == []
    requires r.p == Idle && !r.over
    ensures Leaked(h, Job(0, nums)) && Steps(One(r, NextRound, [Round(nums, false)], 0, []), ms, h)
  {
    hide Steps, Leaked;
    var script := [Round(nums, false)];
    assert script[1..] == [];
    ms, h := OfferAndExit(r, Job(0, nums));
    var building := One(r, Building(nums, false), [], nums, []);
    ms := Before(building, MainStep, One(r, Post(Job(0, nums)), [], nums, []), ms, h);
    ms := Before(One(r, NextRound, script, 0, []), MainStep, building, ms, h);
  }

  /** Whatever the size of the job and of the ring: the worker loads _end before the only job is
    published and the flag after it is set, so the job is counted in total_op, but never executed
    and never deleted. */
  lemma HarnessMayLeaveJobs(nums: nat, capacity: nat) returns (h0: State, ms: seq<Move>, h: State)
    requires capacity > 0
    ensures Start(h0) && |h0.rings[0].buf| == capacity + 1 && h0.script == [Round(nums, false)] && Steps(h0, ms, h)
    ensures h.main.Gone? && h.fates == [Posted(0, nums)] && LeftInRing(h, 0) && 0 !in h.deleted && h.total == nums
  {
    hide Steps;
    var r0 := Ring(0, 0, seq(capacity + 1, i => None), false, Idle, EmptyEnd, [], [], [], []);
    var r := r0.(c := EmptyStart(0, 0));
    h0 := One(r0, NextRound, [Round(nums, false)], 0, []);
    ms, h := BuildAndExit(r, nums);
    ms := WorkerMove(h0, One(r, NextRound, [Round(nums, false)], 0, []), ms, h);
    assert h.rings[0].pushed[0].id == 0;
  }
}
