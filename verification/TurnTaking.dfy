/** The turn-taking threads of c_thread.cpp for any number of threads, step by step.

  Thread i waits until `num == i`, prints, increments `num`, unlocks and then broadcasts. The
  delay before the lock only restricts the order of the first steps, and every order is
  allowed here. Spurious wake-ups are steps of their own. */
module TurnTaking {
  import opened Prelude

  datatype Point =
    | Start      // about to lock
    | Test       // the loop predicate
    | Wait       // about to enter pthread_cond_wait
    | Asleep
    | Woken      // about to take the mutex again
    | Print
    | Incr
    | Unlock
    | Broadcast
    | Finished

  /** `out` is what has been printed so far. */
  datatype State = State(num: nat, owner: Option<nat>, at: seq<Point>, out: seq<nat>)

  datatype Event = Step(i: nat) | Spurious(i: nat)

  predicate Init(s: State) {
    s.num == 0 && s.owner == None && s.out == [] && forall i :: 0 <= i < |s.at| ==> s.at[i] == Start
  }

  predicate Enabled(s: State, e: Event) {
    && e.i < |s.at|
    && match e
       case Step(i) =>
         !s.at[i].Asleep? && !s.at[i].Finished? && (s.at[i].Start? || s.at[i].Woken? ==> s.owner == None)
       case Spurious(i) => s.at[i].Asleep?
  }

  function WakeAll(at: seq<Point>): seq<Point> {
    seq(|at|, i requires 0 <= i < |at| => if at[i].Asleep? then Woken else at[i])
  }

  function Apply(s: State, e: Event): State
    requires Enabled(s, e)
  {
    var i := e.i;
    if e.Spurious? then s.(at := s.at[i := Woken]) else
    match s.at[i]
    case Start => s.(owner := Some(i), at := s.at[i := Test])
    case Test => s.(at := s.at[i := if i != s.num then Wait else Print])
    case Wait => s.(owner := None, at := s.at[i := Asleep])
    case Woken => s.(owner := Some(i), at := s.at[i := Test])
    case Print => s.(out := s.out + [i], at := s.at[i := Incr])
    case Incr => s.(num := s.num + 1, at := s.at[i := Unlock])
    case Unlock => s.(owner := None, at := s.at[i := Broadcast])
    case Broadcast => s.(at := WakeAll(s.at)[i := Finished])
  }

  predicate Runs(s: State, es: seq<Event>, s': State)
    decreases |es|
  {
    if es == [] then s' == s
    else Enabled(s, es[0]) && Runs(Apply(s, es[0]), es[1..], s')
  }

  // ------------------------------------------------------------------ safety

  predicate Holds(p: Point) { p.Test? || p.Wait? || p.Print? || p.Incr? || p.Unlock? }
  predicate Past(p: Point) { p.Unlock? || p.Broadcast? || p.Finished? }

  function Turns(n: nat): seq<nat> { seq(n, i => i) }

  /** The threads below `num` have had their turn; the one whose number is up is asleep only
    while its predecessor still owes the broadcast. */
  ghost predicate Inv(s: State) {
    && s.num <= |s.at|
    && (s.owner.Some? ==> s.owner.value < |s.at|)
    && (forall i {:trigger s.at[i]} :: 0 <= i < |s.at| ==>
      && (Holds(s.at[i]) <==> s.owner == Some(i))
      && (Past(s.at[i]) <==> i < s.num)
      && (s.at[i].Print? || s.at[i].Incr? ==> i == s.num)
      && (s.at[i].Wait? ==> i != s.num)
      && (s.at[i].Asleep? && i == s.num ==> i > 0 && (s.at[i - 1].Unlock? || s.at[i - 1].Broadcast?)))
  }

  ghost predicate OutInv(s: State) {
    s.out == Turns(if s.num < |s.at| && s.at[s.num].Incr? then s.num + 1 else s.num)
  }

  lemma InvKeptByBroadcast(s: State, i: nat)
    requires Inv(s) && Enabled(s, Step(i)) && s.at[i].Broadcast?
    ensures Inv(Apply(s, Step(i)))
  {
  }

  lemma InvKeptByOthers(s: State, e: Event)
    requires Inv(s) && Enabled(s, e) && !s.at[e.i].Broadcast?
    ensures Inv(Apply(s, e))
  {
  }

  lemma InvKept(s: State, e: Event)
    requires Inv(s) && Enabled(s, e)
    ensures Inv(Apply(s, e)) && |Apply(s, e).at| == |s.at|
  {
    if s.at[e.i].Broadcast? {
      InvKeptByBroadcast(s, e.i);
    } else {
      InvKeptByOthers(s, e);
    }
  }

  /** Right after its broadcast a thread has woken every sleeper. */
  lemma NobodySleepsAfterBroadcast(s: State, i: nat)
    requires Enabled(s, Step(i)) && s.at[i].Broadcast?
    ensures var s' := Apply(s, Step(i));
            && s'.at[i].Finished? && (forall k :: 0 <= k < |s.at| ==> !s'.at[k].Asleep?)
            && forall k :: 0 <= k < |s.at| && k != i && !s.at[k].Asleep? ==> s'.at[k] == s.at[k]
  {
  }

  /** Any sleeper may wake for no reason, at any time, and then wants the mutex again. */
  lemma AnySleeperMayWake(s: State, i: nat)
    requires i < |s.at| && s.at[i].Asleep?
    ensures Enabled(s, Spurious(i)) && Apply(s, Spurious(i)) == s.(at := s.at[i := Woken])
  {
  }

  lemma OutKept(s: State, e: Event)
    requires Inv(s) && OutInv(s) && Enabled(s, e)
    ensures OutInv(Apply(s, e))
  {
    assert s.at[e.i].Print? ==> Turns(s.num) + [s.num] == Turns(s.num + 1);
  }

  lemma {:induction false} RunKeepsInv(s: State, es: seq<Event>, s': State)
    requires Inv(s) && OutInv(s) && Runs(s, es, s')
    ensures Inv(s') && OutInv(s') && |s'.at| == |s.at|
    decreases |es|
  {
    if es != [] {
      InvKept(s, es[0]);
      OutKept(s, es[0]);
      RunKeepsInv(Apply(s, es[0]), es[1..], s');
    }
  }

  /** Whatever the schedule, the threads print in the order of their numbers, none twice. */
  lemma PrintsInOrder(s0: State, es: seq<Event>, s: State)
    requires Init(s0) && Runs(s0, es, s)
    ensures |s.out| <= |s0.at| && s.out == Turns(|s.out|) && forall k :: 0 <= k < |s.out| ==> s.out[k] == k
    ensures s.num <= |s.out| <= s.num + 1
    ensures forall i :: 0 <= i < |s.at| && s.at[i].Finished? ==> i < s.num
    ensures forall i :: 0 <= i < |s.at| && s.at[i].Asleep? && i == s.num ==>
              i > 0 && (s.at[i - 1].Unlock? || s.at[i - 1].Broadcast?)
  {
    RunKeepsInv(s0, es, s);
  }

  // ------------------------------------------------------------------ progress

  lemma SomeoneMoves(s: State) returns (i: nat)
    requires Inv(s) && exists k :: 0 <= k < |s.at| && !s.at[k].Finished?
    ensures Enabled(s, Step(i))
  {
    if s.owner.Some? {
      i := s.owner.value;
    } else if s.num == |s.at| {
      // everyone has had their turn, so whoever is not finished still has to broadcast
      i :| 0 <= i < |s.at| && !s.at[i].Finished?;
    } else if s.at[s.num].Asleep? {
      // the predecessor owes the broadcast and, the mutex being free, is about to send it
      i := s.num - 1;
    } else {
      i := s.num;
    }
  }

  /** In every state short of the end some thread can move without a spurious wake-up. */
  lemma NoDeadlock(s0: State, es: seq<Event>, s: State) returns (i: nat)
    requires Init(s0) && Runs(s0, es, s) && exists k :: 0 <= k < |s.at| && !s.at[k].Finished?
    ensures Enabled(s, Step(i))
  {
    RunKeepsInv(s0, es, s);
    i := SomeoneMoves(s);
  }

  /** Threads that have not broadcast yet. */
  function Pending(p: Point): nat { Bit(!p.Finished?) }

  /** How far a thread can go before it must sleep or finish. */
  function Rank(p: Point): nat {
    match p
    case Start => 8 case Woken => 8 case Test => 7 case Wait => 6 case Print => 6
    case Incr => 5 case Unlock => 4 case Broadcast => 3 case Asleep => 0 case Finished => 0
  }

  /** A broadcast lowers the first component and any other step the second; weighting the first
    by more than the second can ever be turns the pair into one number. */
  function Measure(s: State): nat {
    Sum(s.at, Pending) * (8 * |s.at| + 1) + Sum(s.at, Rank)
  }

  lemma WakeAllPending(at: seq<Point>)
    ensures |WakeAll(at)| == |at| && Sum(WakeAll(at), Pending) == Sum(at, Pending)
  {
    SumSame(WakeAll(at), at, Pending);
  }

  lemma BroadcastDrops(s: State, i: nat)
    requires Enabled(s, Step(i)) && s.at[i].Broadcast?
    ensures Measure(Apply(s, Step(i))) < Measure(s)
  {
    var s' := Apply(s, Step(i));
    WakeAllPending(s.at);
    SumUpdate(WakeAll(s.at), i, Finished, Pending);
    SumBound(s'.at, Rank, 8);
    Weighted(Sum(s.at, Pending), 8 * |s.at| + 1);
  }

  lemma Weighted(p: nat, w: nat)
    requires p > 0
    ensures p * w == (p - 1) * w + w
  {
  }

  lemma RankDrops(s: State, i: nat)
    requires Enabled(s, Step(i)) && !s.at[i].Broadcast?
    ensures var s' := Apply(s, Step(i));
            |s'.at| == |s.at| && Sum(s'.at, Pending) == Sum(s.at, Pending) && Sum(s'.at, Rank) < Sum(s.at, Rank)
  {
    var p := Apply(s, Step(i)).at[i];
    SumUpdate(s.at, i, p, Pending);
    SumUpdate(s.at, i, p, Rank);
  }

  lemma MeasureDrops(s: State, i: nat)
    requires Enabled(s, Step(i))
    ensures Measure(Apply(s, Step(i))) < Measure(s)
  {
    if s.at[i].Broadcast? {
      BroadcastDrops(s, i);
    } else {
      RankDrops(s, i);
    }
  }

  predicate Undisturbed(es: seq<Event>) {
    forall k :: 0 <= k < |es| ==> es[k].Step?
  }

  lemma {:induction false} RunsAreShort(s: State, es: seq<Event>, s': State)
    requires Runs(s, es, s') && Undisturbed(es)
    ensures |es| + Measure(s') <= Measure(s)
    decreases |es|
  {
    if es != [] {
      MeasureDrops(s, es[0].i);
      RunsAreShort(Apply(s, es[0]), es[1..], s');
    }
  }

  /** Total correctness: a run without spurious wake-ups has a bounded length, and once it
    cannot be continued every thread has finished and the output is 0, 1, ..., N-1. */
  lemma EveryoneGetsTheirTurn(s0: State, es: seq<Event>, s: State)
    requires Init(s0) && Runs(s0, es, s) && Undisturbed(es)
    ensures |es| <= (|s0.at| + 1) * (8 * |s0.at| + 1)
    ensures (forall i :: !Enabled(s, Step(i))) ==>
              && s.out == Turns(|s0.at|) && |s.out| == |s0.at| && (forall k :: 0 <= k < |s.out| ==> s.out[k] == k)
              && forall i :: 0 <= i < |s.at| ==> s.at[i].Finished?
  {
    RunsAreShort(s0, es, s);
    RunKeepsInv(s0, es, s);
    MeasureBound(s0);
    if forall i :: !Enabled(s, Step(i)) {
      if exists k :: 0 <= k < |s.at| && !s.at[k].Finished? {
        var i := NoDeadlock(s0, es, s);
        assert false;
      }
      assert s.at != [] ==> Past(s.at[|s.at| - 1]);
    }
  }

  lemma MeasureBound(s: State)
    ensures Measure(s) <= (|s.at| + 1) * (8 * |s.at| + 1)
  {
    SumBound(s.at, Pending, 1);
    SumBound(s.at, Rank, 8);
    Scaled(Sum(s.at, Pending), |s.at|, 8 * |s.at| + 1);
  }

  lemma Scaled(a: nat, n: nat, w: nat)
    requires a <= n
    ensures a * w + w <= (n + 1) * w
  {
    assert (n + 1) * w == a * w + (n - a) * w + w;
  }
}
