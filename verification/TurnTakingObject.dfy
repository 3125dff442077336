/** c_thread.cpp with its globals updated in place: `num`, the mutex and the output, and the
  point each thread has reached in thread_func. */
module TurnTakingObject {
  import opened Prelude
  import opened TurnTaking

  class Program {
    var num: nat
    var owner: Option<nat>   // who holds mylock
    var at: seq<Point>
    var out: seq<nat>

    function Snapshot(): State
      reads this
    {
      State(num, owner, at, out)
    }

    constructor (threads: nat)
      ensures Init(Snapshot()) && |at| == threads
    {
      num, owner, out := 0, None, [];
      at := seq(threads, i => Start);
    }

    /** The next step of thread `i`. */
    method ThreadFunc(i: nat)
      requires Enabled(Snapshot(), Step(i))
      modifies this
      ensures Snapshot() == Apply(old(Snapshot()), Step(i))
    {
      match at[i]
      case Start => owner, at := Some(i), at[i := Test];
      case Test => at := at[i := if i != num then Wait else Print];
      case Wait => owner, at := None, at[i := Asleep];
      case Woken => owner, at := Some(i), at[i := Test];
      case Print => out, at := out + [i], at[i := Incr];
      case Incr => num, at := num + 1, at[i := Unlock];
      case Unlock => owner, at := None, at[i := Broadcast];
      case Broadcast => at := WakeAll(at)[i := Finished];
    }

    /** Lets the threads run, in any order a scheduler may choose, until none of them can: the
      numbers come out in order and nobody is left behind. */
    method RunToTheEnd(pick: State -> nat)
      requires Init(Snapshot())
      modifies this
      ensures |at| == old(|at|) == |out| == num && forall k :: 0 <= k < |out| ==> out[k] == k
      ensures forall i :: 0 <= i < |at| ==> at[i].Finished?
    {
      StartInv(Snapshot());
      while exists i :: 0 <= i < |at| && Enabled(Snapshot(), Step(i))
        invariant Inv(Snapshot()) && OutInv(Snapshot()) && |at| == old(|at|)
        decreases Measure(Snapshot())
      {
        var i := pick(Snapshot());
        if i >= |at| || !Enabled(Snapshot(), Step(i)) {
          i :| 0 <= i < |at| && Enabled(Snapshot(), Step(i));
        }
        MeasureDrops(Snapshot(), i);
        InvKept(Snapshot(), Step(i));
        OutKept(Snapshot(), Step(i));
        ThreadFunc(i);
      }
      StuckMeansDone(Snapshot());
    }
  }

  lemma StartInv(s: State)
    requires Init(s)
    ensures Inv(s) && OutInv(s)
  {
  }

  lemma StuckMeansDone(s: State)
    requires Inv(s) && OutInv(s) && forall i :: 0 <= i < |s.at| ==> !Enabled(s, Step(i))
    ensures s.num == |s.at| && s.out == Turns(|s.at|) && forall i :: 0 <= i < |s.at| ==> s.at[i].Finished?
  {
    if exists k :: 0 <= k < |s.at| && !s.at[k].Finished? {
      var i := SomeoneMoves(s);
      assert false;
    }
    assert s.at != [] ==> Past(s.at[|s.at| - 1]);
  }
}
