/** The rounds of do_work and the threads that serve them, together. */
module WholeProgram {
  import opened Prelude
  import opened Harness
  import opened HarnessTheorems
  import T = TairTest

  /** The rounds are carried out, and give the harness a script. However the main thread and the
    workers then interleave, once all is posted the jobs are those of the rounds in order, the
    rest were given up, and the counter of do_work is the number of keys in finished, in-hand and
    queued jobs. */
  method RunRounds(t: T.TairTest, rounds: seq<T.Round>)
    requires t.Valid() && t.posted == []
    modifies t
    ensures t.Valid() && t.Where() == T.PerformAll(old(t.Where()), rounds)
    ensures forall h0, ms, h ::
              Start(h0) && h0.script == T.ScriptOf(old(t.Where()), rounds) && Steps(h0, ms, h) && AllPosted(h) ==>
                && Outline(h.fates) == T.ScriptOf(old(t.Where()), rounds)
                && T.KeptSizes(Outline(h.fates)) == T.Sizes(t.posted)
                && h.total == t.totalOp == Sum(h.rings, Load)
  {
    hide Start, Steps, Outline, AllPosted, T.Sizes, T.PerformAll, T.ScriptOf;
    ghost var d := t.Where();
    ghost var script := T.ScriptOf(d, rounds);
    T.PostsTheScript(d, rounds);
    NoSizes(T.KeptSizes(script));
    t.DoWork(rounds);
    forall h0, ms, h | Start(h0) && h0.script == script && Steps(h0, ms, h) && AllPosted(h)
      ensures && Outline(h.fates) == script && T.KeptSizes(Outline(h.fates)) == T.Sizes(t.posted)
              && h.total == t.totalOp == Sum(h.rings, Load)
    {
      ScriptIsFollowed(h0, ms, h);
      TotalIsConserved(h0, ms, h);
      PostedIsConserved(h);
    }
  }

  lemma NoSizes(s: seq<nat>)
    ensures T.Sizes([]) + s == s
  {
  }

  lemma PostedIsConserved(h: State)
    requires AllPosted(h)
    ensures h.main.NextRound? || h.main.Advance? || h.main.Stop? || h.main.Joining? || h.main.Gone?
  {
  }
}
