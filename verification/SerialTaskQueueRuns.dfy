/** What every run of a serial task queue keeps, and how runs end. */
module SerialTaskQueueRuns {
  import opened Options
  import opened SerialTaskQueueProtocol

  /** In every run: one task at a time, in push order, each in its own group. */
  lemma SerialExecution(q: Queue)
    requires Reachable(q)
    ensures q.pushed == q.finished + AsSeq(q.current) + q.sh.tasks
    ensures q.finished <= q.started <= q.pushed && |q.started| <= |q.finished| + 1
    ensures forall i, j :: 0 <= i < |q.acts| && 0 <= j < |q.acts| && q.acts[i].Running? && q.acts[j].Running? ==> i == j
    ensures forall i :: 0 <= i < |q.acts| && q.acts[i].Running? ==>
              q.acts[i].task.group == q.acts[i].group && q.started == q.finished + [q.acts[i].task]
  {
    ReachableInv(q);
    assert q.finished <= q.started <= q.pushed && |q.started| <= |q.finished| + 1 by {
      if q.started != q.finished {
        var i :| 0 <= i < |q.acts| && q.acts[i].Running?;
        assert HasTask(q.acts[i]);
      }
    }
    forall i, j | 0 <= i < |q.acts| && 0 <= j < |q.acts| && q.acts[i].Running? && q.acts[j].Running?
      ensures i == j
    {
      assert Holds(q.acts[i]) && Holds(q.acts[j]);
    }
  }

  /** No lost wakeup: a quiescent queue that is not paused has started and finished every task pushed to it. */
  lemma QuiescentUnpausedIsDrained(q: Queue)
    requires Reachable(q) && Quiescent(q) && q.sh.pauseCount == 0
    ensures q.sh.tasks == [] && q.finished == q.started == q.pushed && !q.sh.chosen && !q.sh.picking
  {
    ReachableInv(q);
  }

  // ----- Every run of productive steps ends, and ends drained -----

  ghost predicate ProductiveRun(q: Queue, turns: seq<nat>, q': Queue)
    decreases |turns|
  {
    if turns == [] then q == q' else Productive(q, turns[0]) && ProductiveRun(Step(q, turns[0]), turns[1..], q')
  }

  /** However the scheduler chooses, productive steps cannot go on for longer than the rank. */
  lemma {:induction false} ProductiveRunsAreBounded(q: Queue, turns: seq<nat>, q': Queue)
    requires Inv(q) && ProductiveRun(q, turns, q')
    ensures Inv(q') && |turns| + Rank(q') <= Rank(q)
    ensures q'.pushed == q.pushed && q'.sh.pauseCount == q.sh.pauseCount
    decreases |turns|
  {
    hide Inv, Rank;
    if turns != [] {
      MoveKeepsInv(q, Advance(turns[0]));
      ProductiveStepDecreases(q, turns[0]);
      ProductiveRunsAreBounded(Step(q, turns[0]), turns[1..], q');
    }
  }

  /** Whatever productive steps are taken, in any order, when none is left an unpaused queue has run every task. */
  lemma MaximalRunDrains(q: Queue, turns: seq<nat>, q': Queue)
    requires Reachable(q) && ProductiveRun(q, turns, q') && (forall i: nat :: !Productive(q', i))
    ensures |turns| <= Rank(q) && Quiescent(q')
    ensures q.sh.pauseCount == 0 ==> q'.finished == q.pushed && q'.sh.tasks == []
  {
    ReachableInv(q);
    ProductiveRunsAreBounded(q, turns, q');
    if !Quiescent(q') {
      var i := HelpingStepExists(q');
      assert false;
    }
  }
}
