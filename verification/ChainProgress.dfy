/**
  Progress of chains.  The accesses of a system of chains other than failed turns of a spin loop and new calls of
  push decrease a rank, and one of them is possible as long as anything is under way; so every schedule completes.
 */
module ChainProgress {
  import opened Options
  import opened SerialTaskQueueChain
  import SQ = SerialTaskQueueProtocol

  /** A move that is neither a new call of push nor a failed turn of a spin loop. */
  ghost predicate Productive(cs: Chains, s: System, m: Move) {
    && Enabled(cs, s, m)
    && !m.Call?
    && (m.InQueue? ==> SQ.Productive(s.queues[m.queue], m.act))
  }

  function RankOfQueues(queues: seq<SQ.Queue>): nat {
    if queues == [] then 0 else RankOfQueues(queues[..|queues| - 1]) + SQ.Rank(queues[|queues| - 1])
  }

  /** One queue operation costs its queue at most 15, so an operation still ahead weighs 16. */
  function Rank(cs: Chains, s: System): nat {
    RankOfQueues(s.queues) + 16 * Total(cs, s.actions, StepsAhead)
  }

  lemma {:induction false} RankUpdate(queues: seq<SQ.Queue>, i: nat, q: SQ.Queue)
    requires i < |queues|
    ensures RankOfQueues(queues[i := q]) == RankOfQueues(queues) - SQ.Rank(queues[i]) + SQ.Rank(q)
  {
    var n := |queues| - 1;
    if i < n {
      assert queues[i := q][..n] == queues[..n][i := q];
      RankUpdate(queues[..n], i, q);
    } else {
      assert queues[i := q][..n] == queues[..n];
    }
  }

  lemma CallCost(q: SQ.Queue, m: SQ.Move)
    requires SQ.Enabled(q, m) && !m.Advance?
    ensures SQ.Rank(SQ.Apply(q, m)) <= SQ.Rank(q) + 15
  {
    var acts := q.acts + [SQ.Check(SQ.Caller)];
    assert acts[..|q.acts|] == q.acts;
  }

  lemma OperationDecreases(cs: Chains, s: System, a: nat, q: nat, m: SQ.Move, p: Phase, s': System)
    requires a < |s.actions| && q < |s.queues| && SQ.Enabled(s.queues[q], m) && !m.Advance?
    requires Valid(cs, s.actions[a]) && Valid(cs, s.actions[a].(phase := p))
    requires Remaining(cs, s.actions[a].(phase := p)) < Remaining(cs, s.actions[a])
    requires s' == ToPhase(OnQueue(s, q, m), a, p)
    ensures Rank(cs, s') < Rank(cs, s)
  {
    TotalUpdate(cs, s.actions, a, s.actions[a].(phase := p), StepsAhead);
    RankUpdate(s.queues, q, SQ.Apply(s.queues[q], m));
    CallCost(s.queues[q], m);
  }

  lemma PhaseDecreases(cs: Chains, s: System, a: nat, p: Phase, s': System)
    requires a < |s.actions| && Valid(cs, s.actions[a]) && Valid(cs, s.actions[a].(phase := p))
    requires Remaining(cs, s.actions[a].(phase := p)) < Remaining(cs, s.actions[a])
    requires s'.actions == ToPhase(s, a, p).actions && s'.queues == s.queues
    ensures Rank(cs, s') < Rank(cs, s)
  {
    TotalUpdate(cs, s.actions, a, s.actions[a].(phase := p), StepsAhead);
  }

  lemma BodyDecreases(cs: Chains, s: System, a: nat)
    requires Enabled(cs, s, Body(a))
    ensures Rank(cs, BodyStep(cs, s, a)) < Rank(cs, s)
  {
    var act, s' := s.actions[a], BodyStep(cs, s, a);
    var queues := cs[act.chain];
    match act.phase
    case At(k) =>
      if k == Last(cs, act) {
        PhaseDecreases(cs, s, a, Acting, s');
      } else {
        OperationDecreases(cs, s, a, queues[k], SQ.Pause, Holding(k), s');
      }
    case Holding(k) => OperationDecreases(cs, s, a, queues[k + 1], SQ.Push(TaskOf(s.actions, a)), At(k + 1), s');
    case Acting => PhaseDecreases(cs, s, a, Resuming(Last(cs, act)), s');
    case Resuming(j) =>
      if j == 0 {
        PhaseDecreases(cs, s, a, Left, s');
      } else {
        OperationDecreases(cs, s, a, queues[j - 1], SQ.Resume, Resuming(j - 1), s');
      }
  }

  lemma ProductiveMoveDecreases(cs: Chains, s: System, m: Move)
    requires Inv(cs, s) && Productive(cs, s, m)
    ensures Rank(cs, Apply(cs, s, m)) < Rank(cs, s)
  {
    match m
    case Enter(a) =>
      OperationDecreases(cs, s, a, cs[s.actions[a].chain][0], SQ.Push(TaskOf(s.actions, a)), At(0),
                         Apply(cs, s, m));
    case InQueue(q, i) =>
      SQ.ProductiveStepDecreases(s.queues[q], i);
      RankUpdate(s.queues, q, SQ.Step(s.queues[q], i));
    case Body(a) => BodyDecreases(cs, s, a);
  }

  /** Nothing can block: if anything is under way, some move other than spinning is possible. */
  lemma ProductiveMoveExists(cs: Chains, s: System) returns (m: Move)
    requires Inv(cs, s) && !Quiescent(s)
    ensures Productive(cs, s, m)
  {
    if a :| 0 <= a < |s.actions| && s.actions[a].phase.Entering? {
      m := Enter(a);
    } else {
      var q :| 0 <= q < |s.queues| && !SQ.Quiescent(s.queues[q]);
      var i := SQ.HelpingStepExists(s.queues[q]);
      m := InQueue(q, i);
      if s.queues[q].acts[i].Running? {
        var t := s.queues[q].acts[i].task;
        ChosenWasPushed(s.queues[q], i);
        if !Ended(cs, s.actions[t.id], q) {
          BodyIsPossible(cs, s, t.id);
          m := Body(t.id);
        }
      }
    }
  }

  lemma ChosenWasPushed(q: SQ.Queue, i: nat)
    requires SQ.Inv(q) && i < |q.acts| && q.acts[i].Running?
    ensures q.acts[i].task in q.pushed
  {
    assert SQ.HasTask(q.acts[i]);
    assert q.pushed[|q.finished|] == q.acts[i].task;
  }

  /** The body of a running task always has its next operation available: in particular a resume is balanced. */
  lemma BodyIsPossible(cs: Chains, s: System, a: nat)
    requires Inv(cs, s) && a < |s.actions| && Carried(s.actions[a])
    requires RunningIn(s.queues[Home(cs, s.actions[a])], a)
    ensures Enabled(cs, s, Body(a))
  {
    var act := s.actions[a];
    if act.phase.Resuming? {
      if act.phase.left == 0 {
        TotalUpdate(cs, s.actions, a, act, OutstandingOf(act.chain));
      } else {
        var q := cs[act.chain][act.phase.left - 1];
        assert cs[act.chain][..act.phase.left][act.phase.left - 1] == q;
        assert Amount(cs, act, PausesOf(q)) == 1;
        TotalUpdate(cs, s.actions, a, act, PausesOf(q));
      }
    }
  }

  ghost predicate ProductiveRun(cs: Chains, s: System, ms: seq<Move>, s': System)
    decreases |ms|
  {
    if ms == [] then s == s' else Productive(cs, s, ms[0]) && ProductiveRun(cs, Apply(cs, s, ms[0]), ms[1..], s')
  }

  lemma ProductiveKeepsSizes(cs: Chains, s: System, m: Move)
    requires Productive(cs, s, m) && Enabled(cs, s, m)
    ensures |Apply(cs, s, m).actions| == |s.actions| && |Apply(cs, s, m).queues| == |s.queues|
  {
  }

  lemma {:induction false} ProductiveRunsAreBounded(cs: Chains, s: System, ms: seq<Move>, s': System)
    requires Inv(cs, s) && ProductiveRun(cs, s, ms, s')
    ensures Inv(cs, s') && |ms| + Rank(cs, s') <= Rank(cs, s)
    ensures |s'.actions| == |s.actions| && |s'.queues| == |s.queues|
    decreases |ms|
  {
    if ms != [] {
      MoveKeepsInv(cs, s, ms[0]);
      ProductiveMoveDecreases(cs, s, ms[0]);
      ProductiveKeepsSizes(cs, s, ms[0]);
      hide Inv, Rank, Apply, Enabled, Productive;
      ProductiveRunsAreBounded(cs, Apply(cs, s, ms[0]), ms[1..], s');
    }
  }

  /** Once no more actions are pushed, every schedule of productive moves is finite, and where it cannot be
      continued every action has left, every queue is empty and nothing is paused or outstanding. */
  lemma MaximalRunCompletes(cs: Chains, n: nat, s: System, ms: seq<Move>, s': System)
    requires WellFormed(cs, n) && Reachable(cs, n, s)
    requires ProductiveRun(cs, s, ms, s') && (forall m :: !Productive(cs, s', m))
    ensures |ms| <= Rank(cs, s)
    ensures |s'.actions| == |s.actions| && forall a :: 0 <= a < |s'.actions| ==> s'.actions[a].phase.Left?
    ensures |s'.queues| == n
    ensures forall q :: 0 <= q < n ==> s'.queues[q].sh.tasks == [] && s'.queues[q].sh.pauseCount == 0
    ensures |s'.outstanding| == |cs| && forall c :: 0 <= c < |cs| ==> s'.outstanding[c] == 0
  {
    ReachableInv(cs, n, s);
    ProductiveRunsAreBounded(cs, s, ms, s');
    if !Quiescent(s') {
      var m := ProductiveMoveExists(cs, s');
      assert false;
    }
    InvAndQuiescentMeanComplete(cs, s');
  }
}
