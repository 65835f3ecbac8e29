/**
  Progress of pipelines: every move but a copy lowers a rank, and one of them is possible until all is quiet; so every
  run in which user code lets its holders go completes the chain.
 */
module ChainFirstProgress {
  import opened Options
  import opened ChainFirst
  import opened ChainFirstRuns

  function Weight(x: Task): nat {
    x.loose + x.spare +
    match x.phase
    case Waiting => 6
    case Spawned => 5
    case InFunctor => 2
    case Done => 0
  }

  function Rank(tasks: seq<Task>): nat {
    if tasks == [] then 0 else Rank(tasks[..|tasks| - 1]) + Weight(tasks[|tasks| - 1])
  }

  lemma {:induction false} RankUpdate(tasks: seq<Task>, t: nat, x: Task)
    requires t < |tasks|
    ensures Rank(tasks[t := x]) == Rank(tasks) - Weight(tasks[t]) + Weight(x)
  {
    var n := |tasks| - 1;
    if t < n {
      assert tasks[t := x][..n] == tasks[..n][t := x];
      RankUpdate(tasks[..n], t, x);
    } else {
      assert tasks[t := x][..n] == tasks[..n];
    }
  }

  /** Two tasks change. */
  lemma RankOfTwo(tasks: seq<Task>, t: nat, x: Task, y: Task)
    requires 0 < t < |tasks|
    ensures Rank(tasks[t := x][t - 1 := y]) == Rank(tasks) - Weight(tasks[t]) - Weight(tasks[t - 1]) + Weight(x) + Weight(y)
  {
    RankUpdate(tasks, t, x);
    RankUpdate(tasks[t := x], t - 1, y);
  }

  lemma StageStartLowers(s: State, alone: bool, t: nat)
    requires Inv(s, alone) && Enabled(s, Start(t)) && s.tasks[t].body.Stage?
    ensures Rank(Next(s, Start(t)).tasks) < Rank(s.tasks)
  {
    assert TaskOk(s, alone, t);
    var x, y := s.tasks[t], s.tasks[t - 1];
    assert TaskOk(s, alone, t - 1);
    StartedTasks(s, t);
    hide Next, Inv, TaskOk, Rank;
    if x.body.h.TwoArg? {
      RankOfTwo(s.tasks, t, x.(phase := Done), y.(loose := y.loose + 1));
    } else if x.slot.Some? {
      RankOfTwo(s.tasks, t, x.(phase := Done), DoneWaiting(y, x.slot));
    } else {
      RankOfTwo(s.tasks, t, x.(phase := InFunctor), y.(refs := y.refs + 1, loose := y.loose + 1));
    }
  }

  lemma FunctorEndLowers(s: State, alone: bool, m: Move)
    requires Inv(s, alone) && Enabled(s, m) && (m.FReturns? || m.FThrows?)
    ensures Rank(Next(s, m).tasks) < Rank(s.tasks)
  {
    assert TaskOk(s, alone, m.t);
    var t, s' := m.t, Next(s, m);
    assert TaskOk(s, alone, t - 1);
    assert s'.tasks == s.tasks[t := s'.tasks[t]][t - 1 := s'.tasks[t - 1]];
    RankOfTwo(s.tasks, t, s'.tasks[t], s'.tasks[t - 1]);
    hide Rank, Inv;
  }

  lemma OneTaskMoves(s: State, alone: bool, m: Move)
    requires Inv(s, alone) && Enabled(s, m) && (m.Copy? || m.Release? || m.DropSpare? || (m.Start? && s.tasks[m.t].body.Last?))
    ensures if m.Copy? then Rank(Next(s, m).tasks) == Rank(s.tasks) + 1 else Rank(Next(s, m).tasks) < Rank(s.tasks)
  {
    assert TaskOk(s, alone, m.t);
    var s' := Next(s, m);
    assert s'.tasks == s.tasks[m.t := s'.tasks[m.t]];
    RankUpdate(s.tasks, m.t, s'.tasks[m.t]);
    hide Rank, Inv;
  }

  /** Every move but a copy lowers the rank. */
  lemma MoveLowers(s: State, alone: bool, m: Move)
    requires Inv(s, alone) && Enabled(s, m)
    ensures if m.Copy? then Rank(Next(s, m).tasks) == Rank(s.tasks) + 1 else Rank(Next(s, m).tasks) < Rank(s.tasks)
  {
    hide Inv, Next;
    if m.FReturns? || m.FThrows? {
      FunctorEndLowers(s, alone, m);
    } else if m.Start? && s.tasks[m.t].body.Stage? {
      StageStartLowers(s, alone, m.t);
    } else {
      OneTaskMoves(s, alone, m);
    }
  }

  /** Until all is quiet, user code has a holder to let go, or a functor to return from, or a task can execute. */
  lemma SomeMoveIsPossible(s: State, alone: bool) returns (m: Move)
    requires Inv(s, alone) && !AtEnd(s)
    ensures Enabled(s, m) && !m.Copy?
  {
    var t :| 0 <= t < |s.tasks|
             && !(s.tasks[t].loose == 0 && s.tasks[t].spare == 0 && (s.tasks[t].phase.Waiting? || s.tasks[t].phase.Done?));
    assert TaskOk(s, alone, t);
    assert t > 0 ==> TaskOk(s, alone, t - 1);
    if s.tasks[t].loose > 0 {
      m := Release(t, None);
    } else if s.tasks[t].spare > 0 {
      m := DropSpare(t);
    } else if s.tasks[t].phase.Spawned? {
      m := Start(t);
    } else {
      m := FReturns(t);
    }
  }

  function CopiesIn(ms: seq<Move>): nat {
    if ms == [] then 0 else (if ms[0].Copy? then 1 else 0) + CopiesIn(ms[1..])
  }

  /** A run has no more moves than the rank allows, two more for each copy. */
  lemma {:induction false} RunsAreBounded(s: State, alone: bool, ms: seq<Move>, s': State)
    requires Inv(s, alone) && Run(s, ms, s')
    ensures Inv(s', alone) && |ms| + Rank(s'.tasks) <= Rank(s.tasks) + 2 * CopiesIn(ms)
    decreases |ms|
  {
    hide Inv, Next, Enabled, Rank;
    if ms != [] {
      MoveKeepsInv(s, alone, ms[0]);
      MoveLowers(s, alone, ms[0]);
      RunsAreBounded(Next(s, ms[0]), alone, ms[1..], s');
    }
  }

  /** A run of a chain that can only go on by copying holders it does not have has run the whole chain; and no run is
      longer than the number of copies allows. */
  lemma PipelinesComplete(c: Chain, holders: nat, ms: seq<Move>, s: State)
    requires holders > 0 && Run(LastTask(c, Given(holders), 0), ms, s)
    ensures |ms| <= Rank(LastTask(c, Given(holders), 0).tasks) + 2 * CopiesIn(ms)
    ensures (forall m :: Enabled(s, m) ==> m.Copy?) ==>
              |s.tasks| > 0 && s.trace == Whole(c, ms).calls + [Finally(s.tasks[0].slot)]
  {
    var s0, alone := LastTask(c, Given(holders), 0), holders == 1;
    GivenIsBuilding(holders);
    LastTaskIsSound(c, Given(holders), alone, 0);
    LastTaskRunsTheChain(c, holders, ms, s);
    hide LastTask, Given, Inv, Next, Enabled, Rank;
    RunsAreBounded(s0, alone, ms, s);
    if !AtEnd(s) {
      var m := SomeMoveIsPossible(s, alone);
      assert Enabled(s, m) && !m.Copy?;
    }
  }
}
