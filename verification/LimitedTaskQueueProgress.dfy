/**
  Progress of limited task queues: spreading, the accesses of the queues, the wrappers and the release of Resumers lower
  a rank, and one of them is possible as long as anything is under way or a Resumer is live.
 */
module LimitedTaskQueueProgress {
  import opened Options
  import opened LimitedTaskQueue
  import opened LimitedTaskQueueCalls
  import SQ = SerialTaskQueueProtocol
  import CP = ChainProgress

  /** A move that is neither a new call, nor a failed turn of a spin loop, nor one that only passes Resumers on. */
  ghost predicate Productive(s: System, m: Move) {
    && Enabled(s, m)
    && match m
       case InQueue(q, i) => SQ.Productive(s.queues[q], i)
       case ResumeBy(i) => s.resumers[i].Some?
       case Spread(_) => true
       case Execute(_, _) => true
       case _ => false
  }

  // ----- The rank -----

  /** What the wrapper of a queue can still cost; one that has paused its queue owes it a Resumer. */
  function BodyCost(b: Body): nat {
    match b
    case Fresh => 4
    case Won => 83
    case Paused => 82
    case Acting => 1
    case Ended => 0
  }

  ghost function BodiesLeft(bodies: map<(nat, nat), Body>, k: nat): nat {
    if k == 0 then 0 else BodiesLeft(bodies, k - 1) + BodyCost(Now(bodies, k - 1))
  }

  /** Queues that still have to get the wrapper, and the pause that an unclaimed action may make. */
  function ActionCost(a: Action, n: nat): nat {
    (if a.spread < n then 80 * (n - a.spread) else 0) + if a.winner.None? then 80 else 0
  }

  function ActionsLeft(actions: seq<Action>, n: nat): nat {
    if actions == [] then 0
    else ActionsLeft(actions[..|actions| - 1], n) + ActionCost(actions[|actions| - 1], n)
  }

  function ResumersLeft(resumers: seq<Option<nat>>): nat {
    if resumers == [] then 0
    else ResumersLeft(resumers[..|resumers| - 1]) + if resumers[|resumers| - 1].Some? then 80 else 0
  }

  ghost function Rank(s: System): nat {
    5 * CP.RankOfQueues(s.queues) + BodiesLeft(s.bodies, |s.queues|) + ActionsLeft(s.actions, |s.queues|)
    + ResumersLeft(s.resumers)
  }

  lemma {:induction false} BodiesLeftUpdate(bodies: map<(nat, nat), Body>, bodies': map<(nat, nat), Body>, q: nat, k: nat)
    requires forall r :: 0 <= r < k && r != q ==> Now(bodies', r) == Now(bodies, r)
    ensures BodiesLeft(bodies', k)
         == BodiesLeft(bodies, k) + if q < k then BodyCost(Now(bodies', q)) - BodyCost(Now(bodies, q)) else 0
  {
    if k > 0 {
      BodiesLeftUpdate(bodies, bodies', q, k - 1);
    }
  }

  lemma {:induction false} ActionsLeftUpdate(actions: seq<Action>, a: nat, x: Action, n: nat)
    requires a < |actions|
    ensures ActionsLeft(actions[a := x], n) == ActionsLeft(actions, n) - ActionCost(actions[a], n) + ActionCost(x, n)
  {
    var m := |actions| - 1;
    if a < m {
      assert actions[a := x][..m] == actions[..m][a := x];
      ActionsLeftUpdate(actions[..m], a, x, n);
    } else {
      assert actions[a := x][..m] == actions[..m];
    }
  }

  lemma {:induction false} ResumersLeftUpdate(resumers: seq<Option<nat>>, i: nat)
    requires i < |resumers| && resumers[i].Some?
    ensures ResumersLeft(resumers[i := None]) == ResumersLeft(resumers) - 80
  {
    var n := |resumers| - 1;
    if i < n {
      assert resumers[i := None][..n] == resumers[..n][i := None];
      ResumersLeftUpdate(resumers[..n], i);
    } else {
      assert resumers[i := None][..n] == resumers[..n];
    }
  }

  lemma ResumersLeftAppend(resumers: seq<Option<nat>>, q: nat)
    ensures ResumersLeft(resumers + [Some(q)]) == ResumersLeft(resumers) + 80
  {
    assert (resumers + [Some(q)])[..|resumers|] == resumers;
  }

  // ----- Every productive move lowers it -----

  lemma SpreadDecreases(s: System, a: nat)
    requires Enabled(s, Spread(a))
    ensures Rank(Apply(s, Spread(a))) < Rank(s)
  {
    var act := s.actions[a];
    var m := SQ.Push(SQ.Task(a, act.group));
    CP.RankUpdate(s.queues, act.spread, SQ.Apply(s.queues[act.spread], m));
    CP.CallCost(s.queues[act.spread], m);
    ActionsLeftUpdate(s.actions, a, act.(spread := act.spread + 1), |s.queues|);
  }

  lemma ResumeDecreases(s: System, i: nat)
    requires Productive(s, ResumeBy(i))
    ensures Rank(Apply(s, ResumeBy(i))) < Rank(s)
  {
    var q := s.resumers[i].value;
    CP.RankUpdate(s.queues, q, SQ.Apply(s.queues[q], SQ.Resume));
    CP.CallCost(s.queues[q], SQ.Resume);
    ResumersLeftUpdate(s.resumers, i);
  }

  lemma AccessDecreases(s: System, q: nat, i: nat)
    requires QueuesInv(s) && Productive(s, InQueue(q, i))
    ensures Rank(Apply(s, InQueue(q, i))) < Rank(s)
  {
    var s' := Apply(s, InQueue(q, i));
    SQ.ProductiveStepDecreases(s.queues[q], i);
    CP.RankUpdate(s.queues, q, SQ.Step(s.queues[q], i));
    AdvanceKeepsQueues(s, q, i);
    BodiesLeftUpdate(s.bodies, s'.bodies, q, |s.queues|);
  }

  /** What an operation of a wrapper costs, apart from the wrappers themselves. */
  lemma ExecuteCosts(s: System, q: nat, i: nat)
    requires Enabled(s, Execute(q, i))
    ensures var s' := Apply(s, Execute(q, i));
            && |s'.queues| == |s.queues| && CP.RankOfQueues(s'.queues) == CP.RankOfQueues(s.queues)
            && ActionsLeft(s'.actions, |s.queues|) + ResumersLeft(s'.resumers) + BodyCost(BodyOf(s'.bodies, q, i))
               < ActionsLeft(s.actions, |s.queues|) + ResumersLeft(s.resumers) + BodyCost(BodyOf(s.bodies, q, i))
  {
    var a := s.queues[q].acts[i].task.id;
    hide ActionsLeft, ResumersLeft, CP.RankOfQueues;
    if BodyOf(s.bodies, q, i).Fresh? {
      ActionsLeftUpdate(s.actions, a, s.actions[a].(winner := Some(q)), |s.queues|);
    } else if BodyOf(s.bodies, q, i).Won? {
      CP.RankUpdate(s.queues, q, SQ.Apply(s.queues[q], SQ.Pause));
    } else if BodyOf(s.bodies, q, i).Paused? {
      ResumersLeftAppend(s.resumers, q);
    }
  }

  lemma ExecuteDecreases(s: System, q: nat, i: nat)
    requires QueuesInv(s) && Enabled(s, Execute(q, i))
    ensures Rank(Apply(s, Execute(q, i))) < Rank(s)
  {
    var s' := Apply(s, Execute(q, i));
    ExecuteCosts(s, q, i);
    BodyKeepsQueues(s, q, i);
    hide QueuesInv, Apply, Enabled, Now, BodyOf, ActionsLeft, ResumersLeft;
    BodiesLeftUpdate(s.bodies, s'.bodies, q, |s.queues|);
  }

  lemma ProductiveMoveDecreases(s: System, m: Move)
    requires Inv(s) && Productive(s, m)
    ensures Rank(Apply(s, m)) < Rank(s)
  {
    match m
    case Spread(a) => SpreadDecreases(s, a);
    case InQueue(q, i) => AccessDecreases(s, q, i);
    case Execute(q, i) => ExecuteDecreases(s, q, i);
    case ResumeBy(i) => ResumeDecreases(s, i);
  }

  // ----- One is possible until all is done -----

  ghost predicate AtRest(s: System) {
    Quiescent(s) && forall i :: 0 <= i < |s.resumers| ==> s.resumers[i].None?
  }

  lemma RunningWasPushed(s: System, q: nat, i: nat)
    requires QueuesInv(s) && SpreadInv(s) && q < |s.queues| && RunningAt(s.queues[q], i)
    ensures s.queues[q].acts[i].task.id < |s.actions|
  {
    var x := s.queues[q];
    assert SQ.HasTask(x.acts[i]);
    assert x.pushed[|x.finished|] == x.acts[i].task;
    assert SpreadTo(s.actions, q, x.pushed);
  }

  /** A live Resumer can always resume its queue. */
  lemma ResumeIsPossible(s: System, i: nat)
    requires PausesConserved(s) && i < |s.resumers| && s.resumers[i].Some?
    ensures Productive(s, ResumeBy(i))
  {
    HoldingUpdate(s.resumers, i, None, s.resumers[i].value);
  }

  lemma QueueCanMove(s: System, q: nat) returns (m: Move)
    requires QueuesInv(s) && SpreadInv(s) && q < |s.queues| && !SQ.Quiescent(s.queues[q])
    ensures Productive(s, m)
  {
    var i := SQ.HelpingStepExists(s.queues[q]);
    m := InQueue(q, i);
    if s.queues[q].acts[i].Running? && !BodyOf(s.bodies, q, i).Ended? {
      RunningWasPushed(s, q, i);
      m := Execute(q, i);
    }
    hide QueuesInv, SpreadInv;
  }

  /** Nothing can block: while anything is under way or a Resumer is live, some productive move is possible. */
  lemma ProductiveMoveExists(s: System) returns (m: Move)
    requires Inv(s) && !AtRest(s)
    ensures Productive(s, m)
  {
    if a :| 0 <= a < |s.actions| && s.actions[a].spread < |s.queues| {
      m := Spread(a);
    } else if q :| 0 <= q < |s.queues| && !SQ.Quiescent(s.queues[q]) {
      m := QueueCanMove(s, q);
    } else {
      var i :| 0 <= i < |s.resumers| && s.resumers[i].Some?;
      ResumeIsPossible(s, i);
      m := ResumeBy(i);
    }
  }

  // ----- Runs -----

  ghost predicate ProductiveRun(s: System, ms: seq<Move>, s': System)
    decreases |ms|
  {
    if ms == [] then s == s' else Productive(s, ms[0]) && ProductiveRun(Apply(s, ms[0]), ms[1..], s')
  }

  lemma ProductiveKeepsSizes(s: System, m: Move)
    requires Productive(s, m) && Enabled(s, m)
    ensures |Apply(s, m).actions| == |s.actions| && |Apply(s, m).queues| == |s.queues|
  {
  }

  lemma {:induction false} ProductiveRunsAreBounded(s: System, ms: seq<Move>, s': System)
    requires Inv(s) && ProductiveRun(s, ms, s')
    ensures Inv(s') && |ms| + Rank(s') <= Rank(s)
    ensures |s'.actions| == |s.actions| && |s'.queues| == |s.queues|
    decreases |ms|
  {
    if ms != [] {
      MoveKeepsInv(s, ms[0]);
      ProductiveMoveDecreases(s, ms[0]);
      ProductiveKeepsSizes(s, ms[0]);
      hide Inv, Rank, Apply, Enabled, Productive;
      ProductiveRunsAreBounded(Apply(s, ms[0]), ms[1..], s');
    }
  }

  lemma {:induction false} RunGoesOn(s: System, ms: seq<Move>, s1: System, more: seq<Move>, s': System)
    requires Run(s, ms, s1) && ProductiveRun(s1, more, s')
    ensures Run(s, ms + more, s')
    decreases |ms| + |more|
  {
    hide Apply, Enabled;
    if ms != [] {
      assert (ms + more)[1..] == ms[1..] + more;
      RunGoesOn(Apply(s, ms[0]), ms[1..], s1, more, s');
    } else {
      assert ms + more == more;
      if more != [] {
        ProductiveIsEnabled(s, more[0]);
        assert Run(Apply(s, more[0]), [], Apply(s, more[0]));
        RunGoesOn(Apply(s, more[0]), [], Apply(s, more[0]), more[1..], s');
        assert [] + more[1..] == more[1..];
      }
    }
  }

  lemma ProductiveIsEnabled(s: System, m: Move)
    ensures Productive(s, m) ==> Enabled(s, m)
  {
  }

  /** Once no more actions are pushed and Resumers are only released, every schedule of productive moves is finite, and
      where it cannot be continued every action has been started exactly once since the beginning, with its pause and its
      Resumer if it asked for them, and every queue is empty and not paused. */
  lemma MaximalRunCompletes(n: nat, ms: seq<Move>, s: System, more: seq<Move>, s': System)
    requires n > 0 && Run(Init(n), ms, s) && ProductiveRun(s, more, s') && (forall m :: !Productive(s', m))
    ensures |more| <= Rank(s) && |s'.actions| == |s.actions|
    ensures forall a: nat :: a < |s'.actions| ==>
              && Times(Init(n), ms + more, a, Starts) == 1
              && Times(Init(n), ms + more, a, Pauses) == Times(Init(n), ms + more, a, Hands) == if s'.actions[a].pausing then 1 else 0
    ensures |s'.queues| == n && forall q :: 0 <= q < n ==> s'.queues[q].sh.tasks == [] && s'.queues[q].sh.pauseCount == 0
  {
    ReachableInv(n, s);
    ProductiveRunsAreBounded(s, more, s');
    if !AtRest(s') {
      var m := ProductiveMoveExists(s');
      assert false;
    }
    RunGoesOn(Init(n), ms, s, more, s');
    hide Inv, Quiescent, Productive, Rank, Run;
    InvAndAtRestMeanAllRan(s');
    forall a: nat | a < |s'.actions|
      ensures Times(Init(n), ms + more, a, Starts) == 1
      ensures Times(Init(n), ms + more, a, Pauses) == Times(Init(n), ms + more, a, Hands) == if s'.actions[a].pausing then 1 else 0
    {
      RestMeansAllStarted(n, ms + more, s', a);
    }
  }
}
