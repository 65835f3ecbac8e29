/**
  The user's actions over whole runs of chains: how often each one is called, in which order, in which group, and what it
  holds meanwhile.
 */
module ChainCalls {
  import opened Options
  import opened SerialTaskQueueChain
  import CO = ChainOrder
  import CP = ChainProgress
  import SQ = SerialTaskQueueProtocol

  // ----- The starts of actions in a run -----

  /** The move makes the action run. */
  ghost predicate Starts(cs: Chains, s: System, m: Move, a: nat)
    requires Enabled(cs, s, m)
  {
    var s' := Apply(cs, s, m);
    a < |s.actions| && a < |s'.actions| && !s.actions[a].phase.Acting? && s'.actions[a].phase.Acting?
  }

  /** The action that a move makes run, if it does that. */
  ghost function Started(cs: Chains, s: System, m: Move): seq<nat>
    requires Enabled(cs, s, m)
  {
    if exists a: nat :: Starts(cs, s, m, a) then
      var a: nat :| Starts(cs, s, m, a);
      [a]
    else []
  }

  /** The actions in the order in which a run starts them. */
  ghost function StartsIn(cs: Chains, s: System, ms: seq<Move>): seq<nat>
    decreases |ms|
  {
    if ms == [] || !Enabled(cs, s, ms[0]) then []
    else Started(cs, s, ms[0]) + StartsIn(cs, Apply(cs, s, ms[0]), ms[1..])
  }

  /** Only the body of the last task of an action starts it. */
  lemma MoveStarts(cs: Chains, s: System, m: Move)
    requires Enabled(cs, s, m)
    ensures Apply(cs, s, m).ran == s.ran + Started(cs, s, m)
  {
    var s' := Apply(cs, s, m);
    if m.Body? && s.actions[m.action].phase.At? && s.actions[m.action].phase.pos == Last(cs, s.actions[m.action]) {
      assert Starts(cs, s, m, m.action);
      assert forall a: nat :: Starts(cs, s, m, a) ==> a == m.action;
    } else {
      assert forall a: nat :: !Starts(cs, s, m, a);
      assert s'.ran == s.ran;
    }
  }

  lemma {:induction false} RunStarts(cs: Chains, s: System, ms: seq<Move>, s': System)
    requires Run(cs, s, ms, s')
    ensures s'.ran == s.ran + StartsIn(cs, s, ms)
    decreases |ms|
  {
    hide Apply, Enabled, Started;
    if ms != [] {
      MoveStarts(cs, s, ms[0]);
      var s1, a := Apply(cs, s, ms[0]), Started(cs, s, ms[0]);
      RunStarts(cs, s1, ms[1..], s');
      assert (s.ran + a) + StartsIn(cs, s1, ms[1..]) == s.ran + (a + StartsIn(cs, s1, ms[1..]));
    }
  }

  /** What the theorems about the order and number of actions say of the history, they say of the starts in the run. */
  lemma RanIsStarts(cs: Chains, n: nat, ms: seq<Move>, s: System)
    requires Run(cs, Init(cs, n), ms, s)
    ensures s.ran == StartsIn(cs, Init(cs, n), ms)
  {
    RunStarts(cs, Init(cs, n), ms, s);
  }

  /** The actions of a chain are started in the order of their push to its first queue, each at most once, and the ones
      that are running or over have been. */
  lemma StartedInPushOrder(cs: Chains, n: nat, ms: seq<Move>, s: System, c: nat)
    requires WellFormed(cs, n) && Run(cs, Init(cs, n), ms, s) && c < |cs|
    ensures Shape(cs, s) && |s.queues| == n
    ensures CO.Of(StartsIn(cs, Init(cs, n), ms), CO.ChainsOf(s.actions), c) <= CO.PushedTo(cs, s, c, 0)
    ensures forall a :: 0 <= a < |s.actions| ==>
              multiset(StartsIn(cs, Init(cs, n), ms))[a] == if CO.Begun(s.actions[a]) then 1 else 0
  {
    RanIsStarts(cs, n, ms, s);
    CO.ActionsRunInPushOrder(cs, n, s, c);
  }

  /** When a run has come to rest every action has been started in it exactly once. */
  lemma RestMeansStartedOnce(cs: Chains, n: nat, ms: seq<Move>, s: System, a: nat)
    requires WellFormed(cs, n) && Run(cs, Init(cs, n), ms, s) && Quiescent(s) && a < |s.actions|
    ensures multiset(StartsIn(cs, Init(cs, n), ms))[a] == 1 && s.actions[a].phase.Left?
  {
    RanIsStarts(cs, n, ms, s);
    CO.QuiescentRanEachOnce(cs, n, s);
    QuiescentMeansComplete(cs, n, s);
  }

  lemma {:induction false} RunGoesOn(cs: Chains, s: System, ms: seq<Move>, s1: System, more: seq<Move>, s': System)
    requires Run(cs, s, ms, s1) && CP.ProductiveRun(cs, s1, more, s')
    ensures Run(cs, s, ms + more, s')
    decreases |ms| + |more|
  {
    hide Apply, Enabled;
    if ms != [] {
      assert (ms + more)[1..] == ms[1..] + more;
      RunGoesOn(cs, Apply(cs, s, ms[0]), ms[1..], s1, more, s');
    } else {
      assert ms + more == more;
      if more != [] {
        assert Enabled(cs, s, more[0]);
        assert Run(cs, Apply(cs, s, more[0]), [], Apply(cs, s, more[0]));
        RunGoesOn(cs, Apply(cs, s, more[0]), [], Apply(cs, s, more[0]), more[1..], s');
        assert [] + more[1..] == more[1..];
      }
    }
  }

  /** Once no more actions are pushed, every schedule of productive moves is finite, and where it cannot be continued
      every action has been started exactly once since the beginning. */
  lemma MaximalRunStartsAll(cs: Chains, n: nat, ms: seq<Move>, s: System, more: seq<Move>, s': System, a: nat)
    requires WellFormed(cs, n) && Run(cs, Init(cs, n), ms, s) && a < |s.actions|
    requires CP.ProductiveRun(cs, s, more, s') && (forall m :: !CP.Productive(cs, s', m))
    ensures |more| <= CP.Rank(cs, s)
    ensures multiset(StartsIn(cs, Init(cs, n), ms + more))[a] == 1
  {
    ReachableInv(cs, n, s);
    CP.ProductiveRunsAreBounded(cs, s, more, s');
    RunGoesOn(cs, Init(cs, n), ms, s, more, s');
    if !Quiescent(s') {
      var m := CP.ProductiveMoveExists(cs, s');
      assert false;
    }
    RestMeansStartedOnce(cs, n, ms + more, s', a);
  }

  // ----- In which group, and holding what -----

  /** The calls of push in a run. */
  function CallsIn(ms: seq<Move>): seq<Move> {
    if ms == [] then [] else (if ms[0].Call? then [ms[0]] else []) + CallsIn(ms[1..])
  }

  /** The actions are those of the calls, in their order. */
  ghost predicate FromCalls(actions: seq<Action>, calls: seq<Move>) {
    |actions| == |calls| && forall a :: 0 <= a < |calls| ==> calls[a] == Call(actions[a].chain, actions[a].group)
  }

  lemma MoveKeepsFromCalls(cs: Chains, s: System, m: Move, before: seq<Move>)
    requires Enabled(cs, s, m) && FromCalls(s.actions, before)
    ensures FromCalls(Apply(cs, s, m).actions, before + if m.Call? then [m] else [])
  {
  }

  lemma {:induction false} RunKeepsFromCalls(cs: Chains, s: System, ms: seq<Move>, s': System, before: seq<Move>)
    requires FromCalls(s.actions, before) && Run(cs, s, ms, s')
    ensures FromCalls(s'.actions, before + CallsIn(ms))
    decreases |ms|
  {
    hide Apply, Enabled, FromCalls;
    if ms != [] {
      var calls := before + if ms[0].Call? then [ms[0]] else [];
      MoveKeepsFromCalls(cs, s, ms[0], before);
      RunKeepsFromCalls(cs, Apply(cs, s, ms[0]), ms[1..], s', calls);
      assert calls + CallsIn(ms[1..]) == before + CallsIn(ms);
    } else {
      assert before + CallsIn(ms) == before;
    }
  }

  /** The actions of a run are those of its calls, in order, for the chains and with the groups of the calls; and every
      task of every queue that is running runs in the group of the action it carries. */
  lemma RunsInItsGroup(cs: Chains, n: nat, ms: seq<Move>, s: System, q: nat, i: nat)
    requires WellFormed(cs, n) && Run(cs, Init(cs, n), ms, s)
    ensures FromCalls(s.actions, CallsIn(ms))
    ensures q < |s.queues| && i < |s.queues[q].acts| && s.queues[q].acts[i].Running? ==>
              var x := s.queues[q].acts[i]; x.task.id < |s.actions| && x.group == s.actions[x.task.id].group
  {
    RunKeepsFromCalls(cs, Init(cs, n), ms, s, []);
    assert [] + CallsIn(ms) == CallsIn(ms);
    ReachableInv(cs, n, s);
    if q < |s.queues| && i < |s.queues[q].acts| && s.queues[q].acts[i].Running? {
      CP.ChosenWasPushed(s.queues[q], i);
      assert s.queues[q].acts[i].task.group == s.queues[q].acts[i].group;
      var k :| 0 <= k < |s.queues[q].pushed| && s.queues[q].pushed[k] == s.queues[q].acts[i].task;
    }
  }

  function LastOf(queues: seq<nat>): nat
    requires queues != []
  {
    queues[|queues| - 1]
  }

  predicate RunsFor(q: SQ.Queue, i: nat, a: nat, group: nat) {
    i < |q.acts| && q.acts[i].Running? && q.acts[i].task.id == a && q.acts[i].group == group
  }

  /** While an action runs it does so in its own group in the last queue of its chain, and it keeps every other queue of
      the chain paused. */
  lemma ActingHoldsTheChain(cs: Chains, n: nat, ms: seq<Move>, s: System, a: nat)
    requires WellFormed(cs, n) && Run(cs, Init(cs, n), ms, s) && a < |s.actions| && s.actions[a].phase.Acting?
    ensures s.actions[a].chain < |cs| && |s.queues| == n
    ensures var queues := cs[s.actions[a].chain];
            && queues != [] && (forall k :: 0 <= k < |queues| ==> queues[k] < n)
            && (exists i: nat :: RunsFor(s.queues[LastOf(queues)], i, a, s.actions[a].group))
            && (forall k :: 0 <= k < |queues| - 1 ==> s.queues[queues[k]].sh.pauseCount > 0)
  {
    ReachableInv(cs, n, s);
    var act, queues := s.actions[a], cs[s.actions[a].chain];
    assert LocatedAt(cs, s, a);
    var last := LastOf(queues);
    var i :| 0 <= i < |s.queues[last].acts| && s.queues[last].acts[i].Running? && s.queues[last].acts[i].task.id == a;
    RunsInItsGroup(cs, n, ms, s, last, i);
    assert RunsFor(s.queues[last], i, a, act.group);
    hide SQ.Inv, QueuesInv;
    forall k | 0 <= k < |queues| - 1 ensures s.queues[queues[k]].sh.pauseCount > 0 {
      assert queues[..|queues| - 1][k] == queues[k];
      assert Amount(cs, act, PausesOf(queues[k])) == 1;
      TotalUpdate(cs, s.actions, a, act, PausesOf(queues[k]));
    }
  }
}
