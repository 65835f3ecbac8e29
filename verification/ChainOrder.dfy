/**
  Order along a chain: each queue of a chain sees the chain's actions in the order in which the previous queue let
  them through, so they run in push order, one at a time, each exactly once.
 */
module ChainOrder {
  import opened Options
  import opened SerialTaskQueueChain
  import SQ = SerialTaskQueueProtocol

  /** The user's action has been started. */
  predicate Begun(a: Action) {
    a.phase.Acting? || a.phase.Resuming? || a.phase.Left?
  }

  /** The action's task has been pushed to position k. */
  predicate Reached(cs: Chains, a: Action, k: nat)
    requires Valid(cs, a)
  {
    a.phase.Left? || (Carried(a) && Position(cs, a) >= k)
  }

  /** The task at position k has passed the action on: to the next queue, or to the user's code at the last. */
  predicate Beyond(cs: Chains, a: Action, k: nat)
    requires Valid(cs, a)
  {
    if k == Last(cs, a) then Begun(a) else Reached(cs, a, k + 1)
  }

  function Ids(ts: seq<SQ.Task>): (r: seq<nat>) {
    seq(|ts|, i requires 0 <= i < |ts| => ts[i].id)
  }

  function ChainsOf(actions: seq<Action>): (r: seq<nat>) {
    seq(|actions|, i requires 0 <= i < |actions| => actions[i].chain)
  }

  /** The actions of chain c among the given ones, in the same order. */
  function Of(ids: seq<nat>, chains: seq<nat>, c: nat): seq<nat> {
    if ids == [] then []
    else
      var x := ids[|ids| - 1];
      Of(ids[..|ids| - 1], chains, c) + (if x < |chains| && chains[x] == c then [x] else [])
  }

  lemma OfAppend(ids: seq<nat>, x: nat, chains: seq<nat>, c: nat)
    ensures Of(ids + [x], chains, c) == Of(ids, chains, c) + (if x < |chains| && chains[x] == c then [x] else [])
  {
    assert (ids + [x])[..|ids|] == ids;
  }

  lemma {:induction false} OfPrefix(ids: seq<nat>, more: seq<nat>, chains: seq<nat>, c: nat)
    requires ids <= more
    ensures Of(ids, chains, c) <= Of(more, chains, c)
    decreases |more|
  {
    if |ids| < |more| {
      OfPrefix(ids, more[..|more| - 1], chains, c);
    } else {
      assert ids == more;
    }
  }

  lemma {:induction false} OfStable(ids: seq<nat>, chains: seq<nat>, c: nat, d: nat)
    requires forall i :: 0 <= i < |ids| ==> ids[i] < |chains|
    ensures Of(ids, chains + [d], c) == Of(ids, chains, c)
  {
    if ids != [] {
      OfStable(ids[..|ids| - 1], chains, c, d);
    }
  }

  /** The actions of chain c that position k has passed on, in order. */
  function PassedOn(cs: Chains, s: System, c: nat, k: nat): seq<nat>
    requires Shape(cs, s) && c < |cs| && k < |cs[c]|
  {
    var q := s.queues[cs[c][k]];
    Of(Ids(q.finished), ChainsOf(s.actions), c)
    + if q.current.Some? && PassesOn(cs, s.actions, q.current.value.id, c, k) then [q.current.value.id] else []
  }

  predicate PassesOn(cs: Chains, actions: seq<Action>, a: nat, c: nat, k: nat) {
    a < |actions| && actions[a].chain == c && Valid(cs, actions[a]) && Beyond(cs, actions[a], k)
  }

  /** The actions of chain c that were handed to whatever follows position k, in order. */
  function HandedOn(cs: Chains, s: System, c: nat, k: nat): seq<nat>
    requires Shape(cs, s) && c < |cs| && k < |cs[c]|
  {
    if k == |cs[c]| - 1 then Of(s.ran, ChainsOf(s.actions), c)
    else Of(Ids(s.queues[cs[c][k + 1]].pushed), ChainsOf(s.actions), c)
  }

  /** Every task ever pushed to a queue belongs to an action whose chain got at least that far. */
  ghost predicate OnRoute(cs: Chains, s: System)
    requires Shape(cs, s)
  {
    forall q, i :: 0 <= q < |s.queues| && 0 <= i < |s.queues[q].pushed| ==>
      Visited(cs, s.actions[s.queues[q].pushed[i].id], q)
  }

  ghost predicate Visited(cs: Chains, a: Action, q: nat)
    requires Valid(cs, a)
  {
    exists k :: 0 <= k < |cs[a.chain]| && cs[a.chain][k] == q && Reached(cs, a, k)
  }

  ghost predicate PushedOnce(s: System) {
    forall q, i, j :: 0 <= q < |s.queues| && 0 <= i < j < |s.queues[q].pushed| ==>
      s.queues[q].pushed[i].id != s.queues[q].pushed[j].id
  }

  /** A task in a FIFO has not begun. */
  ghost predicate QueuedAreWaiting(cs: Chains, s: System)
    requires Shape(cs, s)
  {
    forall q, i :: 0 <= q < |s.queues| && 0 <= i < |s.queues[q].sh.tasks| ==>
      && s.queues[q].sh.tasks[i].id < |s.actions|
      && s.actions[s.queues[q].sh.tasks[i].id].phase.At?
      && Home(cs, s.actions[s.queues[q].sh.tasks[i].id]) == q
  }

  ghost predicate InOrder(cs: Chains, s: System)
    requires Shape(cs, s)
  {
    forall c, k :: 0 <= c < |cs| && 0 <= k < |cs[c]| ==> HandedOn(cs, s, c, k) == PassedOn(cs, s, c, k)
  }

  ghost predicate RanOnce(s: System) {
    && (forall i :: 0 <= i < |s.ran| ==> s.ran[i] < |s.actions|)
    && (forall a :: 0 <= a < |s.actions| ==> multiset(s.ran)[a] == if Begun(s.actions[a]) then 1 else 0)
  }

  ghost predicate OrderInv(cs: Chains, s: System)
    requires Shape(cs, s)
  {
    OnRoute(cs, s) && PushedOnce(s) && QueuedAreWaiting(cs, s) && InOrder(cs, s) && RanOnce(s)
  }

  // ----- A new call -----

  lemma FinishedValid(cs: Chains, s: System, q: nat)
    requires Shape(cs, s) && q < |s.queues| && SQ.Inv(s.queues[q])
    ensures var x := s.queues[q];
            && (forall i :: 0 <= i < |x.finished| ==> x.finished[i].id < |s.actions|)
            && (x.current.Some? ==> |x.finished| < |x.pushed| && x.current.value == x.pushed[|x.finished|])
            && (x.current.Some? ==> x.current.value.id < |s.actions|)
  {
    var x := s.queues[q];
    assert x.pushed == x.finished + SQ.AsSeq(x.current) + x.sh.tasks;
    forall i | 0 <= i < |x.finished| ensures x.finished[i].id < |s.actions| {
      assert x.finished[i] == x.pushed[i];
    }
    if x.current.Some? {
      assert x.pushed[|x.finished|] == x.current.value;
    }
  }

  lemma CallKeepsOrderAt(cs: Chains, s: System, e: nat, g: nat, c: nat, k: nat)
    requires Shape(cs, s) && QueuesInv(s) && RanOnce(s) && Enabled(cs, s, Call(e, g))
    requires Shape(cs, Apply(cs, s, Call(e, g)))
    requires c < |cs| && k < |cs[c]| && HandedOn(cs, s, c, k) == PassedOn(cs, s, c, k)
    ensures HandedOn(cs, Apply(cs, s, Call(e, g)), c, k) == PassedOn(cs, Apply(cs, s, Call(e, g)), c, k)
  {
    var s' := Apply(cs, s, Call(e, g));
    var q := s.queues[cs[c][k]];
    assert ChainsOf(s'.actions) == ChainsOf(s.actions) + [e];
    FinishedValid(cs, s, cs[c][k]);
    OfStable(Ids(q.finished), ChainsOf(s.actions), c, e);
    if k < |cs[c]| - 1 {
      OfStable(Ids(s.queues[cs[c][k + 1]].pushed), ChainsOf(s.actions), c, e);
    } else {
      OfStable(s.ran, ChainsOf(s.actions), c, e);
    }
  }

  lemma CallKeepsOrder(cs: Chains, s: System, e: nat, g: nat)
    requires Shape(cs, s) && QueuesInv(s) && OrderInv(cs, s) && Enabled(cs, s, Call(e, g))
    requires Shape(cs, Apply(cs, s, Call(e, g)))
    ensures OrderInv(cs, Apply(cs, s, Call(e, g)))
  {
    var s' := Apply(cs, s, Call(e, g));
    assert OnRoute(cs, s') && PushedOnce(s') && QueuedAreWaiting(cs, s');
    forall c, k | 0 <= c < |cs| && 0 <= k < |cs[c]| ensures HandedOn(cs, s', c, k) == PassedOn(cs, s', c, k) {
      CallKeepsOrderAt(cs, s, e, g, c, k);
    }
    assert |s.actions| !in s.ran;
  }

  // ----- An access of a queue -----

  lemma InQueueKeepsWaiting(cs: Chains, s: System, q: nat, i: nat)
    requires Shape(cs, s) && QueuedAreWaiting(cs, s) && Enabled(cs, s, InQueue(q, i))
    requires Shape(cs, Apply(cs, s, InQueue(q, i)))
    ensures QueuedAreWaiting(cs, Apply(cs, s, InQueue(q, i)))
  {
    var s' := Apply(cs, s, InQueue(q, i));
    TasksOnlyLeave(s.queues[q], i);
    forall r, j | 0 <= r < |s'.queues| && 0 <= j < |s'.queues[r].sh.tasks|
      ensures s'.queues[r].sh.tasks[j] in s.queues[r].sh.tasks
    {
      assert s'.queues[r].sh.tasks[j] in s'.queues[r].sh.tasks;
    }
  }

  lemma InQueueKeepsInOrder(cs: Chains, s: System, q: nat, i: nat)
    requires Shape(cs, s) && QueuesInv(s) && OnRoute(cs, s) && QueuedAreWaiting(cs, s) && InOrder(cs, s)
    requires Enabled(cs, s, InQueue(q, i)) && Shape(cs, Apply(cs, s, InQueue(q, i)))
    ensures InOrder(cs, Apply(cs, s, InQueue(q, i)))
  {
    var s' := Apply(cs, s, InQueue(q, i));
    AdvanceEffect(s.queues[q], i);
    forall c, k | 0 <= c < |cs| && 0 <= k < |cs[c]| ensures HandedOn(cs, s', c, k) == PassedOn(cs, s', c, k) {
      assert HandedOn(cs, s, c, k) == PassedOn(cs, s, c, k);
      if cs[c][k] == q {
        PassedOnUnchanged(cs, s, q, i, c, k);
      }
    }
  }

  lemma InQueueKeepsOrder(cs: Chains, s: System, q: nat, i: nat)
    requires Shape(cs, s) && QueuesInv(s) && OrderInv(cs, s) && Enabled(cs, s, InQueue(q, i))
    requires Shape(cs, Apply(cs, s, InQueue(q, i)))
    ensures OrderInv(cs, Apply(cs, s, InQueue(q, i)))
  {
    AdvanceEffect(s.queues[q], i);
    InQueueKeepsWaiting(cs, s, q, i);
    InQueueKeepsInOrder(cs, s, q, i);
    hide QueuesInv, QueuedAreWaiting, InOrder;
  }

  lemma TasksOnlyLeave(x: SQ.Queue, i: nat)
    requires SQ.Enabled(x, SQ.Advance(i))
    ensures forall t :: t in SQ.Step(x, i).sh.tasks ==> t in x.sh.tasks
    ensures x.acts[i].Pop? && x.sh.tasks != [] ==> SQ.Step(x, i).current == Some(x.sh.tasks[0])
    ensures !x.acts[i].Running? && !(x.acts[i].Pop? && x.sh.tasks != []) ==> SQ.Step(x, i).current == x.current
  {
  }

  /** Finishing a task moves it from chosen to finished; choosing one adds nothing, as it has not begun. */
  lemma PassedOnUnchanged(cs: Chains, s: System, q: nat, i: nat, c: nat, k: nat)
    requires Shape(cs, s) && QueuesInv(s) && OnRoute(cs, s) && QueuedAreWaiting(cs, s)
    requires Enabled(cs, s, InQueue(q, i)) && Shape(cs, Apply(cs, s, InQueue(q, i)))
    requires c < |cs| && k < |cs[c]| && cs[c][k] == q
    ensures PassedOn(cs, Apply(cs, s, InQueue(q, i)), c, k) == PassedOn(cs, s, c, k)
  {
    var x := s.queues[q];
    AdvanceEffect(x, i);
    TasksOnlyLeave(x, i);
    if x.acts[i].Running? {
      FinishPassesOn(cs, s, q, i, c, k);
    } else if x.acts[i].Pop? && x.sh.tasks != [] {
      assert x.current.None? by {
        assert |Unfinished(SQ.Step(x, i))| == |Unfinished(x)|;
      }
      WaitingPassesNothing(cs, s, q, c, k);
    }
  }

  lemma WaitingPassesNothing(cs: Chains, s: System, q: nat, c: nat, k: nat)
    requires Shape(cs, s) && QueuedAreWaiting(cs, s) && q < |s.queues| && s.queues[q].sh.tasks != []
    requires c < |cs| && k < |cs[c]| && cs[c][k] == q
    ensures !PassesOn(cs, s.actions, s.queues[q].sh.tasks[0].id, c, k)
  {
    var a := s.queues[q].sh.tasks[0].id;
    if s.actions[a].chain == c {
      SamePosition(cs, s, c, k, Position(cs, s.actions[a]));
    }
  }

  lemma FinishPassesOn(cs: Chains, s: System, q: nat, i: nat, c: nat, k: nat)
    requires Shape(cs, s) && QueuesInv(s) && OnRoute(cs, s)
    requires Enabled(cs, s, InQueue(q, i)) && Shape(cs, Apply(cs, s, InQueue(q, i)))
    requires s.queues[q].acts[i].Running?
    requires c < |cs| && k < |cs[c]| && cs[c][k] == q
    ensures PassedOn(cs, Apply(cs, s, InQueue(q, i)), c, k) == PassedOn(cs, s, c, k)
  {
    var x := s.queues[q];
    var x' := SQ.Step(x, i);
    var t := x.acts[i].task;
    AdvanceEffect(x, i);
    FinishedValid(cs, s, q);
    assert Ids(x'.finished) == Ids(x.finished) + [t.id];
    OfAppend(Ids(x.finished), t.id, ChainsOf(s.actions), c);
    assert Visited(cs, s.actions[x.pushed[|x.finished|].id], q);
    if s.actions[t.id].chain == c {
      EndedIsBeyond(cs, s, s.actions[t.id], c, k, q);
    }
  }

  lemma SamePosition(cs: Chains, s: System, c: nat, j: nat, k: nat)
    requires Shape(cs, s) && c < |cs| && j < |cs[c]| && k < |cs[c]| && cs[c][j] == cs[c][k]
    ensures j == k
  {
  }

  lemma EndedIsBeyond(cs: Chains, s: System, a: Action, c: nat, k: nat, q: nat)
    requires Shape(cs, s) && Valid(cs, a) && a.chain == c && c < |cs| && k < |cs[c]| && cs[c][k] == q
    requires Ended(cs, a, q) && Visited(cs, a, q)
    ensures Beyond(cs, a, k)
  {
    var j :| 0 <= j < |cs[c]| && cs[c][j] == q && Reached(cs, a, j);
    SamePosition(cs, s, c, j, k);
  }

  // ----- A step of an action -----

  /** s' differs from s by the phase of action a, and in its queues by pause counts and activities only. */
  ghost predicate OnlyPhase(s: System, a: nat, p: Phase, s': System) {
    && a < |s.actions| && s'.actions == s.actions[a := s.actions[a].(phase := p)]
    && |s'.queues| == |s.queues|
    && (forall q :: 0 <= q < |s.queues| ==>
          && s'.queues[q].pushed == s.queues[q].pushed
          && s'.queues[q].finished == s.queues[q].finished
          && s'.queues[q].current == s.queues[q].current
          && s'.queues[q].sh.tasks == s.queues[q].sh.tasks)
  }

  /** The chosen task of a queue is not also in its FIFO. */
  lemma ChosenIsNotQueued(cs: Chains, s: System, q: nat)
    requires Shape(cs, s) && PushedOnce(s) && q < |s.queues| && SQ.Inv(s.queues[q]) && s.queues[q].current.Some?
    ensures forall i :: 0 <= i < |s.queues[q].sh.tasks| ==>
              s.queues[q].sh.tasks[i].id != s.queues[q].current.value.id
  {
    var x := s.queues[q];
    var n := |x.finished|;
    FinishedValid(cs, s, q);
    assert x.pushed == x.finished + [x.current.value] + x.sh.tasks;
    forall i | 0 <= i < |x.sh.tasks| ensures x.sh.tasks[i].id != x.current.value.id {
      assert x.pushed[n + 1 + i] == x.sh.tasks[i];
    }
  }

  lemma RunningIsChosen(x: SQ.Queue, a: nat)
    requires SQ.Inv(x) && RunningIn(x, a)
    ensures x.current.Some? && x.current.value.id == a
  {
    var i :| 0 <= i < |x.acts| && x.acts[i].Running? && x.acts[i].task.id == a;
    assert SQ.HasTask(x.acts[i]);
  }

  /** An action whose task is running is in no FIFO. */
  lemma RunningIsNotQueued(cs: Chains, s: System, a: nat)
    requires Shape(cs, s) && QueuesInv(s) && PushedOnce(s) && QueuedAreWaiting(cs, s)
    requires a < |s.actions| && Carried(s.actions[a]) && RunningIn(s.queues[Home(cs, s.actions[a])], a)
    ensures forall q, i :: 0 <= q < |s.queues| && 0 <= i < |s.queues[q].sh.tasks| ==> s.queues[q].sh.tasks[i].id != a
  {
    var h := Home(cs, s.actions[a]);
    RunningIsChosen(s.queues[h], a);
    ChosenIsNotQueued(cs, s, h);
  }

  lemma PhaseKeepsRoute(cs: Chains, s: System, a: nat, p: Phase, s': System)
    requires Shape(cs, s) && Shape(cs, s') && OnlyPhase(s, a, p, s') && OnRoute(cs, s)
    requires forall k :: 0 <= k < |cs[s.actions[a].chain]| && Reached(cs, s.actions[a], k) ==> Reached(cs, s'.actions[a], k)
    ensures OnRoute(cs, s')
  {
    forall q, i | 0 <= q < |s'.queues| && 0 <= i < |s'.queues[q].pushed|
      ensures Visited(cs, s'.actions[s'.queues[q].pushed[i].id], q)
    {
      assert Visited(cs, s.actions[s.queues[q].pushed[i].id], q);
    }
  }

  lemma PhaseKeepsOrder(cs: Chains, s: System, a: nat, p: Phase, s': System)
    requires Shape(cs, s) && QueuesInv(s) && OrderInv(cs, s) && Shape(cs, s') && OnlyPhase(s, a, p, s')
    requires Carried(s.actions[a]) && RunningIn(s.queues[Home(cs, s.actions[a])], a) && !p.At?
    requires forall k :: 0 <= k < |cs[s.actions[a].chain]| && Reached(cs, s.actions[a], k) ==> Reached(cs, s'.actions[a], k)
    requires forall k :: 0 <= k < |cs[s.actions[a].chain]| ==> (Beyond(cs, s.actions[a], k) <==> Beyond(cs, s'.actions[a], k))
    requires s'.ran == s.ran
    ensures OrderInv(cs, s')
  {
    hide QueuesInv;
    PhaseKeepsRoute(cs, s, a, p, s');
    RunningIsNotQueued(cs, s, a);
    assert PushedOnce(s') && QueuedAreWaiting(cs, s');
    assert ChainsOf(s'.actions) == ChainsOf(s.actions);
    forall c, k | 0 <= c < |cs| && 0 <= k < |cs[c]| ensures HandedOn(cs, s', c, k) == PassedOn(cs, s', c, k) {
      assert HandedOn(cs, s, c, k) == PassedOn(cs, s, c, k);
    }
    assert Begun(s.actions[a]) <==> Begun(s'.actions[a]) by {
      assert Beyond(cs, s.actions[a], Last(cs, s.actions[a])) <==> Beyond(cs, s'.actions[a], Last(cs, s.actions[a]));
    }
  }

  lemma ActPassesOn(cs: Chains, s: System, a: nat, s': System, c: nat, k: nat)
    requires Shape(cs, s) && QueuesInv(s) && Shape(cs, s') && OnlyPhase(s, a, Acting, s')
    requires s.actions[a].phase == At(Last(cs, s.actions[a])) && RunningIn(s.queues[Home(cs, s.actions[a])], a)
    requires c < |cs| && k < |cs[c]|
    ensures PassedOn(cs, s', c, k) ==
            PassedOn(cs, s, c, k) + if c == s.actions[a].chain && k == |cs[c]| - 1 then [a] else []
  {
    var x := s.queues[cs[c][k]];
    assert ChainsOf(s'.actions) == ChainsOf(s.actions);
    RunningIsChosen(s.queues[Home(cs, s.actions[a])], a);
    if x.current.Some? {
      var b := x.current.value.id;
      if b != a || c != s.actions[a].chain {
        assert PassesOn(cs, s'.actions, b, c, k) == PassesOn(cs, s.actions, b, c, k);
      } else {
        assert PassesOn(cs, s'.actions, b, c, k);
        assert PassesOn(cs, s.actions, b, c, k) == (k < |cs[c]| - 1);
      }
    }
  }

  lemma ActKeepsShape(cs: Chains, s: System, a: nat)
    requires Shape(cs, s) && Enabled(cs, s, Body(a))
    requires s.actions[a].phase == At(Last(cs, s.actions[a]))
    ensures Shape(cs, BodyStep(cs, s, a)) && OnlyPhase(s, a, Acting, BodyStep(cs, s, a))
  {
  }

  /** Starting the user's action appends it to the history just when its task in the last queue passes it on. */
  lemma ActKeepsOrder(cs: Chains, s: System, a: nat)
    requires Shape(cs, s) && QueuesInv(s) && OrderInv(cs, s) && Enabled(cs, s, Body(a))
    requires s.actions[a].phase == At(Last(cs, s.actions[a]))
    requires Shape(cs, BodyStep(cs, s, a))
    ensures OrderInv(cs, BodyStep(cs, s, a))
  {
    var s' := BodyStep(cs, s, a);
    ActKeepsShape(cs, s, a);
    PhaseKeepsRoute(cs, s, a, Acting, s');
    RunningIsNotQueued(cs, s, a);
    assert QueuedAreWaiting(cs, s');
    assert ChainsOf(s'.actions) == ChainsOf(s.actions);
    forall c, k | 0 <= c < |cs| && 0 <= k < |cs[c]| ensures HandedOn(cs, s', c, k) == PassedOn(cs, s', c, k) {
      assert HandedOn(cs, s, c, k) == PassedOn(cs, s, c, k);
      OfAppend(s.ran, a, ChainsOf(s.actions), c);
      ActPassesOn(cs, s, a, s', c, k);
    }
  }

  /** Handing an action to the next queue of its chain. */
  lemma PushKeepsOrder(cs: Chains, s: System, a: nat, k: nat, s': System)
    requires Shape(cs, s) && QueuesInv(s) && OrderInv(cs, s)
    requires a < |s.actions| && s.actions[a].phase == (if k == 0 then Entering else Holding(k - 1))
    requires k < |cs[s.actions[a].chain]|
    requires k > 0 ==> RunningIn(s.queues[Home(cs, s.actions[a])], a)
    requires s' == ToPhase(OnQueue(s, cs[s.actions[a].chain][k], SQ.Push(TaskOf(s.actions, a))), a, At(k))
    ensures Shape(cs, s') && OrderInv(cs, s')
  {
    hide QueuesInv;
    var q := cs[s.actions[a].chain][k];
    assert Shape(cs, s');
    PushKeepsRoute(cs, s, a, k, s');
    assert QueuedAreWaiting(cs, s');
    assert RanOnce(s');
    forall c, j | 0 <= c < |cs| && 0 <= j < |cs[c]| ensures HandedOn(cs, s', c, j) == PassedOn(cs, s', c, j) {
      assert HandedOn(cs, s, c, j) == PassedOn(cs, s, c, j);
      PushHandsOn(cs, s, a, k, s', c, j);
      PushPassesOn(cs, s, a, k, s', c, j);
    }
  }

  lemma PushKeepsPushedOnce(cs: Chains, s: System, a: nat, k: nat, s': System)
    requires Shape(cs, s) && OnRoute(cs, s) && PushedOnce(s)
    requires a < |s.actions| && s.actions[a].phase == (if k == 0 then Entering else Holding(k - 1))
    requires k < |cs[s.actions[a].chain]|
    requires s' == ToPhase(OnQueue(s, cs[s.actions[a].chain][k], SQ.Push(TaskOf(s.actions, a))), a, At(k))
    ensures PushedOnce(s')
  {
    var q := cs[s.actions[a].chain][k];
    forall i | 0 <= i < |s.queues[q].pushed| ensures s.queues[q].pushed[i].id != a {
      assert Visited(cs, s.actions[s.queues[q].pushed[i].id], q);
    }
  }

  lemma PushKeepsRoute(cs: Chains, s: System, a: nat, k: nat, s': System)
    requires Shape(cs, s) && OnRoute(cs, s) && PushedOnce(s)
    requires a < |s.actions| && s.actions[a].phase == (if k == 0 then Entering else Holding(k - 1))
    requires k < |cs[s.actions[a].chain]|
    requires s' == ToPhase(OnQueue(s, cs[s.actions[a].chain][k], SQ.Push(TaskOf(s.actions, a))), a, At(k))
    requires Shape(cs, s')
    ensures OnRoute(cs, s') && PushedOnce(s')
  {
    PushKeepsPushedOnce(cs, s, a, k, s');
    hide PushedOnce;
    forall r, i | 0 <= r < |s'.queues| && 0 <= i < |s'.queues[r].pushed|
      ensures Visited(cs, s'.actions[s'.queues[r].pushed[i].id], r)
    {
      if i < |s.queues[r].pushed| {
        var b := s.actions[s.queues[r].pushed[i].id];
        assert Visited(cs, b, r);
        var j :| 0 <= j < |cs[b.chain]| && cs[b.chain][j] == r && Reached(cs, b, j);
        assert Reached(cs, s'.actions[s'.queues[r].pushed[i].id], j);
      } else {
        assert Reached(cs, s'.actions[a], k);
      }
    }
  }

  lemma PushHandsOn(cs: Chains, s: System, a: nat, k: nat, s': System, c: nat, j: nat)
    requires Shape(cs, s) && Shape(cs, s') && a < |s.actions|
    requires k < |cs[s.actions[a].chain]|
    requires s' == ToPhase(OnQueue(s, cs[s.actions[a].chain][k], SQ.Push(TaskOf(s.actions, a))), a, At(k))
    requires c < |cs| && j < |cs[c]|
    ensures HandedOn(cs, s', c, j) ==
            HandedOn(cs, s, c, j) + if c == s.actions[a].chain && j + 1 == k then [a] else []
  {
    var act := s.actions[a];
    var q := cs[act.chain][k];
    assert ChainsOf(s'.actions) == ChainsOf(s.actions);
    if j + 1 < |cs[c]| && cs[c][j + 1] == q {
      assert Ids(s'.queues[q].pushed) == Ids(s.queues[q].pushed) + [a];
      OfAppend(Ids(s.queues[q].pushed), a, ChainsOf(s.actions), c);
      if c == act.chain {
        SamePosition(cs, s, c, j + 1, k);
      }
    }
  }

  lemma PushPassesOn(cs: Chains, s: System, a: nat, k: nat, s': System, c: nat, j: nat)
    requires Shape(cs, s) && Shape(cs, s') && QueuesInv(s) && a < |s.actions|
    requires s.actions[a].phase == (if k == 0 then Entering else Holding(k - 1))
    requires k < |cs[s.actions[a].chain]|
    requires k > 0 ==> RunningIn(s.queues[Home(cs, s.actions[a])], a)
    requires s' == ToPhase(OnQueue(s, cs[s.actions[a].chain][k], SQ.Push(TaskOf(s.actions, a))), a, At(k))
    requires c < |cs| && j < |cs[c]|
    ensures PassedOn(cs, s', c, j) ==
            PassedOn(cs, s, c, j) + if c == s.actions[a].chain && j + 1 == k then [a] else []
  {
    hide SQ.Inv;
    var x, x' := s.queues[cs[c][j]], s'.queues[cs[c][j]];
    assert ChainsOf(s'.actions) == ChainsOf(s.actions);
    assert x'.finished == x.finished && x'.current == x.current;
    if k > 0 {
      RunningIsChosen(s.queues[cs[s.actions[a].chain][k - 1]], a);
    }
    if x.current.Some? {
      var b := x.current.value.id;
      if b != a || c != s.actions[a].chain {
        assert PassesOn(cs, s'.actions, b, c, j) == PassesOn(cs, s.actions, b, c, j);
      } else {
        assert PassesOn(cs, s'.actions, b, c, j) == (j + 1 <= k);
        assert PassesOn(cs, s.actions, b, c, j) == (j + 1 < k);
      }
    }
  }

  lemma ResumeKeepsOrder(cs: Chains, s: System, a: nat)
    requires Shape(cs, s) && QueuesInv(s) && OrderInv(cs, s) && Enabled(cs, s, Body(a))
    requires s.actions[a].phase.Acting? || s.actions[a].phase.Resuming?
    requires Shape(cs, BodyStep(cs, s, a))
    ensures OrderInv(cs, BodyStep(cs, s, a))
  {
    hide QueuesInv;
    var s' := BodyStep(cs, s, a);
    var p := s'.actions[a].phase;
    assert OnlyPhase(s, a, p, s');
    PhaseKeepsOrder(cs, s, a, p, s');
  }

  lemma HoldKeepsOrder(cs: Chains, s: System, a: nat)
    requires Shape(cs, s) && QueuesInv(s) && OrderInv(cs, s) && Enabled(cs, s, Body(a))
    requires s.actions[a].phase.At? && s.actions[a].phase.pos < Last(cs, s.actions[a])
    requires Shape(cs, BodyStep(cs, s, a))
    ensures OrderInv(cs, BodyStep(cs, s, a))
  {
    var s' := BodyStep(cs, s, a);
    var p := Holding(s.actions[a].phase.pos);
    assert OnlyPhase(s, a, p, s');
    PhaseKeepsOrder(cs, s, a, p, s');
  }

  lemma BodyKeepsOrder(cs: Chains, s: System, a: nat)
    requires Shape(cs, s) && QueuesInv(s) && OrderInv(cs, s) && Enabled(cs, s, Body(a))
    requires Shape(cs, BodyStep(cs, s, a))
    ensures OrderInv(cs, BodyStep(cs, s, a))
  {
    hide QueuesInv;
    var act := s.actions[a];
    match act.phase
    case At(k) =>
      if k == Last(cs, act) {
        ActKeepsOrder(cs, s, a);
      } else {
        HoldKeepsOrder(cs, s, a);
      }
    case Holding(k) => PushKeepsOrder(cs, s, a, k + 1, BodyStep(cs, s, a));
    case _ => ResumeKeepsOrder(cs, s, a);
  }

  lemma MoveKeepsOrder(cs: Chains, s: System, m: Move)
    requires Inv(cs, s) && OrderInv(cs, s) && Enabled(cs, s, m)
    ensures Inv(cs, Apply(cs, s, m)) && OrderInv(cs, Apply(cs, s, m))
    ensures |Apply(cs, s, m).queues| == |s.queues|
  {
    MoveKeepsInv(cs, s, m);
    match m
    case Call(c, g) => CallKeepsOrder(cs, s, c, g);
    case Enter(a) => PushKeepsOrder(cs, s, a, 0, Apply(cs, s, m));
    case Body(a) => BodyKeepsOrder(cs, s, a);
    case InQueue(q, i) => InQueueKeepsOrder(cs, s, q, i);
  }

  // ----- Whole runs -----

  lemma InitOrder(cs: Chains, n: nat)
    requires WellFormed(cs, n)
    ensures Inv(cs, Init(cs, n)) && OrderInv(cs, Init(cs, n))
  {
    InitInv(cs, n);
  }

  lemma {:induction false} RunKeepsOrder(cs: Chains, s: System, ms: seq<Move>, s': System)
    requires Inv(cs, s) && OrderInv(cs, s) && Run(cs, s, ms, s')
    ensures Inv(cs, s') && OrderInv(cs, s') && |s'.queues| == |s.queues|
    decreases |ms|
  {
    hide Inv, OrderInv, Apply, Enabled;
    if ms != [] {
      MoveKeepsOrder(cs, s, ms[0]);
      RunKeepsOrder(cs, Apply(cs, s, ms[0]), ms[1..], s');
    }
  }

  lemma ReachableOrder(cs: Chains, n: nat, s: System)
    requires WellFormed(cs, n) && Reachable(cs, n, s)
    ensures Inv(cs, s) && OrderInv(cs, s) && |s.queues| == n
  {
    var ms :| Run(cs, Init(cs, n), ms, s);
    InitOrder(cs, n);
    RunKeepsOrder(cs, Init(cs, n), ms, s);
  }

  /** What position k has passed on is an initial part of what was pushed to it. */
  lemma PassedOnIsPrefix(cs: Chains, s: System, c: nat, k: nat)
    requires Inv(cs, s) && c < |cs| && k < |cs[c]|
    ensures PassedOn(cs, s, c, k) <= PushedTo(cs, s, c, k)
  {
    var x := s.queues[cs[c][k]];
    var chains := ChainsOf(s.actions);
    FinishedValid(cs, s, cs[c][k]);
    assert x.pushed == x.finished + SQ.AsSeq(x.current) + x.sh.tasks;
    if x.current.Some? {
      OfAppend(Ids(x.finished), x.current.value.id, chains, c);
      OfPrefix(Ids(x.finished) + [x.current.value.id], Ids(x.pushed), chains, c);
    } else {
      OfPrefix(Ids(x.finished), Ids(x.pushed), chains, c);
    }
  }

  /** The actions of chain c pushed to its position k, in order. */
  function PushedTo(cs: Chains, s: System, c: nat, k: nat): seq<nat>
    requires Shape(cs, s) && c < |cs| && k < |cs[c]|
  {
    Of(Ids(s.queues[cs[c][k]].pushed), ChainsOf(s.actions), c)
  }

  lemma StepBack(cs: Chains, s: System, c: nat, k: nat)
    requires Inv(cs, s) && InOrder(cs, s) && c < |cs| && 0 < k < |cs[c]|
    ensures PushedTo(cs, s, c, k) <= PushedTo(cs, s, c, k - 1)
  {
    PassedOnIsPrefix(cs, s, c, k - 1);
    assert HandedOn(cs, s, c, k - 1) == PassedOn(cs, s, c, k - 1);
    hide Inv, InOrder, PassedOn;
  }

  /** The actions that reached position k were pushed to the first queue in the same order. */
  lemma {:induction false} OrderIsKeptUpTo(cs: Chains, s: System, c: nat, k: nat)
    requires Inv(cs, s) && InOrder(cs, s) && c < |cs| && k < |cs[c]|
    ensures PushedTo(cs, s, c, k) <= PushedTo(cs, s, c, 0)
  {
    if k > 0 {
      StepBack(cs, s, c, k);
      OrderIsKeptUpTo(cs, s, c, k - 1);
    }
  }

  predicate ActingOf(a: Action, c: nat) {
    a.chain == c && a.phase.Acting?
  }

  /** In every run the actions of one chain begin in the order in which they were pushed to its first queue, each at
      most once; two of them are never running together; and the ones that left or are running have begun. */
  lemma ActionsRunInPushOrder(cs: Chains, n: nat, s: System, c: nat)
    requires WellFormed(cs, n) && Reachable(cs, n, s) && c < |cs|
    ensures Shape(cs, s) && |s.queues| == n
    ensures Of(s.ran, ChainsOf(s.actions), c) <= PushedTo(cs, s, c, 0)
    ensures forall a :: 0 <= a < |s.actions| ==> multiset(s.ran)[a] == if Begun(s.actions[a]) then 1 else 0
    ensures forall a, b | 0 <= a < |s.actions| && 0 <= b < |s.actions| ::
              ActingOf(s.actions[a], c) && ActingOf(s.actions[b], c) ==> a == b
  {
    hide Conserved;
    ReachableOrder(cs, n, s);
    var last := |cs[c]| - 1;
    assert HandedOn(cs, s, c, last) == PassedOn(cs, s, c, last);
    PassedOnIsPrefix(cs, s, c, last);
    OrderIsKeptUpTo(cs, s, c, last);
    forall a, b | 0 <= a < |s.actions| && 0 <= b < |s.actions|
              && ActingOf(s.actions[a], c) && ActingOf(s.actions[b], c)
      ensures a == b
    {
      assert LocatedAt(cs, s, a) && LocatedAt(cs, s, b);
      RunningIsChosen(s.queues[cs[c][last]], a);
      RunningIsChosen(s.queues[cs[c][last]], b);
    }
  }

  /** When nothing is under way every action ever pushed has run exactly once. */
  lemma QuiescentRanEachOnce(cs: Chains, n: nat, s: System)
    requires WellFormed(cs, n) && Reachable(cs, n, s) && Quiescent(s)
    ensures forall a :: 0 <= a < |s.actions| ==> multiset(s.ran)[a] == 1
    ensures forall i :: 0 <= i < |s.ran| ==> s.ran[i] < |s.actions|
  {
    ReachableOrder(cs, n, s);
    QuiescentMeansComplete(cs, n, s);
  }
}
