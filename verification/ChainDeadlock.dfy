/**
  Why chains must list shared queues in one order: two chains over the same two queues, in opposite orders, can come to
  rest with both actions waiting for each other and neither run.
 */
module ChainDeadlock {
  import opened Options
  import opened SerialTaskQueueChain
  import SQ = SerialTaskQueueProtocol

  const OPPOSITE: Chains := [[0, 1], [1, 0]]

  lemma {:induction false} RunExtends(cs: Chains, s: System, ms: seq<Move>, s': System, m: Move)
    requires Run(cs, s, ms, s') && Enabled(cs, s', m)
    ensures Run(cs, s, ms + [m], Apply(cs, s', m))
    decreases |ms|
  {
    if ms == [] {
      assert Run(cs, Apply(cs, s, m), [], Apply(cs, s', m));
      assert (ms + [m])[1..] == [];
    } else {
      assert (ms + [m])[1..] == ms[1..] + [m];
      RunExtends(cs, Apply(cs, s, ms[0]), ms[1..], s', m);
    }
  }

  lemma ReachableMove(cs: Chains, n: nat, s: System, m: Move)
    requires Reachable(cs, n, s) && Enabled(cs, s, m)
    ensures Reachable(cs, n, Apply(cs, s, m))
  {
    var ms :| Run(cs, Init(cs, n), ms, s);
    RunExtends(cs, Init(cs, n), ms, s, m);
  }

  // ----- The states of one of the two queues: t is the task pushed first, u the one handed over -----

  function Alone(sh: SQ.Shared, pc: SQ.PC, t: SQ.Task, taken: bool, started: bool): SQ.Queue {
    SQ.Queue(sh, [pc], [t], if taken then Some(t) else None, if started then [t] else [], [])
  }

  function Pushed(t: SQ.Task): SQ.Queue {
    Alone(SQ.Shared([t], 0, false, false), SQ.Check(SQ.Caller), t, false, false)
  }

  function Running(t: SQ.Task): SQ.Queue {
    Alone(SQ.Shared([], 0, true, false), SQ.Running(t, t.group), t, true, true)
  }

  function Paused(t: SQ.Task): SQ.Queue {
    Running(t).(sh := SQ.Shared([], 1, true, false))
  }

  /** The second task has been pushed; pc and other are the activities of the first and of the second push. */
  function Waiting(t: SQ.Task, u: SQ.Task, chosen: bool, ended: bool, pc: SQ.PC, other: SQ.PC): SQ.Queue {
    SQ.Queue(SQ.Shared([u], 1, chosen, false), [pc, other], [t, u], if ended then None else Some(t), [t],
             if ended then [t] else [])
  }

  function AtRest(t: SQ.Task, u: SQ.Task): SQ.Queue {
    Waiting(t, u, false, true, SQ.Done, SQ.Done)
  }

  function With(s: System, q: nat, x: SQ.Queue): System
    requires q < |s.queues|
  {
    s.(queues := s.queues[q := x])
  }

  /** One step of activity i of queue q, which is not the end of a task. */
  lemma QueueStep(s: System, q: nat, i: nat, x: SQ.Queue)
    requires Reachable(OPPOSITE, 2, s) && q < |s.queues| && SQ.Enabled(s.queues[q], SQ.Advance(i))
    requires !s.queues[q].acts[i].Running? && SQ.Step(s.queues[q], i) == x
    ensures Reachable(OPPOSITE, 2, With(s, q, x))
  {
    ReachableMove(OPPOSITE, 2, s, InQueue(q, i));
  }

  /** From the push to the task's execution. */
  lemma RunsFirst(s: System, q: nat, t: SQ.Task)
    requires Reachable(OPPOSITE, 2, s) && q < |s.queues| && s.queues[q] == Pushed(t)
    ensures Reachable(OPPOSITE, 2, With(s, q, Running(t)))
  {
    hide Reachable;
    var a := Alone(SQ.Shared([t], 0, false, false), SQ.Spin(SQ.Caller), t, false, false);
    var b := Alone(SQ.Shared([t], 0, false, true), SQ.Choose(SQ.Caller), t, false, false);
    var c := Alone(SQ.Shared([t], 0, true, true), SQ.Pop(SQ.Caller), t, false, false);
    QueueStep(s, q, 0, a);
    QueueStep(With(s, q, a), q, 0, b);
    assert With(With(s, q, a), q, b) == With(s, q, b);
    QueueStep(With(s, q, b), q, 0, c);
    assert With(With(s, q, b), q, c) == With(s, q, c);
    RunsChosen(With(s, q, c), q, t);
    assert With(With(s, q, c), q, Running(t)) == With(s, q, Running(t));
  }

  lemma RunsChosen(s: System, q: nat, t: SQ.Task)
    requires Reachable(OPPOSITE, 2, s) && q < |s.queues|
    requires s.queues[q] == Alone(SQ.Shared([t], 0, true, true), SQ.Pop(SQ.Caller), t, false, false)
    ensures Reachable(OPPOSITE, 2, With(s, q, Running(t)))
  {
    hide Reachable;
    var a := Alone(SQ.Shared([], 0, true, true), SQ.Release(SQ.Caller, Some(t)), t, true, false);
    var b := Alone(SQ.Shared([], 0, true, false), SQ.Spawn(t), t, true, false);
    var c := Alone(SQ.Shared([], 0, true, false), SQ.Ready(t), t, true, false);
    QueueStep(s, q, 0, a);
    QueueStep(With(s, q, a), q, 0, b);
    assert With(With(s, q, a), q, b) == With(s, q, b);
    QueueStep(With(s, q, b), q, 0, c);
    assert With(With(s, q, b), q, c) == With(s, q, c);
    QueueStep(With(s, q, c), q, 0, Running(t));
    assert With(With(s, q, c), q, Running(t)) == With(s, q, Running(t));
  }

  /** Once the second task waits and the body of the first has handed its action on, the queue comes to rest. */
  lemma ComesToRest(s: System, q: nat, t: SQ.Task, u: SQ.Task)
    requires Reachable(OPPOSITE, 2, s) && q < |s.queues|
    requires s.queues[q] == Waiting(t, u, true, false, SQ.Running(t, t.group), SQ.Check(SQ.Caller))
    requires t.id < |s.actions| && Valid(OPPOSITE, s.actions[t.id]) && Ended(OPPOSITE, s.actions[t.id], q)
    ensures Reachable(OPPOSITE, 2, With(s, q, AtRest(t, u)))
  {
    hide Reachable;
    var g := t.group;
    var a := Waiting(t, u, true, false, SQ.Running(t, g), SQ.Done);
    var b := Waiting(t, u, true, true, SQ.Finishing(g), SQ.Done);
    var c := Waiting(t, u, false, true, SQ.Check(SQ.Runner(g)), SQ.Done);
    QueueStep(s, q, 1, a);
    assert a.finished + [t] == [t];
    assert SQ.Step(a, 0) == b;
    ReachableMove(OPPOSITE, 2, With(s, q, a), InQueue(q, 0));
    assert Apply(OPPOSITE, With(s, q, a), InQueue(q, 0)) == With(s, q, b);
    QueueStep(With(s, q, b), q, 0, c);
    assert With(With(s, q, b), q, c) == With(s, q, c);
    QueueStep(With(s, q, c), q, 0, AtRest(t, u));
    assert With(With(s, q, c), q, AtRest(t, u)) == With(s, q, AtRest(t, u));
  }

  const A := SQ.Task(0, 0)
  const B := SQ.Task(1, 0)

  function Both(x: SQ.Queue, y: SQ.Queue, p: Phase, r: Phase): System {
    System([x, y], [Action(0, 0, p), Action(1, 0, r)], [1, 1], [])
  }

  lemma BothCalled()
    ensures Reachable(OPPOSITE, 2, Both(SQ.INIT, SQ.INIT, Entering, Entering))
  {
    var s0 := Init(OPPOSITE, 2);
    assert s0 == System([SQ.INIT, SQ.INIT], [], [0, 0], []);
    assert Run(OPPOSITE, s0, [], s0);
    ReachableMove(OPPOSITE, 2, s0, Call(0, 0));
    hide Reachable;
    var s1 := System([SQ.INIT, SQ.INIT], [Action(0, 0, Entering)], [1, 0], []);
    assert Apply(OPPOSITE, s0, Call(0, 0)) == s1;
    ReachableMove(OPPOSITE, 2, s1, Call(1, 0));
    assert Apply(OPPOSITE, s1, Call(1, 0)) == Both(SQ.INIT, SQ.INIT, Entering, Entering);
  }

  lemma BothPushed()
    ensures Reachable(OPPOSITE, 2, Both(Pushed(A), Pushed(B), At(0), At(0)))
  {
    hide Reachable;
    BothCalled();
    var s0 := Both(SQ.INIT, SQ.INIT, Entering, Entering);
    var s1 := Both(Pushed(A), SQ.INIT, At(0), Entering);
    ReachableMove(OPPOSITE, 2, s0, Enter(0));
    PushedFirst(A);
    assert Apply(OPPOSITE, s0, Enter(0)) == s1;
    ReachableMove(OPPOSITE, 2, s1, Enter(1));
    PushedFirst(B);
    assert Apply(OPPOSITE, s1, Enter(1)) == Both(Pushed(A), Pushed(B), At(0), At(0));
  }

  /** Both actions have been pushed to the first queue of their chain and their tasks run. */
  lemma BothRun()
    ensures Reachable(OPPOSITE, 2, Both(Running(A), Running(B), At(0), At(0)))
  {
    BothPushed();
    hide Reachable;
    var s4 := Both(Pushed(A), Pushed(B), At(0), At(0));
    RunsFirst(s4, 0, A);
    assert With(s4, 0, Running(A)) == Both(Running(A), Pushed(B), At(0), At(0));
    RunsFirst(Both(Running(A), Pushed(B), At(0), At(0)), 1, B);
    assert With(Both(Running(A), Pushed(B), At(0), At(0)), 1, Running(B)) == Both(Running(A), Running(B), At(0), At(0));
  }

  lemma PushedFirst(t: SQ.Task)
    ensures SQ.Apply(SQ.INIT, SQ.Push(t)) == Pushed(t)
  {
    assert SQ.INIT.sh.tasks + [t] == [t] && SQ.INIT.acts + [SQ.Check(SQ.Caller)] == [SQ.Check(SQ.Caller)];
    assert SQ.INIT.pushed + [t] == [t];
  }

  lemma PushedSecond(t: SQ.Task, u: SQ.Task)
    ensures SQ.Apply(Paused(t), SQ.Push(u)) == Waiting(t, u, true, false, SQ.Running(t, t.group), SQ.Check(SQ.Caller))
  {
    assert Paused(t).sh.tasks + [u] == [u] && Paused(t).pushed + [u] == [t, u];
    assert Paused(t).acts + [SQ.Check(SQ.Caller)] == [SQ.Running(t, t.group), SQ.Check(SQ.Caller)];
  }

  lemma IsRunning(x: SQ.Queue, a: nat)
    requires |x.acts| > 0 && x.acts[0].Running? && x.acts[0].task.id == a
    ensures RunningIn(x, a)
  {
  }

  /** A queue after the other action has been pushed to it. */
  function HandedOver(t: SQ.Task, u: SQ.Task): SQ.Queue {
    Waiting(t, u, true, false, SQ.Running(t, t.group), SQ.Check(SQ.Caller))
  }

  lemma BothPause()
    ensures Reachable(OPPOSITE, 2, Both(Paused(A), Paused(B), Holding(0), Holding(0)))
  {
    BothRun();
    hide Reachable;
    IsRunning(Running(A), 0);
    IsRunning(Running(B), 1);
    var s0 := Both(Running(A), Running(B), At(0), At(0));
    var s1 := Both(Paused(A), Running(B), Holding(0), At(0));
    ReachableMove(OPPOSITE, 2, s0, Body(0));
    assert Apply(OPPOSITE, s0, Body(0)) == s1;
    var s2 := Both(Paused(A), Paused(B), Holding(0), Holding(0));
    ReachableMove(OPPOSITE, 2, s1, Body(1));
    assert Apply(OPPOSITE, s1, Body(1)) == s2;
  }

  /** Each action pauses its first queue and goes on to the other. */
  lemma BothHandOver()
    ensures Reachable(OPPOSITE, 2, Both(HandedOver(A, B), HandedOver(B, A), At(1), At(1)))
  {
    BothPause();
    hide Reachable;
    IsRunning(Paused(A), 0);
    IsRunning(Paused(B), 1);
    IsRunning(HandedOver(B, A), 1);
    var s2 := Both(Paused(A), Paused(B), Holding(0), Holding(0));
    var s3 := Both(Paused(A), HandedOver(B, A), At(1), Holding(0));
    PushedSecond(B, A);
    ReachableMove(OPPOSITE, 2, s2, Body(0));
    assert Apply(OPPOSITE, s2, Body(0)) == s3;
    PushedSecond(A, B);
    ReachableMove(OPPOSITE, 2, s3, Body(1));
    assert Apply(OPPOSITE, s3, Body(1)) == Both(HandedOver(A, B), HandedOver(B, A), At(1), At(1));
  }

  /** Nothing is under way, no action has run, and each waits in a queue that the other keeps paused. */
  lemma OppositeOrdersGetStuck() returns (s: System)
    ensures Reachable(OPPOSITE, 2, s) && Quiescent(s) && s.ran == []
    ensures |s.actions| == 2 && !s.actions[0].phase.Left? && !s.actions[1].phase.Left?
    ensures |s.queues| == 2 && forall q :: 0 <= q < 2 ==> s.queues[q].sh.tasks != [] && s.queues[q].sh.pauseCount > 0
  {
    BothHandOver();
    hide Reachable;
    var s0 := Both(HandedOver(A, B), HandedOver(B, A), At(1), At(1));
    ComesToRest(s0, 0, A, B);
    var s1 := Both(AtRest(A, B), HandedOver(B, A), At(1), At(1));
    assert With(s0, 0, AtRest(A, B)) == s1;
    ComesToRest(s1, 1, B, A);
    s := Both(AtRest(A, B), AtRest(B, A), At(1), At(1));
    assert With(s1, 1, AtRest(B, A)) == s;
  }
}
