/**
  What a pipeline does: whatever user code does with its holders, the calls made are those of the left-to-right
  interpreter.
 */
module ChainFirstRuns {
  import opened Options
  import opened ChainFirst

  // ----- Every step keeps the invariant -----

  ghost predicate PointOk(s: State, alone: bool, u: nat)
    requires u < |s.tasks|
  {
    TaskOk(s, alone, u) && (u + 1 < |s.tasks| ==> SilentOk(s, alone, u))
  }

  lemma CopyKeeps(s: State, alone: bool, t: nat, u: nat)
    requires Enabled(s, Copy(t)) && u < |s.tasks| && PointOk(s, alone, u) && PointOk(s, alone, t)
    ensures PointOk(Next(s, Copy(t)), alone, u)
  {
  }

  lemma ReleaseKeeps(s: State, alone: bool, t: nat, e: Option<Exc>, u: nat)
    requires Enabled(s, Release(t, e)) && u < |s.tasks| && PointOk(s, alone, u) && PointOk(s, alone, t)
    ensures PointOk(Next(s, Release(t, e)), alone, u)
  {
  }

  lemma DropSpareKeeps(s: State, alone: bool, t: nat, u: nat)
    requires Enabled(s, DropSpare(t)) && u < |s.tasks| && PointOk(s, alone, u) && PointOk(s, alone, t)
    ensures PointOk(Next(s, DropSpare(t)), alone, u)
  {
  }

  /** A spawned stage has started: x' is its task and y' the next one. */
  ghost predicate Started(s: State, alone: bool, t: nat, x': Task, y': Task)
    requires 0 < t < |s.tasks|
  {
    var x, y := s.tasks[t], s.tasks[t - 1];
    && x.phase.Spawned? && x.body.Stage? && x.refs == 0
    && y.phase.Waiting? && y.refs == y.loose + y.spare + 1 && y.body == y'.body && y.next == y'.next && y.spare == y'.spare
    && (t > 1 || alone ==> y.loose == 0 && y.failures == [])
    && y'.reported == y.reported
    && y'.slot == (if y'.failures == [] then None else Some(y'.failures[0]))
    && if x.body.h.TwoArg? then
         x' == x.(phase := Done) && y' == y.(loose := y.loose + 1)
       else if x.slot.Some? then
         x' == x.(phase := Done) && y' == DoneWaiting(y, x.slot)
       else
         x' == x.(phase := InFunctor) && y' == y.(refs := y.refs + 1, loose := y.loose + 1)
  }

  lemma StagesKept(s: State, s': State, alone: bool, t: nat, x': Task, y': Task, u: nat)
    requires 0 < t < |s.tasks| && Started(s, alone, t, x', y') && s'.tasks == s.tasks[t := x'][t - 1 := y']
    requires u < |s.tasks| && PointOk(s, alone, u) && PointOk(s, alone, t) && PointOk(s, alone, t - 1)
    ensures PointOk(s', alone, u)
  {
    if u == t {
      assert s'.tasks[u] == x';
    } else if u == t - 1 {
      assert s'.tasks[u] == y' && s'.tasks[u + 1] == x';
    } else if u == t - 2 {
      assert s'.tasks[u] == s.tasks[u] && s'.tasks[u + 1] == y';
    } else {
      assert s'.tasks[u] == s.tasks[u] && (u + 1 < |s.tasks| ==> s'.tasks[u + 1] == s.tasks[u + 1]);
    }
  }

  /** The tasks after the start of a stage, by its kind and by whether it is given a failure. */
  lemma StartedTasks(s: State, t: nat)
    requires Enabled(s, Start(t)) && s.tasks[t].body.Stage? && s.tasks[t].next == t - 1
    ensures var x, y, s' := s.tasks[t], s.tasks[t - 1], Next(s, Start(t));
            if x.body.h.TwoArg? then s'.tasks == s.tasks[t := x.(phase := Done)][t - 1 := y.(loose := y.loose + 1)]
            else if x.slot.Some? then s'.tasks == s.tasks[t := x.(phase := Done)][t - 1 := DoneWaiting(y, x.slot)]
            else s'.tasks == s.tasks[t := x.(phase := InFunctor)][t - 1 := y.(refs := y.refs + 1, loose := y.loose + 1)]
  {
  }

  lemma StartKeeps(s: State, alone: bool, t: nat, u: nat)
    requires Enabled(s, Start(t)) && u < |s.tasks| && PointOk(s, alone, u) && PointOk(s, alone, t)
    requires t > 0 ==> PointOk(s, alone, t - 1)
    ensures PointOk(Next(s, Start(t)), alone, u)
  {
    if s.tasks[t].body.Stage? {
      StageKeeps(s, alone, t, u);
    }
  }

  lemma StageKeeps(s: State, alone: bool, t: nat, u: nat)
    requires Enabled(s, Start(t)) && u < |s.tasks| && PointOk(s, alone, u) && PointOk(s, alone, t)
    requires t > 0 && PointOk(s, alone, t - 1) && s.tasks[t].body.Stage?
    ensures PointOk(Next(s, Start(t)), alone, u)
  {
    var s', x, y := Next(s, Start(t)), s.tasks[t], s.tasks[t - 1];
    assert y.phase.Waiting? && x.next == t - 1;
    StartedTasks(s, t);
    hide Next;
    if x.body.h.TwoArg? {
      StagesKept(s, s', alone, t, x.(phase := Done), y.(loose := y.loose + 1), u);
    } else if x.slot.Some? {
      StagesKept(s, s', alone, t, x.(phase := Done), DoneWaiting(y, x.slot), u);
    } else {
      StagesKept(s, s', alone, t, x.(phase := InFunctor), y.(refs := y.refs + 1, loose := y.loose + 1), u);
    }
  }

  lemma ReturnKeeps(s: State, alone: bool, t: nat, u: nat)
    requires Enabled(s, FReturns(t)) && u < |s.tasks| && PointOk(s, alone, u) && PointOk(s, alone, t)
    requires t > 0 ==> PointOk(s, alone, t - 1)
    ensures PointOk(Next(s, FReturns(t)), alone, u)
  {
  }

  lemma ThrowKeeps(s: State, alone: bool, t: nat, e: Exc, u: nat)
    requires Enabled(s, FThrows(t, e)) && u < |s.tasks| && PointOk(s, alone, u) && PointOk(s, alone, t)
    requires t > 0 ==> PointOk(s, alone, t - 1)
    ensures PointOk(Next(s, FThrows(t, e)), alone, u)
  {
  }

  lemma PointsKept(s: State, alone: bool, m: Move, u: nat)
    requires Inv(s, alone) && Enabled(s, m) && u < |s.tasks|
    ensures PointOk(Next(s, m), alone, u)
  {
    assert PointOk(s, alone, u) && PointOk(s, alone, m.t);
    assert m.t > 0 ==> PointOk(s, alone, m.t - 1);
    match m {
      case Copy(t) => CopyKeeps(s, alone, t, u);
      case Release(t, e) => ReleaseKeeps(s, alone, t, e, u);
      case DropSpare(t) => DropSpareKeeps(s, alone, t, u);
      case Start(t) => StartKeeps(s, alone, t, u);
      case FReturns(t) => ReturnKeeps(s, alone, t, u);
      case FThrows(t, e) => ThrowKeeps(s, alone, t, e, u);
    }
  }

  /** While a task has not finished, all tasks after it are still waiting. */
  lemma {:induction false} LaterOnesWait(s: State, alone: bool, t: nat, u: nat)
    requires Inv(s, alone) && u < t < |s.tasks| && Owns(s.tasks[t])
    ensures s.tasks[u].phase.Waiting?
    decreases t
  {
    assert TaskOk(s, alone, t - 1);
    if u < t - 1 {
      LaterOnesWait(s, alone, t - 1, u);
    }
  }

  /** Once a task has been spawned, all tasks before it have finished. */
  lemma {:induction false} EarlierOnesAreDone(s: State, alone: bool, t: nat, u: nat)
    requires Inv(s, alone) && t < u < |s.tasks| && !s.tasks[t].phase.Waiting?
    ensures s.tasks[u].phase.Done?
    decreases |s.tasks| - t
  {
    assert TaskOk(s, alone, t) && TaskOk(s, alone, t + 1);
    if t + 1 < u {
      EarlierOnesAreDone(s, alone, t + 1, u);
    }
  }

  lemma {:induction false} MadeFromSame(a: seq<Task>, b: seq<Task>, u: nat)
    requires u <= |a| == |b| && forall i :: u <= i < |a| ==> Made(a[i]) == Made(b[i])
    ensures MadeFrom(a, u) == MadeFrom(b, u)
    decreases |a| - u
  {
    if u < |a| {
      MadeFromSame(a, b, u + 1);
    }
  }

  lemma {:induction false} MadeFromGrows(a: seq<Task>, b: seq<Task>, t: nat, u: nat)
    requires u <= |a| == |b| && t < |a| && forall i :: 0 <= i < |a| && i != t ==> Made(a[i]) == Made(b[i])
    requires forall i :: 0 <= i <= t ==> Made(a[i]) == []
    ensures MadeFrom(b, u) == MadeFrom(a, u) + if u <= t then Made(b[t]) else []
    decreases |a| - u
  {
    if u < |a| {
      MadeFromGrows(a, b, t, u + 1);
      if u == t {
        MadeFromSame(a, b, u + 1);
      }
    }
  }

  /** A task that starts makes its own calls and changes nobody else's. */
  lemma StartMakesAt(s: State, t: nat, i: nat)
    requires Enabled(s, Start(t)) && i < |s.tasks| && (s.tasks[t].body.Stage? ==> s.tasks[s.tasks[t].next].phase.Waiting?)
    ensures var s' := Next(s, Start(t));
            && |s'.tasks| == |s.tasks| && s'.trace == s.trace + Made(s'.tasks[t])
            && (i != t ==> Made(s'.tasks[i]) == Made(s.tasks[i]))
  {
  }

  lemma NothingMadeYet(s: State, alone: bool, t: nat, i: nat)
    requires Inv(s, alone) && Enabled(s, Start(t)) && i <= t
    ensures Made(s.tasks[i]) == [] && (i < t ==> s.tasks[i].phase.Waiting?)
  {
    if i < t {
      LaterOnesWait(s, alone, t, i);
    }
  }

  lemma StartMakes(s: State, alone: bool, t: nat)
    requires Inv(s, alone) && Enabled(s, Start(t))
    ensures Next(s, Start(t)).trace == MadeFrom(Next(s, Start(t)).tasks, 0)
  {
    var s' := Next(s, Start(t));
    assert TaskOk(s, alone, t) && s.trace == MadeFrom(s.tasks, 0);
    hide Next, Made, Inv, MadeFrom;
    forall i | 0 <= i <= t ensures Made(s.tasks[i]) == [] && (i < t ==> s.tasks[i].phase.Waiting?) {
      NothingMadeYet(s, alone, t, i);
    }
    forall i | 0 <= i < |s.tasks| ensures |s'.tasks| == |s.tasks| && (i != t ==> Made(s'.tasks[i]) == Made(s.tasks[i])) {
      StartMakesAt(s, t, i);
    }
    StartMakesAt(s, t, t);
    MadeFromGrows(s.tasks, s'.tasks, t, 0);
  }

  lemma OthersMakeNothing(s: State, alone: bool, m: Move)
    requires Inv(s, alone) && Enabled(s, m) && !m.Start?
    ensures Next(s, m).trace == MadeFrom(Next(s, m).tasks, 0)
  {
    var s' := Next(s, m);
    assert TaskOk(s, alone, m.t);
    assert m.t > 0 ==> TaskOk(s, alone, m.t - 1);
    forall i | 0 <= i < |s.tasks| ensures Made(s.tasks[i]) == Made(s'.tasks[i]) {
    }
    MadeFromSame(s.tasks, s'.tasks, 0);
  }

  lemma MoveKeepsInv(s: State, alone: bool, m: Move)
    requires Inv(s, alone) && Enabled(s, m)
    ensures Inv(Next(s, m), alone)
  {
    var s' := Next(s, m);
    assert |s'.tasks| == |s.tasks|;
    forall u | 0 <= u < |s.tasks|
      ensures TaskOk(s', alone, u) && (u + 1 < |s.tasks| ==> SilentOk(s', alone, u))
    {
      PointsKept(s, alone, m, u);
    }
    if m.Start? {
      StartMakes(s, alone, m.t);
    } else {
      OthersMakeNothing(s, alone, m);
    }
  }

  // ----- What is built -----

  /** The handlers of the stages that are not left out, the last stage first: the order in which tasks are made. */
  function Handlers(c: Chain): (hs: seq<Handler>)
    ensures |hs| == Stages(c)
  {
    match c
    case First(h) => [h]
    case Then(h, prev) => [h] + Handlers(prev)
    case IfThen(enabled, h, prev) => if enabled then [h] + Handlers(prev) else Handlers(prev)
  }

  function BuiltFrom(hs: seq<Handler>, v: nat): seq<Task> {
    seq(|hs|, i requires 0 <= i < |hs| => NewTask(hs[i], v + i).(loose := if i == |hs| - 1 then 1 else 0))
  }

  lemma BuiltFromHead(hs: seq<Handler>, v: nat)
    requires |hs| > 1
    ensures BuiltFrom(hs, v) == [NewTask(hs[0], v).(loose := 0)] + BuiltFrom(hs[1..], v + 1)
  {
    forall i | 0 < i < |hs| ensures BuiltFrom(hs, v)[i] == BuiltFrom(hs[1..], v + 1)[i - 1] {
      assert hs[1..][i - 1] == hs[i];
    }
  }

  lemma AddTaskBuilds(s: State, h: Handler, hs: seq<Handler>, v: nat)
    requires HolderOfTop(s, v) && |hs| > 0
    ensures var s1 := AddTask(s, h, v);
            s1.tasks[v + 1 := s1.tasks[v + 1].(loose := s1.tasks[v + 1].loose - 1)] + BuiltFrom(hs, v + 1)
            == s.tasks[v := s.tasks[v].(loose := s.tasks[v].loose - 1)] + BuiltFrom([h] + hs, v)
  {
    BuiltFromHead([h] + hs, v);
    assert ([h] + hs)[1..] == hs;
    assert AddTask(s, h, v).tasks[v + 1].(loose := 0) == NewTask(h, v).(loose := 0);
  }

  lemma {:induction false} LastTaskBuilds(c: Chain, s: State, v: nat)
    requires HolderOfTop(s, v)
    ensures var x := s.tasks[v].(loose := s.tasks[v].loose - 1);
            LastTask(c, s, v) == s.(tasks := s.tasks[v := x] + BuiltFrom(Handlers(c), v))
    decreases c, 1
  {
    hide Stages;
    if c.First? {
      assert BuiltFrom(Handlers(c), v) == [NewTask(c.h, v)];
    } else if c.Then? || c.enabled {
      LastTaskBuilds(c.prev, AddTask(s, c.h, v), v + 1);
      assert Handlers(c) == [c.h] + Handlers(c.prev);
      AddTaskBuilds(s, c.h, Handlers(c.prev), v);
    } else {
      OmittedBuilds(c, s, v);
    }
  }

  /** The holder copied for a stage left out is gone again. */
  lemma {:induction false} OmittedBuilds(c: Chain, s: State, v: nat)
    requires HolderOfTop(s, v) && c.IfThen? && !c.enabled
    ensures var x := s.tasks[v].(loose := s.tasks[v].loose - 1);
            LastTask(c, s, v) == s.(tasks := s.tasks[v := x] + BuiltFrom(Handlers(c), v))
    decreases c, 0
  {
    hide Stages, BuiltFrom;
    var y, built := s.tasks[v], BuiltFrom(Handlers(c), v);
    var z := y.(refs := y.refs + 1);
    var s1 := Put(s, v, z.(loose := y.loose + 1));
    LastTaskBuilds(c.prev, s1, v);
    assert s1.tasks[v := z] == s.tasks[v := z];
    var s2 := s.(tasks := s.tasks[v := z] + built);
    assert LastTask(c, s, v) == Put(s2, v, DoneWaiting(z, None).(loose := y.loose - 1));
    hide LastTask;
    assert y.failures + [] == y.failures;
    assert DoneWaiting(z, None) == y;
    assert s2.tasks[v := y.(loose := y.loose - 1)] == s.tasks[v := y.(loose := y.loose - 1)] + built;
  }

  /** A stage whose condition is false leaves no trace: the same tasks are built as without it. */
  lemma FalseConditionIsOmission(h: Handler, c: Chain, s: State, v: nat)
    requires HolderOfTop(s, v)
    ensures LastTask(IfThen(false, h, c), s, v) == LastTask(c, s, v)
  {
    LastTaskBuilds(IfThen(false, h, c), s, v);
    LastTaskBuilds(c, s, v);
  }

  /** A chain under construction, all its tasks waiting. */
  ghost predicate Building(s: State, alone: bool, v: nat) {
    && HolderOfTop(s, v) && (v > 0 || alone ==> s.tasks[v].loose == 1)
    && (forall t :: 0 <= t <= v ==> s.tasks[t].phase.Waiting? && s.tasks[t].failures == [] && PointOk(s, alone, t))
    && s.trace == []
  }

  lemma AddTaskKeepsBuilding(s: State, alone: bool, h: Handler, v: nat)
    requires Building(s, alone, v)
    ensures Building(AddTask(s, h, v), alone, v + 1)
  {
    var s1 := AddTask(s, h, v);
    forall t | 0 <= t <= v + 1
      ensures s1.tasks[t].phase.Waiting? && s1.tasks[t].failures == [] && PointOk(s1, alone, t)
    {
      assert t <= v ==> PointOk(s, alone, t);
    }
  }

  lemma {:induction false} NothingMade(tasks: seq<Task>, t: nat)
    requires t <= |tasks| && forall i :: t <= i < |tasks| ==> tasks[i].phase.Waiting? || tasks[i].phase.Spawned?
    ensures MadeFrom(tasks, t) == []
    decreases |tasks| - t
  {
    if t < |tasks| {
      NothingMade(tasks, t + 1);
      assert Made(tasks[t]) == [];
    }
  }

  ghost predicate BodiesAre(s: State, hs: seq<Handler>, v: nat) {
    |s.tasks| == v + 1 + |hs| && forall i :: 0 <= i < |hs| ==> s.tasks[v + 1 + i].body == Stage(hs[i])
  }

  /** A chain under construction satisfies the invariant. */
  lemma BuildingIsInv(s: State, alone: bool, v: nat)
    requires Building(s, alone, v)
    ensures Inv(s, alone)
  {
    forall u | 0 <= u < |s.tasks| ensures TaskOk(s, alone, u) && (u + 1 < |s.tasks| ==> SilentOk(s, alone, u)) {
      assert PointOk(s, alone, u);
    }
    NothingMade(s.tasks, 0);
  }

  lemma NewTasksAreOk(s: State, alone: bool, v: nat, hs: seq<Handler>, t: nat)
    requires Building(s, alone, v) && v < t <= v + |hs|
    ensures var s' := s.(tasks := s.tasks[v := s.tasks[v].(loose := s.tasks[v].loose - 1)] + BuiltFrom(hs, v));
            PointOk(s', alone, t) && s'.tasks[t].phase.Waiting? && s'.tasks[t].failures == []
  {
    var x := s.tasks[v].(loose := s.tasks[v].loose - 1);
    var s' := s.(tasks := s.tasks[v := x] + BuiltFrom(hs, v));
    assert s'.tasks[t] == BuiltFrom(hs, v)[t - v - 1];
    assert t < v + |hs| ==> s'.tasks[t + 1] == BuiltFrom(hs, v)[t - v];
  }

  lemma OldTasksAreOk(s: State, alone: bool, v: nat, hs: seq<Handler>, t: nat)
    requires Building(s, alone, v) && t <= v && |hs| > 0
    ensures var s' := s.(tasks := s.tasks[v := s.tasks[v].(loose := s.tasks[v].loose - 1)] + BuiltFrom(hs, v));
            PointOk(s', alone, t) && s'.tasks[t].phase.Waiting? && s'.tasks[t].failures == []
  {
    var x := s.tasks[v].(loose := s.tasks[v].loose - 1);
    var s' := s.(tasks := s.tasks[v := x] + BuiltFrom(hs, v));
    assert PointOk(s, alone, t);
    assert s'.tasks[v + 1] == BuiltFrom(hs, v)[0] && s'.tasks[v] == x;
    assert t < v ==> s'.tasks[t] == s.tasks[t];
  }

  lemma LastTaskKeepsBuilding(c: Chain, s: State, alone: bool, v: nat)
    requires Building(s, alone, v)
    ensures Building(LastTask(c, s, v), alone, v + Stages(c))
  {
    hide LastTask, PointOk;
    var hs := Handlers(c);
    var s' := s.(tasks := s.tasks[v := s.tasks[v].(loose := s.tasks[v].loose - 1)] + BuiltFrom(hs, v));
    forall t | 0 <= t <= v + |hs|
      ensures s'.tasks[t].phase.Waiting? && s'.tasks[t].failures == [] && PointOk(s', alone, t)
    {
      if t <= v {
        OldTasksAreOk(s, alone, v, hs, t);
      } else {
        NewTasksAreOk(s, alone, v, hs, t);
      }
    }
    assert s'.tasks[v + |hs|] == BuiltFrom(hs, v)[|hs| - 1];
    LastTaskBuilds(c, s, v);
  }

  lemma LastTaskBodies(c: Chain, s: State, v: nat)
    requires HolderOfTop(s, v)
    ensures BodiesAre(LastTask(c, s, v), Handlers(c), v)
  {
    hide LastTask;
    LastTaskBuilds(c, s, v);
  }

  lemma LastTaskIsSound(c: Chain, s: State, alone: bool, v: nat)
    requires Building(s, alone, v)
    ensures Inv(LastTask(c, s, v), alone) && BodiesAre(LastTask(c, s, v), Handlers(c), v)
  {
    hide LastTask;
    LastTaskKeepsBuilding(c, s, alone, v);
    BuildingIsInv(LastTask(c, s, v), alone, v + Stages(c));
    LastTaskBodies(c, s, v);
  }

  lemma FirstIsCalled(s: State, alone: bool, h: Handler, v: nat)
    requires Building(s, alone, v)
    ensures Inv(RunLast(First(h), s, v), alone)
  {
    var s' := RunLast(First(h), s, v);
    forall u | 0 <= u < |s'.tasks|
      ensures TaskOk(s', alone, u) && (u + 1 < |s'.tasks| ==> SilentOk(s', alone, u))
    {
      assert u <= v ==> PointOk(s, alone, u);
    }
    NothingMade(s'.tasks, 0);
  }

  lemma SpareKeepsBuilding(s: State, alone: bool, v: nat)
    requires Building(s, alone, v)
    ensures Building(Put(s, v, s.tasks[v].(refs := s.tasks[v].refs + 1, spare := s.tasks[v].spare + 1)), alone, v)
  {
    var s1 := Put(s, v, s.tasks[v].(refs := s.tasks[v].refs + 1, spare := s.tasks[v].spare + 1));
    forall t | 0 <= t <= v
      ensures s1.tasks[t].phase.Waiting? && s1.tasks[t].failures == [] && PointOk(s1, alone, t)
    {
      assert PointOk(s, alone, t);
    }
  }

  lemma {:induction false} RunLastKeepsInv(c: Chain, s: State, alone: bool, v: nat)
    requires Building(s, alone, v)
    ensures Inv(RunLast(c, s, v), alone)
    decreases c
  {
    if c.First? {
      FirstIsCalled(s, alone, c.h, v);
    } else if c.Then? || c.enabled {
      AddTaskKeepsBuilding(s, alone, c.h, v);
      RunLastKeepsInv(c.prev, AddTask(s, c.h, v), alone, v + 1);
    } else {
      SpareKeepsBuilding(s, alone, v);
      RunLastKeepsInv(c.prev, Put(s, v, s.tasks[v].(refs := s.tasks[v].refs + 1, spare := s.tasks[v].spare + 1)), alone, v);
    }
  }

  lemma {:induction false} RunLastBodies(c: Chain, s: State, v: nat)
    requires HolderOfTop(s, v)
    ensures var s' := RunLast(c, s, v);
            && BodiesAre(s', Handlers(c), v)
            && s'.tasks[v + Stages(c)].refs == 0 && s'.tasks[v + Stages(c)].slot == None
            && (forall t :: 0 <= t <= v ==> s'.tasks[t].body == s.tasks[t].body)
    decreases c
  {
    var s' := RunLast(c, s, v);
    if c.Then? || (c.IfThen? && c.enabled) {
      RunLastBodies(c.prev, AddTask(s, c.h, v), v + 1);
      assert s'.tasks[v + 1].body == Stage(c.h);
      forall i | 0 <= i < Stages(c) ensures s'.tasks[v + 1 + i].body == Stage(Handlers(c)[i]) {
        if i > 0 {
          assert s'.tasks[v + 2 + (i - 1)].body == Stage(Handlers(c.prev)[i - 1]);
        }
      }
    } else if c.IfThen? {
      var s1 := Put(s, v, s.tasks[v].(refs := s.tasks[v].refs + 1, spare := s.tasks[v].spare + 1));
      RunLastBodies(c.prev, s1, v);
    }
  }

  lemma GivenIsBuilding(holders: nat)
    requires holders > 0
    ensures Building(Given(holders), holders == 1, 0)
  {
  }

  // ----- The calls are those of the interpreter -----

  /** The first failure that user code reports to a holder of the task. */
  function FirstReport(x: Task): Option<Exc> {
    if x.reported == [] then None else Some(x.reported[0])
  }

  function Reports(s: State): (r: seq<Option<Exc>>) {
    seq(|s.tasks|, i requires 0 <= i < |s.tasks| => FirstReport(s.tasks[i]))
  }

  /** The interpreter on the list of handlers. */
  function Interpret(hs: seq<Handler>, v: nat, reported: seq<Option<Exc>>, arg: Option<Exc>): Outcome
    requires v + |hs| <= |reported|
    decreases |hs|
  {
    if hs == [] then Outcome([], arg)
    else
      var o := Interpret(hs[1..], v + 1, reported, arg);
      Outcome(o.calls + CallsOf(hs[0], o.result), HandsOn(hs[0], o.result, reported[v]))
  }

  lemma {:induction false} MeaningIsInterpretation(c: Chain, v: nat, reported: seq<Option<Exc>>, arg: Option<Exc>)
    requires v + Stages(c) <= |reported|
    ensures Meaning(c, v, reported, arg) == Interpret(Handlers(c), v, reported, arg)
    decreases c
  {
    if c.First? {
      assert [] + CallsOf(c.h, arg) == CallsOf(c.h, arg);
    } else {
      if c.Then? || c.enabled {
        assert Handlers(c)[1..] == Handlers(c.prev);
        MeaningIsInterpretation(c.prev, v + 1, reported, arg);
      } else {
        MeaningIsInterpretation(c.prev, v, reported, arg);
      }
    }
  }

  /** What a stage gives its next task, by whichever of its holders: its own failure if it is to pass that on, and
      otherwise the first failure that user code reports. */
  lemma SlotIsHandedOn(s: State, alone: bool, h: Handler, v: nat)
    requires Inv(s, alone) && v + 1 < |s.tasks| && s.tasks[v + 1].body == Stage(h) && s.tasks[v + 1].phase.Done?
    requires v > 0 || alone
    ensures s.tasks[v].slot == HandsOn(h, s.tasks[v + 1].slot, FirstReport(s.tasks[v]))
  {
    assert TaskOk(s, alone, v) && SilentOk(s, alone, v);
  }

  /** What the first stage is given is what user code reports to its task. */
  lemma FirstStageIsReported(s: State, alone: bool)
    requires Inv(s, alone)
    ensures s.tasks[|s.tasks| - 1].slot == FirstReport(s.tasks[|s.tasks| - 1])
  {
    assert TaskOk(s, alone, |s.tasks| - 1);
  }

  lemma InterpretsOne(hs: seq<Handler>, v: nat, reported: seq<Option<Exc>>, arg: Option<Exc>)
    requires v < |hs| <= |reported|
    ensures var o := Interpret(hs[v + 1..], v + 1, reported, arg);
            Interpret(hs[v..], v, reported, arg)
            == Outcome(o.calls + CallsOf(hs[v], o.result), HandsOn(hs[v], o.result, reported[v]))
  {
    assert hs[v..][1..] == hs[v + 1..] && hs[v..][0] == hs[v];
  }

  lemma MadeByOne(s: State, hs: seq<Handler>, v: nat)
    requires BodiesAre(s, hs, 0) && v < |hs|
    ensures var above := s.tasks[v + 1];
            MadeFrom(s.tasks, v + 1)
            == MadeFrom(s.tasks, v + 2) + if above.phase.Waiting? || above.phase.Spawned? then [] else CallsOf(hs[v], above.slot)
  {
    assert s.tasks[0 + 1 + v].body == Stage(hs[v]);
  }

  lemma PrefixGoesOn<T>(a: seq<T>, b: seq<T>, c: seq<T>)
    requires a <= b
    ensures a + [] <= b + c
  {
  }

  /** The calls made so far by the tasks after v are the first ones the interpreter makes there, and all of them when
      these tasks have got past calling; what they hand on to v is then what v has been told. */
  lemma {:induction false} InterpreterLeads(s: State, alone: bool, hs: seq<Handler>, v: nat)
    requires Inv(s, alone) && BodiesAre(s, hs, 0) && v <= |hs|
    ensures var o := Interpret(hs[v..], v, Reports(s), FirstReport(s.tasks[|hs|]));
            && MadeFrom(s.tasks, v + 1) <= o.calls
            && (v == |hs| || s.tasks[v + 1].phase.Done? ==>
                  MadeFrom(s.tasks, v + 1) == o.calls && (v > 0 || alone ==> o.result == s.tasks[v].slot))
    decreases |hs| - v
  {
    if v == |hs| {
      FirstStageIsReported(s, alone);
    } else {
      var above := s.tasks[v + 1];
      assert s.tasks[0 + 1 + v].body == Stage(hs[v]);
      if !above.phase.Waiting? && v + 1 < |hs| {
        EarlierOnesAreDone(s, alone, v + 1, v + 2);
      }
      if above.phase.Done? && (v > 0 || alone) {
        SlotIsHandedOn(s, alone, hs[v], v);
      }
      var o := Interpret(hs[v + 1..], v + 1, Reports(s), FirstReport(s.tasks[|hs|]));
      hide Inv, BodiesAre, MadeFrom, Interpret, FirstReport, CallsOf, HandsOn;
      InterpreterLeads(s, alone, hs, v + 1);
      InterpretsOne(hs, v, Reports(s), FirstReport(s.tasks[|hs|]));
      MadeByOne(s, hs, v);
      PrefixGoesOn(MadeFrom(s.tasks, v + 2), o.calls, CallsOf(hs[v], o.result));
    }
  }

  /** Everything the interpreter does for chain c, given what is reported in s. */
  function WholeOf(c: Chain, s: State): Outcome
    requires |s.tasks| == Stages(c) + 1
  {
    Meaning(c, 0, Reports(s), FirstReport(s.tasks[Stages(c)]))
  }

  /** No holder is left in user code, nothing is waiting for a thread and no functor is being run. */
  ghost predicate AtEnd(s: State) {
    forall t :: 0 <= t < |s.tasks| ==>
      s.tasks[t].loose == 0 && s.tasks[t].spare == 0 && (s.tasks[t].phase.Waiting? || s.tasks[t].phase.Done?)
  }

  lemma {:induction false} AllDoneAtEnd(s: State, alone: bool, t: nat)
    requires Inv(s, alone) && AtEnd(s) && t < |s.tasks|
    ensures s.tasks[t].phase.Done?
    decreases |s.tasks| - t
  {
    assert TaskOk(s, alone, t);
    if t + 1 < |s.tasks| {
      AllDoneAtEnd(s, alone, t + 1);
    }
  }

  lemma WholeIsInterpretation(c: Chain, s: State, alone: bool)
    requires Inv(s, alone) && BodiesAre(s, Handlers(c), 0)
    ensures MadeFrom(s.tasks, 1) <= WholeOf(c, s).calls
    ensures s.tasks[1].phase.Done? ==>
              MadeFrom(s.tasks, 1) == WholeOf(c, s).calls && (alone ==> WholeOf(c, s).result == s.tasks[0].slot)
  {
    var hs := Handlers(c);
    InterpreterLeads(s, alone, hs, 0);
    assert hs[0..] == hs;
    MeaningIsInterpretation(c, 0, Reports(s), FirstReport(s.tasks[|hs|]));
  }

  lemma TraceIsInterpretation(c: Chain, s: State, alone: bool)
    requires Inv(s, alone) && BodiesAre(s, Handlers(c), 0)
    ensures s.trace <= WholeOf(c, s).calls + [Finally(s.tasks[0].slot)]
    ensures AtEnd(s) ==> s.trace == WholeOf(c, s).calls + [Finally(s.tasks[0].slot)]
    ensures AtEnd(s) && alone ==> WholeOf(c, s).result == s.tasks[0].slot
  {
    WholeIsInterpretation(c, s, alone);
    assert TaskOk(s, alone, 0);
    assert s.trace == MadeFrom(s.tasks, 1) + Made(s.tasks[0]);
    if s.tasks[0].phase.Done? {
      EarlierOnesAreDone(s, alone, 0, 1);
    }
    if AtEnd(s) {
      AllDoneAtEnd(s, alone, 0);
      AllDoneAtEnd(s, alone, 1);
    }
  }

  // ----- Runs -----

  lemma MoveKeepsBody(s: State, m: Move, u: nat)
    requires Enabled(s, m) && u < |s.tasks|
    ensures |Next(s, m).tasks| == |s.tasks| && Next(s, m).tasks[u].body == s.tasks[u].body
  {
  }

  lemma NobodyTellsUnheld(s: State, alone: bool, m: Move)
    requires Inv(s, alone) && Enabled(s, m) && s.tasks[|s.tasks| - 1].refs == 0
    ensures |Next(s, m).tasks| == |s.tasks|
    ensures var x, y := s.tasks[|s.tasks| - 1], Next(s, m).tasks[|s.tasks| - 1]; y.refs == 0 && y.slot == x.slot
  {
    assert TaskOk(s, alone, |s.tasks| - 1) && TaskOk(s, alone, m.t);
    hide Inv, TaskOk;
  }

  /** The tasks stay the same, and one that nobody holds is told nothing more. */
  lemma MoveKeepsBodies(s: State, alone: bool, hs: seq<Handler>, m: Move)
    requires Inv(s, alone) && BodiesAre(s, hs, 0) && Enabled(s, m)
    ensures var s1 := Next(s, m);
            && BodiesAre(s1, hs, 0) && |s1.tasks| == |s.tasks| == 1 + |hs|
            && (s.tasks[|hs|].refs == 0 ==> s1.tasks[|hs|].refs == 0 && s1.tasks[|hs|].slot == s.tasks[|hs|].slot)
  {
    hide Inv, Next, Enabled;
    MoveKeepsBody(s, m, 0);
    forall u | 0 <= u < |s.tasks| ensures Next(s, m).tasks[u].body == s.tasks[u].body {
      MoveKeepsBody(s, m, u);
    }
    if s.tasks[|hs|].refs == 0 {
      NobodyTellsUnheld(s, alone, m);
    }
  }

  lemma {:induction false} RunKeeps(s: State, alone: bool, hs: seq<Handler>, ms: seq<Move>, s': State)
    requires Inv(s, alone) && BodiesAre(s, hs, 0) && Run(s, ms, s')
    ensures Inv(s', alone) && BodiesAre(s', hs, 0)
    ensures |s.tasks| == |s'.tasks| == 1 + |hs|
    ensures s.tasks[|hs|].refs == 0 ==> s'.tasks[|hs|].refs == 0 && s'.tasks[|hs|].slot == s.tasks[|hs|].slot
    decreases |ms|
  {
    if ms != [] {
      MoveKeepsInv(s, alone, ms[0]);
      MoveKeepsBodies(s, alone, hs, ms[0]);
      hide Inv, Next, BodiesAre, Enabled;
      RunKeeps(Next(s, ms[0]), alone, hs, ms[1..], s');
    }
  }

  // ----- What user code reports in a run -----

  /** The failure that user code reports to task t by a move: with a holder of it, or by throwing in the stage before. */
  function ReportIn(m: Move, t: nat): seq<Exc> {
    match m
    case Release(u, e) => if u == t then Failure(e) else []
    case FThrows(u, e) => if u == t + 1 then [e] else []
    case _ => []
  }

  function ReportsIn(ms: seq<Move>, t: nat): seq<Exc> {
    if ms == [] then [] else ReportIn(ms[0], t) + ReportsIn(ms[1..], t)
  }

  function FirstOf(reports: seq<Exc>): Option<Exc> {
    if reports == [] then None else Some(reports[0])
  }

  lemma MoveReports(s: State, alone: bool, m: Move, t: nat)
    requires Inv(s, alone) && Enabled(s, m) && t < |s.tasks|
    ensures |Next(s, m).tasks| == |s.tasks| && Next(s, m).tasks[t].reported == s.tasks[t].reported + ReportIn(m, t)
  {
    assert TaskOk(s, alone, m.t);
    hide Inv, TaskOk;
  }

  lemma Regroup<T>(a: seq<T>, b: seq<T>, c: seq<T>)
    ensures (a + b) + c == a + (b + c)
  {
  }

  lemma {:induction false} RunReports(s: State, alone: bool, ms: seq<Move>, s': State, t: nat)
    requires Inv(s, alone) && Run(s, ms, s') && t < |s.tasks|
    ensures |s'.tasks| == |s.tasks| && s'.tasks[t].reported == s.tasks[t].reported + ReportsIn(ms, t)
    decreases |ms|
  {
    hide Inv, Next, Enabled;
    if ms != [] {
      MoveKeepsInv(s, alone, ms[0]);
      MoveReports(s, alone, ms[0], t);
      RunReports(Next(s, ms[0]), alone, ms[1..], s', t);
      Regroup(s.tasks[t].reported, ReportIn(ms[0], t), ReportsIn(ms[1..], t));
    }
  }

  ghost predicate NothingReported(s: State) {
    forall t :: 0 <= t < |s.tasks| ==> s.tasks[t].reported == []
  }

  lemma LastTaskReportsNothing(c: Chain, s: State, v: nat)
    requires HolderOfTop(s, v) && NothingReported(s)
    ensures NothingReported(LastTask(c, s, v))
  {
    hide LastTask;
    LastTaskBuilds(c, s, v);
  }

  lemma {:induction false} RunLastReportsNothing(c: Chain, s: State, v: nat)
    requires HolderOfTop(s, v) && NothingReported(s)
    ensures NothingReported(RunLast(c, s, v))
    decreases c
  {
    if c.Then? || (c.IfThen? && c.enabled) {
      RunLastReportsNothing(c.prev, AddTask(s, c.h, v), v + 1);
    } else if c.IfThen? {
      RunLastReportsNothing(c.prev, Put(s, v, s.tasks[v].(refs := s.tasks[v].refs + 1, spare := s.tasks[v].spare + 1)), v);
    }
  }

  /** Everything the interpreter does for chain c when user code reports what it does in these moves. */
  function Whole(c: Chain, ms: seq<Move>): Outcome {
    Meaning(c, 0, seq(Stages(c) + 1, t requires 0 <= t => FirstOf(ReportsIn(ms, t))), FirstOf(ReportsIn(ms, Stages(c))))
  }

  lemma WholeIsGiven(c: Chain, s: State, ms: seq<Move>)
    requires |s.tasks| == Stages(c) + 1 && forall t :: 0 <= t < |s.tasks| ==> s.tasks[t].reported == ReportsIn(ms, t)
    ensures WholeOf(c, s) == Whole(c, ms)
  {
    assert Reports(s) == seq(Stages(c) + 1, t requires 0 <= t => FirstOf(ReportsIn(ms, t)));
  }

  lemma ReportsAreTheMoves(c: Chain, s: State, alone: bool, ms: seq<Move>, s': State)
    requires Inv(s, alone) && NothingReported(s) && Run(s, ms, s') && |s.tasks| == |s'.tasks| == Stages(c) + 1
    ensures WholeOf(c, s') == Whole(c, ms)
  {
    forall t | 0 <= t < |s.tasks| ensures s'.tasks[t].reported == ReportsIn(ms, t) {
      RunReports(s, alone, ms, s', t);
      assert [] + ReportsIn(ms, t) == ReportsIn(ms, t);
    }
    hide Inv;
    WholeIsGiven(c, s', ms);
  }

  /** A chain started with lastTask: whatever is done with holders of its tasks, in any order, the calls made are an
      initial part of what the left-to-right interpreter does, given the first failure, if any, that user code itself
      reports to each task in the run, by a holder or by throwing; when all is quiet they are all of it, and the last task
      is given the chain's result. */
  lemma LastTaskRunsTheChain(c: Chain, holders: nat, ms: seq<Move>, s: State)
    requires holders > 0 && Run(LastTask(c, Given(holders), 0), ms, s)
    ensures |s.tasks| == Stages(c) + 1
    ensures s.trace <= Whole(c, ms).calls + [Finally(s.tasks[0].slot)]
    ensures AtEnd(s) ==> s.trace == Whole(c, ms).calls + [Finally(s.tasks[0].slot)]
    ensures AtEnd(s) && holders == 1 ==> Whole(c, ms).result == s.tasks[0].slot
  {
    var s0 := LastTask(c, Given(holders), 0);
    GivenIsBuilding(holders);
    LastTaskIsSound(c, Given(holders), holders == 1, 0);
    LastTaskReportsNothing(c, Given(holders), 0);
    hide LastTask, Inv, Given;
    RunKeeps(s0, holders == 1, Handlers(c), ms, s);
    ReportsAreTheMoves(c, s0, holders == 1, ms, s);
    TraceIsInterpretation(c, s, holders == 1);
  }

  lemma UnheldHearsNothing(s: State, alone: bool, ms: seq<Move>, s': State, t: nat)
    requires Inv(s, alone) && NothingReported(s) && Run(s, ms, s') && t + 1 == |s.tasks| == |s'.tasks|
    requires Inv(s', alone) && s'.tasks[t].slot == None
    ensures ReportsIn(ms, t) == []
  {
    RunReports(s, alone, ms, s', t);
    assert TaskOk(s', alone, t);
    assert [] + ReportsIn(ms, t) == ReportsIn(ms, t);
  }

  /** The same for runLast, whose first stage is called without an exception. */
  lemma RunLastRunsTheChain(c: Chain, holders: nat, ms: seq<Move>, s: State)
    requires holders > 0 && Run(RunLast(c, Given(holders), 0), ms, s)
    ensures |s.tasks| == Stages(c) + 1 && ReportsIn(ms, Stages(c)) == [] && s.tasks[Stages(c)].slot == None
    ensures s.trace <= Whole(c, ms).calls + [Finally(s.tasks[0].slot)]
    ensures AtEnd(s) ==> s.trace == Whole(c, ms).calls + [Finally(s.tasks[0].slot)]
    ensures AtEnd(s) && holders == 1 ==> Whole(c, ms).result == s.tasks[0].slot
  {
    var s0 := RunLast(c, Given(holders), 0);
    GivenIsBuilding(holders);
    RunLastKeepsInv(c, Given(holders), holders == 1, 0);
    RunLastBodies(c, Given(holders), 0);
    RunLastReportsNothing(c, Given(holders), 0);
    hide RunLast, Inv, Given;
    RunKeeps(s0, holders == 1, Handlers(c), ms, s);
    UnheldHearsNothing(s0, holders == 1, ms, s, Stages(c));
    ReportsAreTheMoves(c, s0, holders == 1, ms, s);
    TraceIsInterpretation(c, s, holders == 1);
  }

  /** What a stage calls when it is run, by its kind: with a failure an automatic stage calls nothing and an explicit one
      its exception functor, with that failure; without one both call their functor; a two-argument stage calls its
      functor with whatever there is. */
  lemma CallsByKind(s: State, t: nat)
    requires Enabled(s, Start(t)) && s.tasks[t].body.Stage?
    ensures var h, arg, calls := s.tasks[t].body.h, s.tasks[t].slot, Next(s, Start(t)).trace;
            && (h.Auto? && arg.Some? ==> calls == s.trace)
            && (h.Auto? && arg.None? ==> calls == s.trace + [Call(h.f, None)])
            && (h.Explicit? && arg.Some? ==> calls == s.trace + [Call(h.except, arg)])
            && (h.Explicit? && arg.None? ==> calls == s.trace + [Call(h.f, None)])
            && (h.TwoArg? ==> calls == s.trace + [Call(h.f, arg)])
  {
  }

  /** When a task has been spawned, no holder of it or of any task of an earlier stage is left, so no further failure
      can reach it, and the earlier stages are over. */
  lemma StartsAfterAllHolders(c: Chain, holders: nat, ms: seq<Move>, s: State, t: nat, u: nat)
    requires holders > 0
    requires Run(LastTask(c, Given(holders), 0), ms, s) || Run(RunLast(c, Given(holders), 0), ms, s)
    requires t <= u < |s.tasks| && !s.tasks[t].phase.Waiting?
    ensures s.tasks[u].refs == 0 && s.tasks[u].loose == 0 && s.tasks[u].spare == 0
    ensures u > t ==> s.tasks[u].phase.Done?
  {
    hide Next, LastTask, RunLast;
    var alone := holders == 1;
    GivenIsBuilding(holders);
    if Run(LastTask(c, Given(holders), 0), ms, s) {
      LastTaskIsSound(c, Given(holders), alone, 0);
      RunKeeps(LastTask(c, Given(holders), 0), alone, Handlers(c), ms, s);
    } else {
      RunLastKeepsInv(c, Given(holders), alone, 0);
      RunLastBodies(c, Given(holders), 0);
      RunKeeps(RunLast(c, Given(holders), 0), alone, Handlers(c), ms, s);
    }
    assert TaskOk(s, alone, u);
    if u > t {
      EarlierOnesAreDone(s, alone, t, u);
    }
  }

  /** A functor that is called gets a holder of the next task, which cannot be spawned before that holder is gone; one that
      may throw keeps its own stage's holder until it is over, and so does its task.  A stage that is skipped, and an
      exception functor, get none. */
  lemma FunctorGetsHolder(s: State, alone: bool, t: nat)
    requires Inv(s, alone) && Enabled(s, Start(t)) && s.tasks[t].body.Stage?
    ensures 0 < t && |Next(s, Start(t)).tasks| == |s.tasks|
    ensures var x, y, s' := s.tasks[t], s.tasks[t - 1], Next(s, Start(t));
            var called := x.body.h.TwoArg? || x.slot.None?;
            && (called ==> s'.tasks[t - 1].loose == y.loose + 1 && s'.tasks[t - 1].refs > 0 && s'.tasks[t - 1].phase.Waiting?)
            && (!called ==> s'.tasks[t - 1].loose == y.loose && s'.tasks[t - 1].refs == y.refs - 1)
            && (s'.tasks[t].phase.InFunctor? <==> called && !x.body.h.TwoArg?)
            && (s'.tasks[t].phase.InFunctor? ==> s'.tasks[t - 1].refs == y.refs + 1)
  {
    assert TaskOk(s, alone, t);
    assert TaskOk(s, alone, t - 1);
    StartedTasks(s, t);
    hide Next, Inv;
  }

  /** The stage that starts calls a functor that takes a holder. */
  predicate CallsFunctor(x: Task) {
    x.body.Stage? && (x.body.h.TwoArg? || x.slot.None?)
  }

  /** The holders in the hands of user code: one more by a copy or for a functor called, one less by a release, and the
      failure given with it is the one the task keeps if it has none. */
  lemma HoldersOfUserCode(s: State, alone: bool, m: Move, t: nat)
    requires Inv(s, alone) && Enabled(s, m) && t < |s.tasks|
    ensures |Next(s, m).tasks| == |s.tasks|
    ensures Next(s, m).tasks[t].loose
         == s.tasks[t].loose + (if m == Copy(t) || (m.Start? && m.t == t + 1 && CallsFunctor(s.tasks[m.t])) then 1 else 0)
                             - (if m.Release? && m.t == t then 1 else 0)
    ensures m.Release? && m.t == t ==>
              Next(s, m).tasks[t].slot == if s.tasks[t].slot.Some? then s.tasks[t].slot else m.e
    ensures Next(s, m).tasks[t].spare == s.tasks[t].spare - if m == DropSpare(t) then 1 else 0
  {
    assert TaskOk(s, alone, m.t);
    if m.Start? && s.tasks[m.t].body.Stage? {
      assert TaskOk(s, alone, m.t - 1);
      StartedTasks(s, m.t);
      hide Next, Inv;
    } else {
      hide Inv, Execute;
    }
  }
}
