/**
  The tasks over whole runs of a serial task queue: which are pushed, which start and end in a thread, read off the calls
  and the activities alone.
 */
module SerialTaskQueueHistory {
  import opened Options
  import opened SerialTaskQueueProtocol
  import opened SerialTaskQueueRuns

  /** The tasks of the pushes in a run. */
  function PushesIn(ms: seq<Move>): seq<Task> {
    if ms == [] then [] else (if ms[0].Push? then [ms[0].task] else []) + PushesIn(ms[1..])
  }

  /** The pauses of a run less its resumes. */
  function PausesIn(ms: seq<Move>): int {
    if ms == [] then 0 else (if ms[0].Pause? then 1 else if ms[0].Resume? then -1 else 0) + PausesIn(ms[1..])
  }

  /** Activity i executes the task. */
  predicate Executes(q: Queue, i: nat, t: Task) {
    i < |q.acts| && q.acts[i].Running? && q.acts[i].task == t
  }

  ghost predicate SomeExecutes(q: Queue, q': Queue, i: nat, t: Task) {
    Executes(q', i, t) && !Executes(q, i, t)
  }

  /** The task that one activity begins to execute between two states, if one does. */
  ghost function Begun(q: Queue, q': Queue): seq<Task> {
    if exists i: nat, t :: SomeExecutes(q, q', i, t) then
      var i: nat, t :| SomeExecutes(q, q', i, t);
      [t]
    else []
  }

  /** The tasks in the order in which a run begins to execute them. */
  ghost function StartsIn(q: Queue, ms: seq<Move>): seq<Task>
    decreases |ms|
  {
    if ms == [] || !Enabled(q, ms[0]) then []
    else Begun(q, Apply(q, ms[0])) + StartsIn(Apply(q, ms[0]), ms[1..])
  }

  /** The tasks in the order in which their execution ends. */
  ghost function EndsIn(q: Queue, ms: seq<Move>): seq<Task>
    decreases |ms|
  {
    if ms == [] || !Enabled(q, ms[0]) then []
    else Begun(Apply(q, ms[0]), q) + EndsIn(Apply(q, ms[0]), ms[1..])
  }

  /** Between two states only one activity moves. */
  lemma OneMoves(q: Queue, m: Move, i: nat)
    requires Enabled(q, m)
    ensures |q.acts| <= |Apply(q, m).acts|
    ensures i < |q.acts| && m != Advance(i) ==> Apply(q, m).acts[i] == q.acts[i]
    ensures |q.acts| <= i < |Apply(q, m).acts| ==> Apply(q, m).acts[i] == Check(Caller)
  {
  }

  lemma BegunIs(q: Queue, q': Queue, i: nat, t: Task)
    requires SomeExecutes(q, q', i, t)
    requires forall j: nat, u :: SomeExecutes(q, q', j, u) ==> j == i
    ensures Begun(q, q') == [t]
  {
  }

  lemma OnlyTheMover(q: Queue, m: Move, j: nat, u: Task)
    requires Enabled(q, m)
    ensures SomeExecutes(q, Apply(q, m), j, u) || SomeExecutes(Apply(q, m), q, j, u) ==> m == Advance(j)
  {
    OneMoves(q, m, j);
  }

  /** The history of starts is that of activities beginning to execute. */
  lemma MoveStarts(q: Queue, m: Move)
    requires Enabled(q, m)
    ensures Apply(q, m).started == q.started + Begun(q, Apply(q, m))
    ensures Apply(q, m).finished == q.finished + Begun(Apply(q, m), q)
  {
    var q' := Apply(q, m);
    forall j: nat, u ensures SomeExecutes(q, q', j, u) || SomeExecutes(q', q, j, u) ==> m == Advance(j) {
      OnlyTheMover(q, m, j, u);
    }
    if m.Advance? {
      var i := m.act;
      if q'.acts[i].Running? {
        assert SomeExecutes(q, q', i, q'.acts[i].task) && q'.started == q.started + [q'.acts[i].task];
        BegunIs(q, q', i, q'.acts[i].task);
      } else if q.acts[i].Running? {
        assert SomeExecutes(q', q, i, q.acts[i].task);
        BegunIs(q', q, i, q.acts[i].task);
      }
    }
  }

  lemma Regroup<T>(a: seq<T>, b: seq<T>, c: seq<T>)
    ensures (a + b) + c == a + (b + c)
  {
  }

  lemma MovePushes(q: Queue, m: Move)
    requires Enabled(q, m)
    ensures Apply(q, m).pushed == q.pushed + if m.Push? then [m.task] else []
    ensures Apply(q, m).sh.pauseCount == q.sh.pauseCount + PausesIn([m])
  {
  }

  lemma {:induction false} RunHistory(q: Queue, ms: seq<Move>, q': Queue)
    requires Run(q, ms, q')
    ensures q'.started == q.started + StartsIn(q, ms) && q'.finished == q.finished + EndsIn(q, ms)
    ensures q'.pushed == q.pushed + PushesIn(ms) && q'.sh.pauseCount == q.sh.pauseCount + PausesIn(ms)
    decreases |ms|
  {
    hide Apply, Enabled, Begun;
    if ms != [] {
      var q1 := Apply(q, ms[0]);
      MoveStarts(q, ms[0]);
      MovePushes(q, ms[0]);
      RunHistory(q1, ms[1..], q');
      assert PausesIn([ms[0]]) == if ms[0].Pause? then 1 else if ms[0].Resume? then -1 else 0;
      Regroup(q.started, Begun(q, q1), StartsIn(q1, ms[1..]));
      Regroup(q.finished, Begun(q1, q), EndsIn(q1, ms[1..]));
      Regroup(q.pushed, if ms[0].Push? then [ms[0].task] else [], PushesIn(ms[1..]));
    }
  }

  /** In every run tasks are executed in the order of their pushes, one at a time, each in its own group; those whose
      execution has ended, the one chosen and the queued ones are all that were pushed. */
  lemma SerialHistory(ms: seq<Move>, q: Queue)
    requires Run(INIT, ms, q)
    ensures EndsIn(INIT, ms) <= StartsIn(INIT, ms) <= PushesIn(ms) && |StartsIn(INIT, ms)| <= |EndsIn(INIT, ms)| + 1
    ensures PushesIn(ms) == EndsIn(INIT, ms) + AsSeq(q.current) + q.sh.tasks
    ensures forall i: nat, t :: Executes(q, i, t) ==>
              StartsIn(INIT, ms) == EndsIn(INIT, ms) + [t] && q.current == Some(t) && q.acts[i].group == t.group
    ensures forall i: nat, j: nat, t, u :: Executes(q, i, t) && Executes(q, j, u) ==> i == j
  {
    HistoryFromStart(ms, q);
    SerialExecution(q);
    ReachableInv(q);
    forall i: nat, t | Executes(q, i, t) ensures q.current == Some(t) {
      assert HasTask(q.acts[i]);
    }
  }

  /** No lost wakeup: when a run with as many resumes as pauses has come to rest, every task pushed has been executed, in
      the order of the pushes. */
  lemma RestMeansAllExecuted(ms: seq<Move>, q: Queue)
    requires Run(INIT, ms, q) && Quiescent(q) && PausesIn(ms) == 0
    ensures StartsIn(INIT, ms) == EndsIn(INIT, ms) == PushesIn(ms)
    ensures q.sh.tasks == [] && !q.sh.chosen && !q.sh.picking
  {
    HistoryFromStart(ms, q);
    hide StartsIn, EndsIn, PushesIn;
    QuiescentUnpausedIsDrained(q);
  }

  lemma HistoryFromStart(ms: seq<Move>, q: Queue)
    requires Run(INIT, ms, q)
    ensures q.started == StartsIn(INIT, ms) && q.finished == EndsIn(INIT, ms) && q.pushed == PushesIn(ms)
    ensures q.sh.pauseCount == PausesIn(ms)
  {
    RunHistory(INIT, ms, q);
  }

  // ----- To the end -----

  function Advances(turns: seq<nat>): seq<Move> {
    if turns == [] then [] else [Advance(turns[0])] + Advances(turns[1..])
  }

  lemma ProductiveIsAdvance(q: Queue, i: nat)
    requires Productive(q, i)
    ensures Enabled(q, Advance(i)) && Apply(q, Advance(i)) == Step(q, i)
  {
  }

  lemma {:induction false} ProductiveIsRun(q: Queue, turns: seq<nat>, q': Queue)
    requires ProductiveRun(q, turns, q')
    ensures Run(q, Advances(turns), q')
    decreases |turns|
  {
    hide Apply, Enabled, Productive;
    if turns != [] {
      ProductiveIsAdvance(q, turns[0]);
      ProductiveIsRun(Step(q, turns[0]), turns[1..], q');
      assert Advances(turns)[1..] == Advances(turns[1..]);
    }
  }

  lemma {:induction false} RunJoins(q: Queue, ms: seq<Move>, q1: Queue, more: seq<Move>, q': Queue)
    requires Run(q, ms, q1) && Run(q1, more, q')
    ensures Run(q, ms + more, q')
    decreases |ms|
  {
    hide Apply, Enabled;
    if ms == [] {
      assert ms + more == more;
    } else {
      RunJoins(Apply(q, ms[0]), ms[1..], q1, more, q');
      assert (ms + more)[1..] == ms[1..] + more;
    }
  }

  /** Whatever productive steps are taken after a run, they are boundedly many, and when none is left and the run has
      resumed as often as it has paused, every task pushed in it has been executed. */
  lemma MaximalRunExecutesAll(ms: seq<Move>, q: Queue, turns: seq<nat>, q': Queue)
    requires Run(INIT, ms, q) && ProductiveRun(q, turns, q') && (forall i: nat :: !Productive(q', i))
    ensures |turns| <= Rank(q) && Quiescent(q')
    ensures PausesIn(ms) == 0 ==> EndsIn(INIT, ms + Advances(turns)) == PushesIn(ms)
  {
    MaximalRunDrains(q, turns, q');
    ProductiveIsRun(q, turns, q');
    RunJoins(INIT, ms, q, Advances(turns), q');
    HistoryFromStart(ms + Advances(turns), q');
    HistoryFromStart(ms, q);
  }

  // ----- Who executes the next task -----

  /** A runner that has picked a task goes on with it itself exactly if the task is of its own group, and otherwise gives
      it to task_group::run; a push or resume always does. */
  lemma OwnGroupStays(q: Queue, i: nat, t: Task)
    requires Enabled(q, Advance(i)) && q.acts[i].Release? && q.acts[i].got == Some(t)
    ensures Executes(Step(q, i), i, t) <==> q.acts[i].ctx == Runner(t.group)
    ensures !Executes(Step(q, i), i, t) ==> Step(q, i).acts[i] == Spawn(t)
  {
  }

  /** A resume lets somebody look at the queue exactly if it was the last one due. */
  lemma LastResumeLooks(q: Queue)
    requires Enabled(q, Resume)
    ensures var q' := Apply(q, Resume);
            q'.acts == q.acts + (if q'.sh.pauseCount == 0 then [Check(Caller)] else []) && q'.sh.tasks == q.sh.tasks
  {
  }
}
