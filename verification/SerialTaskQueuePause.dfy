/** What a pause stops, and what it does not. */
module SerialTaskQueuePause {
  import opened Options
  import opened SerialTaskQueueProtocol

  /** Has passed the pause test and not yet started the task that pick may yield. */
  predicate Armed(pc: PC) {
    pc.Spin? || pc.Choose? || pc.Pop? || (pc.Release? && pc.got.Some?) || pc.Spawn? || pc.Ready?
  }

  function ArmedCount(acts: seq<PC>): nat {
    if acts == [] then 0 else ArmedCount(acts[..|acts| - 1]) + if Armed(acts[|acts| - 1]) then 1 else 0
  }

  lemma {:induction false} ArmedCountUpdate(acts: seq<PC>, i: nat, pc: PC)
    requires i < |acts|
    ensures ArmedCount(acts[i := pc]) ==
            ArmedCount(acts) - (if Armed(acts[i]) then 1 else 0) + (if Armed(pc) then 1 else 0)
  {
    var n := |acts| - 1;
    if i < n {
      assert acts[i := pc][..n] == acts[..n][i := pc];
      ArmedCountUpdate(acts[..n], i, pc);
    } else {
      assert acts[i := pc][..n] == acts[..n];
    }
  }

  lemma {:induction false} ArmedCountZero(acts: seq<PC>)
    ensures ArmedCount(acts) == 0 <==> forall i :: 0 <= i < |acts| ==> !Armed(acts[i])
  {
    if acts != [] {
      var n := |acts| - 1;
      ArmedCountZero(acts[..n]);
      assert forall i :: 0 <= i < n ==> acts[..n][i] == acts[i];
      if forall i :: 0 <= i < |acts| ==> !Armed(acts[i]) {
        assert !Armed(acts[n]);
      }
    }
  }

  /** A run during which the queue stays paused. */
  ghost predicate PausedRun(q: Queue, ms: seq<Move>, q': Queue)
    decreases |ms|
  {
    && q.sh.pauseCount > 0
    && if ms == [] then q == q' else Enabled(q, ms[0]) && PausedRun(Apply(q, ms[0]), ms[1..], q')
  }

  lemma PausedMoveCharges(q: Queue, m: Move)
    requires q.sh.pauseCount > 0 && Enabled(q, m) && Apply(q, m).sh.pauseCount > 0
    ensures |Apply(q, m).started| + ArmedCount(Apply(q, m).acts) <= |q.started| + ArmedCount(q.acts)
  {
    var q' := Apply(q, m);
    match m
    case Advance(i) =>
      ArmedCountUpdate(q.acts, i, q'.acts[i]);
      assert q'.acts == q.acts[i := q'.acts[i]];
    case Push(_) =>
      assert q'.acts[..|q.acts|] == q.acts;
    case _ =>
  }

  /** Charged pause bound: every task started while the queue stays paused uses up one pick that had passed the
      pause test when the pause was in force already. */
  lemma {:induction false} PausedStartsAreCharged(q: Queue, ms: seq<Move>, q': Queue)
    requires PausedRun(q, ms, q')
    ensures |q'.started| + ArmedCount(q'.acts) <= |q.started| + ArmedCount(q.acts)
    decreases |ms|
  {
    if ms != [] {
      PausedMoveCharges(q, ms[0]);
      PausedStartsAreCharged(Apply(q, ms[0]), ms[1..], q');
    }
  }

  ghost predicate CanStartWhilePaused(q: Queue) {
    exists ms, q' :: PausedRun(q, ms, q') && |q'.started| > |q.started|
  }

  lemma StartAfterMove(q: Queue, m: Move)
    requires q.sh.pauseCount > 0 && Enabled(q, m)
    requires |Apply(q, m).started| == |q.started| && CanStartWhilePaused(Apply(q, m))
    ensures CanStartWhilePaused(q)
  {
    var ms, q' :| PausedRun(Apply(q, m), ms, q') && |q'.started| > |Apply(q, m).started|;
    assert ([m] + ms)[1..] == ms;
    assert PausedRun(q, [m] + ms, q');
  }

  ghost predicate ArmedAt(q: Queue, i: nat) {
    i < |q.acts| && Armed(q.acts[i]) && (q.sh.tasks != [] || HasTask(q.acts[i]))
  }

  /** Whose turn it is so that an armed activity gets to start a task: first whoever has the task in hand, then
      whoever holds the spin flag, then the armed activity. */
  lemma NextTurn(q: Queue, i: nat) returns (j: nat)
    requires Exclusion(q) && ArmedAt(q, i)
    ensures Productive(q, j)
    ensures (HasTask(q.acts[j]) || q.acts[j].Finishing?)
         || (Picking(q.acts[j]) && (q.acts[j].Choose? ==> !q.sh.chosen) && (q.acts[j].Pop? ==> q.sh.tasks != []))
         || (j == i && q.acts[i].Spin?)
    ensures HasTask(q.acts[i]) ==> j == i
    ensures i == j || q.acts[i].Spin? || q.acts[i].Choose?
  {
    j := i;
    if k :| 0 <= k < |q.acts| && (HasTask(q.acts[k]) || q.acts[k].Finishing?) {
      j := k;
    } else if k :| 0 <= k < |q.acts| && Picking(q.acts[k]) {
      j := k;
    }
  }

  lemma TurnKeepsArmed(q: Queue, i: nat, j: nat)
    requires Inv(q) && ArmedAt(q, i) && Productive(q, j)
    requires (HasTask(q.acts[j]) || q.acts[j].Finishing?)
         || (Picking(q.acts[j]) && (q.acts[j].Choose? ==> !q.sh.chosen) && (q.acts[j].Pop? ==> q.sh.tasks != []))
         || (j == i && q.acts[i].Spin?)
    requires HasTask(q.acts[i]) ==> j == i
    requires i == j || q.acts[i].Spin? || q.acts[i].Choose?
    requires |Step(q, j).started| == |q.started|
    ensures ArmedAt(Step(q, j), i) || ArmedAt(Step(q, j), j)
  {
    var q' := Step(q, j);
    assert forall k :: 0 <= k < |q.acts| && k != j ==> q'.acts[k] == q.acts[k];
  }

  lemma ArmedCanStart(q: Queue, i: nat)
    requires Inv(q) && q.sh.pauseCount > 0 && ArmedAt(q, i)
    ensures CanStartWhilePaused(q)
    decreases Rank(q)
  {
    var j := NextTurn(q, i);
    var q' := Step(q, j);
    MoveKeepsInv(q, Advance(j));
    ProductiveStepDecreases(q, j);
    if |q'.started| > |q.started| {
      assert PausedRun(q', [], q');
      assert [Advance(j)][1..] == [];
      assert PausedRun(q, [Advance(j)], q');
    } else {
      TurnKeepsArmed(q, i, j);
      ArmedCanStart(q', if ArmedAt(q', i) then i else j);
      StartAfterMove(q, Advance(j));
    }
  }

  /** Exactly when the header's promise holds.  No task can start before the balancing resume if and only if no
      activity had passed the pause test when the pause was in force. */
  lemma PauseIsTightIffNothingArmed(q: Queue)
    requires Reachable(q) && q.sh.pauseCount > 0
    ensures !CanStartWhilePaused(q) <==> forall i :: 0 <= i < |q.acts| ==> !Armed(q.acts[i])
  {
    ReachableInv(q);
    ArmedCountZero(q.acts);
    if i :| 0 <= i < |q.acts| && Armed(q.acts[i]) {
      // another thread pushes a task, whose own pick will stop at the pause test
      var m := Push(Task(0, 0));
      MoveKeepsInv(q, m);
      ArmedCanStart(Apply(q, m), i);
      StartAfterMove(q, m);
    } else {
      forall ms, q' | PausedRun(q, ms, q') ensures |q'.started| <= |q.started| {
        PausedStartsAreCharged(q, ms, q');
      }
    }
  }

  lemma {:induction false} RunExtends(q: Queue, ms: seq<Move>, q': Queue, m: Move)
    requires Run(q, ms, q') && Enabled(q', m)
    ensures Run(q, ms + [m], Apply(q', m))
    decreases |ms|
  {
    if ms == [] {
      assert Run(Apply(q, m), [], Apply(q', m));
      assert (ms + [m])[1..] == [];
    } else {
      assert (ms + [m])[1..] == ms[1..] + [m];
      RunExtends(Apply(q, ms[0]), ms[1..], q', m);
    }
  }

  lemma ReachableMove(q: Queue, m: Move)
    requires Reachable(q) && Enabled(q, m)
    ensures Reachable(Apply(q, m))
  {
    var ms :| Run(INIT, ms, q);
    RunExtends(INIT, ms, q, m);
  }

  /** The header says that once the running task finishes no further task starts.  It does here: the queue is
      paused, one task is running, and a second one can still start before any resume. */
  lemma PauseLetsAPassedPickStart() returns (q: Queue)
    ensures Reachable(q) && q.sh.pauseCount > 0
    ensures |q.started| == 1 && |q.finished| == 0 && CanStartWhilePaused(q)
  {
    q := RunningAndPassed();
    ReachableMove(q, Pause);
    q := Apply(q, Pause);
    assert Armed(q.acts[1]);
    PauseIsTightIffNothingArmed(q);
  }

  /** A lone activity makes its next step. */
  lemma Turn(q: Queue, sh: Shared, pc: PC, current: Option<Task>, started: seq<Task>) returns (q': Queue)
    requires Reachable(q) && |q.acts| == 1 && q.acts[0] != Done
    requires Step(q, 0) == Queue(sh, [pc], q.pushed, current, started, q.finished)
    ensures q' == Queue(sh, [pc], q.pushed, current, started, q.finished) && Reachable(q')
  {
    ReachableMove(q, Advance(0));
    q' := Step(q, 0);
  }

  lemma FirstIsChosen() returns (q: Queue)
    ensures Reachable(q) && q == Queue(Shared([Task(0, 0)], 0, true, true), [Pop(Caller)], [Task(0, 0)], None, [], [])
  {
    var t := Task(0, 0);
    assert Run(INIT, [], INIT);
    ReachableMove(INIT, Push(t));
    q := Apply(INIT, Push(t));
    hide Reachable;
    assert q == Queue(Shared([t], 0, false, false), [Check(Caller)], [t], None, [], []);
    q := Turn(q, Shared([t], 0, false, false), Spin(Caller), None, []);
    q := Turn(q, Shared([t], 0, false, true), Choose(Caller), None, []);
    q := Turn(q, Shared([t], 0, true, true), Pop(Caller), None, []);
  }

  lemma FirstIsRunning() returns (q: Queue)
    ensures Reachable(q) && q.acts == [Running(Task(0, 0), 0)] && q.sh == Shared([], 0, true, false)
    ensures |q.started| == 1 && q.finished == []
  {
    hide Reachable;
    var t := Task(0, 0);
    q := FirstIsChosen();
    q := Turn(q, Shared([], 0, true, true), Release(Caller, Some(t)), Some(t), []);
    q := Turn(q, Shared([], 0, true, false), Spawn(t), Some(t), []);
    q := Turn(q, Shared([], 0, true, false), Ready(t), Some(t), []);
    q := Turn(q, Shared([], 0, true, false), Running(t, 0), Some(t), [t]);
  }

  lemma RunningAndPassed() returns (q: Queue)
    ensures Reachable(q) && |q.started| == 1 && |q.finished| == 0 && |q.acts| == 2 && q.acts[1] == Spin(Caller)
  {
    q := FirstIsRunning();
    ReachableMove(q, Push(Task(1, 0)));
    q := Apply(q, Push(Task(1, 0)));
    ReachableMove(q, Advance(1));
    q := Step(q, 1);
  }
}
