/**
  presetTaskAsFailed among concurrent adds: it tells the tasks of all nodes in the list it finds, before doneWaiting goes
  on, and no task is told anything else while the list waits.
 */
module WaitingTaskListPreset {
  import opened Options
  import opened WaitingTaskList
  import opened WaitingTaskListSteps
  import opened WaitingTaskListRuns

  predicate InPreset(pc: PC) {
    pc.PresetTest? || pc.PresetWalk? || pc.PresetTell?
  }

  /** The task of the node has been given the failure. */
  predicate IsTold(s: List, x: nat, e: Failure) {
    x < |s.nodes| && s.nodes[x].add < |s.adds| && s.adds[s.nodes[x].add].told == Some(e)
  }

  /** The activity still has the node before it, or its task has been told. */
  ghost predicate AheadOrTold(s: List, pc: PC, x: nat, e: Failure) {
    match pc
    case PresetTest(_) => x in s.live
    case PresetWalk(_, _, todo) => x in todo || IsTold(s, x, e)
    case PresetTell(_, _, _, todo) => x in todo || IsTold(s, x, e)
    case _ => IsTold(s, x, e)
  }

  ghost predicate Presetting(s: List, i: nat, e: Failure, xs: seq<nat>) {
    && i < |s.acts| && (InPreset(s.acts[i]) ==> s.acts[i].failure == e)
    && forall x :: x in xs ==> x < |s.nodes| && AheadOrTold(s, s.acts[i], x, e)
  }

  // ----- What a step keeps -----

  lemma StepKeepsTold(s: List, j: nat, x: nat, e: Failure)
    requires Enabled(s, Advance(j)) && IsTold(s, x, e)
    ensures IsTold(Step(s, j), x, e)
  {
    var pc := s.acts[j];
    if pc.Tell? || pc.Create? || pc.Drop? {
    } else if pc.Take? || pc.PresetTell? {
    } else if pc.Exchange? || pc.LinkUp? || pc.Relink? {
    } else {
    }
  }

  /** While the list waits, nodes are only added to it. */
  lemma StepKeepsLive(s: List, j: nat, x: nat)
    requires Enabled(s, Advance(j)) && !s.acts[j].Announce? && x in s.live
    ensures x in Step(s, j).live
  {
  }

  lemma OthersKeepPresetting(s: List, i: nat, e: Failure, xs: seq<nat>, j: nat)
    requires ActsOk(s) && Presetting(s, i, e, xs) && Enabled(s, Advance(j)) && j != i
    ensures Presetting(Step(s, j), i, e, xs)
  {
    assert ActOk(s, i) && ActOk(s, j);
    StepMovesOne(s, j);
    hide Step, ActsOk, ActOk, Enabled, IsTold;
    forall x | x in xs ensures AheadOrTold(Step(s, j), s.acts[i], x, e) {
      if IsTold(s, x, e) {
        StepKeepsTold(s, j, x, e);
      }
      if s.acts[i].PresetTest? {
        StepKeepsLive(s, j, x);
      }
    }
  }

  /** The node told is the first of those ahead; a task that knows a failure already knows this one. */
  lemma TellTells(s: List, i: nat)
    requires Inv(s) && i < |s.acts| && s.acts[i].PresetTell?
    ensures StepDefined(s, s.acts[i]) && IsTold(Step(s, i), s.acts[i].todo[0], s.acts[i].failure)
  {
    assert ActOk(s, i);
    SuffixIsLive(s, s.acts[i].todo);
    assert NodeOk(s, s.acts[i].node) && AddOk(s, s.nodes[s.acts[i].node].add);
  }

  lemma OwnStepAt(s: List, i: nat, e: Failure, x: nat)
    requires Inv(s) && i < |s.acts| && Enabled(s, Advance(i)) && i < |Step(s, i).acts|
    requires AheadOrTold(s, s.acts[i], x, e) && (InPreset(s.acts[i]) ==> s.acts[i].failure == e)
    ensures AheadOrTold(Step(s, i), Step(s, i).acts[i], x, e)
  {
    assert ActOk(s, i);
    OwnStepShape(s, i);
    if IsTold(s, x, e) {
      StepKeepsTold(s, i, x, e);
    }
    if s.acts[i].PresetTell? {
      TellTells(s, i);
    }
    hide Inv, IsTold, Step, ActOk;
  }

  lemma OwnStepKeepsPresetting(s: List, i: nat, e: Failure, xs: seq<nat>)
    requires Inv(s) && Presetting(s, i, e, xs) && Enabled(s, Advance(i))
    ensures Presetting(Step(s, i), i, e, xs)
  {
    assert ActOk(s, i);
    StepMovesOne(s, i);
    OwnStepShape(s, i);
    hide Inv, Step, ActOk, AheadOrTold;
    forall x | x in xs ensures AheadOrTold(Step(s, i), Step(s, i).acts[i], x, e) {
      OwnStepAt(s, i, e, x);
    }
  }

  /** How the activity goes on. */
  lemma OwnStepShape(s: List, i: nat)
    requires i < |s.acts| && ActOk(s, i) && s.acts[i] != Done && i < |Step(s, i).acts| && StepDefined(s, s.acts[i])
    ensures var x, y := s.acts[i], Step(s, i).acts[i];
            && (x.PresetTest? ==> y == PresetWalk(x.failure, s.head, s.live))
            && (x.PresetWalk? ==> (y.SetException? && x.todo == []) || y == x
                                  || (y.PresetTell? && y.failure == x.failure && y.todo == x.todo))
            && (x.PresetTell? ==> y.PresetWalk? && y.failure == x.failure && y.todo == x.todo[1..])
            && (!InPreset(x) ==> !InPreset(y))
  {
  }

  lemma MoveKeepsPresetting(s: List, i: nat, e: Failure, xs: seq<nat>, m: Move)
    requires Inv(s) && Presetting(s, i, e, xs) && Enabled(s, m)
    ensures Presetting(Apply(s, m), i, e, xs)
  {
    match m
    case StartAdd(_) =>
    case Finish(_, _) =>
    case Reset => assert PastTheList(s.acts[i]);
    case Advance(j) =>
      if j == i {
        OwnStepKeepsPresetting(s, i, e, xs);
      } else {
        OthersKeepPresetting(s, i, e, xs, j);
      }
  }

  lemma {:induction false} RunKeepsPresetting(s: List, i: nat, e: Failure, xs: seq<nat>, ms: seq<Move>, s': List)
    requires Inv(s) && Presetting(s, i, e, xs) && Run(s, ms, s')
    ensures Inv(s') && Presetting(s', i, e, xs)
    decreases |ms|
  {
    hide Inv, Presetting, Apply, Enabled;
    if ms != [] {
      MoveKeepsInv(s, ms[0]);
      MoveKeepsPresetting(s, i, e, xs, ms[0]);
      RunKeepsPresetting(Apply(s, ms[0]), i, e, xs, ms[1..], s');
    }
  }

  // ----- Main results -----

  /** A doneWaiting call about to preset a failure: once it has gone on from there, whatever else has happened, the tasks
      of all nodes that were in the list have been given that failure, and they keep it. */
  lemma PresetTellsTheList(size: nat, s: List, i: nat, ms: seq<Move>, s': List)
    requires Reachable(size, s) && i < |s.acts| && s.acts[i].PresetTest? && Run(s, ms, s')
    ensures i < |s'.acts|
    ensures !InPreset(s'.acts[i]) ==> forall x :: x in s.live ==> IsTold(s', x, s.acts[i].failure)
  {
    ReachableInv(size, s);
    forall k | 0 <= k < |s.live| ensures s.live[k] < |s.nodes| {
      assert LinkedOrPending(s, s.live[k], Successor(s.live, k));
    }
    RunKeepsPresetting(s, i, s.acts[i].failure, s.live, ms, s');
  }

  /** So it is from the call on: presetTaskAsFailed followed by doneWaiting. */
  lemma FinishWithPresetTells(size: nat, s: List, e: Failure, ms: seq<Move>, s': List)
    requires Reachable(size, s) && Enabled(s, Finish(Some(e), true)) && Run(Apply(s, Finish(Some(e), true)), ms, s')
    ensures |s.acts| < |s'.acts|
    ensures !InPreset(s'.acts[|s.acts|]) ==> forall x :: x in s.live ==> IsTold(s', x, e)
  {
    var s1 := ReachableMove(size, s, Finish(Some(e), true));
    PresetTellsTheList(size, s1, |s.acts|, ms, s');
  }

  // ----- Without a preset -----

  ghost predicate NotToldEarly(s: List) {
    && (forall i :: 0 <= i < |s.acts| ==> !InPreset(s.acts[i]))
    && (forall a :: 0 <= a < |s.adds| && s.waiting && s.adds[a].epoch == Epoch(s) ==> s.adds[a].told.None?)
  }

  lemma StepKeepsUntold(s: List, j: nat, a: nat)
    requires Inv(s) && NotToldEarly(s) && Enabled(s, Advance(j)) && a < |s.adds|
    ensures |Step(s, j).adds| == |s.adds| && Epoch(Step(s, j)) == Epoch(s) && (Step(s, j).waiting ==> s.waiting)
    ensures Step(s, j).adds[a].epoch == s.adds[a].epoch
    ensures Step(s, j).waiting ==> Step(s, j).adds[a].told == s.adds[a].told
  {
    assert ActOk(s, j);
    assert s.acts[j].Take? ==> !s.waiting;
    hide Inv, NotToldEarly, ActOk, Chained;
    assert !s.acts[j].PresetTell?;
    var pc := s.acts[j];
    if pc.Tell? || pc.Take? {
    } else if pc.Create? || pc.Drop? {
    } else {
    }
  }

  lemma StepEntersNoPreset(s: List, j: nat)
    requires j < |s.acts| && s.acts[j] != Done && StepDefined(s, s.acts[j]) && !InPreset(s.acts[j]) && j < |Step(s, j).acts|
    ensures !InPreset(Step(s, j).acts[j])
  {
  }

  lemma MoveKeepsNotToldEarly(s: List, m: Move)
    requires Inv(s) && NotToldEarly(s) && Enabled(s, m) && !(m.Finish? && m.preset)
    ensures NotToldEarly(Apply(s, m))
  {
    match m
    case StartAdd(_) =>
    case Finish(_, _) =>
    case Reset =>
      forall a | 0 <= a < |s.adds| ensures s.adds[a].epoch < Epoch(Apply(s, Reset)) {
        assert AddOk(s, a);
      }
    case Advance(j) =>
      StepMovesOne(s, j);
      StepEntersNoPreset(s, j);
      hide Inv, Step;
      StepKeepsCalls(s, j);
      forall a | 0 <= a < |s.adds| && Step(s, j).waiting && Step(s, j).adds[a].epoch == Epoch(Step(s, j))
        ensures Step(s, j).adds[a].told.None?
      {
        StepKeepsUntold(s, j, a);
      }
  }

  lemma {:induction false} RunKeepsNotToldEarly(s: List, ms: seq<Move>, s': List)
    requires Inv(s) && NotToldEarly(s) && Run(s, ms, s')
    requires forall k :: 0 <= k < |ms| ==> !(ms[k].Finish? && ms[k].preset)
    ensures NotToldEarly(s')
    decreases |ms|
  {
    hide Inv, NotToldEarly, Apply, Enabled;
    if ms != [] {
      MoveKeepsInv(s, ms[0]);
      MoveKeepsNotToldEarly(s, ms[0]);
      RunKeepsNotToldEarly(Apply(s, ms[0]), ms[1..], s');
    }
  }

  /** When doneWaiting never presets, no task is given a failure while the list it was added to is waiting. */
  lemma NobodyToldWhileWaiting(size: nat, ms: seq<Move>, s: List, a: nat)
    requires Run(Init(size), ms, s) && (forall k :: 0 <= k < |ms| ==> !(ms[k].Finish? && ms[k].preset))
    requires a < |s.adds| && s.waiting && s.adds[a].epoch == Epoch(s)
    ensures s.adds[a].told.None?
  {
    RunKeepsNotToldEarly(Init(size), ms, s);
  }
}
