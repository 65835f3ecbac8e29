/** The Option type shared by the models. */
module Options {
  datatype Option<+T> = None | Some(value: T)
}

/**
  The token and spin protocol of SerialTaskQueue, one atomic access per step.

  An activity is one call in progress (a push, a resume) or one runner lambda started by `spawn`;
  there may be any number of them and they interleave freely.  A caller has nothing left to do once
  it has handed its task to `task_group::run`, so the runner it creates inherits its activity number.
 */
module SerialTaskQueueProtocol {
  import opened Options

  datatype Task = Task(id: nat, group: nat)

  /** Who called pickNextTask: a push or resume, or the runner loop of some group. */
  datatype Context = Caller | Runner(group: nat)

  /** The program counter of an activity: the access it is about to make. */
  datatype PC =
    | Check(ctx: Context)                        // reads m_pauseCount
    | Spin(ctx: Context)                         // compare-exchange on m_pickingNextTask
    | Choose(ctx: Context)                       // compare-exchange on m_taskChosen
    | Pop(ctx: Context)                          // m_tasks.try_pop
    | Unchoose(ctx: Context)                     // m_taskChosen.store(false) after a failed pop
    | Release(ctx: Context, got: Option<Task>)   // the sentry stores false to m_pickingNextTask
    | Spawn(task: Task)                          // task_group::run
    | Ready(task: Task)                          // a runner waiting for a thread of its group
    | Running(task: Task, group: nat)            // execute() in a thread of the group
    | Finishing(group: nat)                      // m_taskChosen.store(false) in finishedTask
    | Done

  /** The atomic fields of the queue. */
  datatype Shared = Shared(tasks: seq<Task>, pauseCount: nat, chosen: bool, picking: bool)

  /** The whole system.  The last four fields record history and steer nothing. */
  datatype Queue = Queue(
    sh: Shared,
    acts: seq<PC>,
    pushed: seq<Task>,
    current: Option<Task>,
    started: seq<Task>,
    finished: seq<Task>)

  const INIT := Queue(Shared([], 0, false, false), [], [], None, [], [])

  datatype Move = Push(task: Task) | Pause | Resume | Advance(act: nat)

  /** A resume must balance an earlier pause; everything else is always allowed. */
  predicate Enabled(q: Queue, m: Move) {
    match m
    case Push(_) => true
    case Pause => true
    case Resume => q.sh.pauseCount > 0
    case Advance(i) => i < |q.acts| && q.acts[i] != Done
  }

  predicate InPick(pc: PC) {
    pc.Check? || pc.Spin? || pc.Choose? || pc.Pop? || pc.Unchoose? || pc.Release?
  }

  /** What a caller of pickNextTask does with the result. */
  function Returned(ctx: Context, got: Option<Task>): PC {
    match (ctx, got)
    case (_, None) => Done
    case (Caller, Some(t)) => Spawn(t)
    case (Runner(g), Some(t)) => if t.group == g then Running(t, g) else Spawn(t)
  }

  /** One access of pickNextTask: the new fields and the new program counter. */
  function PickStep(sh: Shared, pc: PC): (r: (Shared, PC))
    requires InPick(pc)
  {
    match pc
    case Check(c) => (sh, if sh.pauseCount != 0 then Done else Spin(c))
    case Spin(c) => if sh.picking then (sh, pc) else (sh.(picking := true), Choose(c))
    case Choose(c) => if sh.chosen then (sh, Release(c, None)) else (sh.(chosen := true), Pop(c))
    case Pop(c) =>
      if sh.tasks == [] then (sh, Unchoose(c))
      else (sh.(tasks := sh.tasks[1..]), Release(c, Some(sh.tasks[0])))
    case Unchoose(c) => (sh.(chosen := false), Release(c, None))
    case Release(c, got) => (sh.(picking := false), Returned(c, got))
  }

  function Step(q: Queue, i: nat): Queue
    requires Enabled(q, Advance(i))
  {
    var pc := q.acts[i];
    if InPick(pc) then
      var (sh', pc') := PickStep(q.sh, pc);
      q.(sh := sh', acts := q.acts[i := pc'],
         current := if pc.Pop? && q.sh.tasks != [] then Some(q.sh.tasks[0]) else q.current,
         started := if pc'.Running? then q.started + [pc'.task] else q.started)
    else match pc
      case Spawn(t) => q.(acts := q.acts[i := Ready(t)])
      case Ready(t) => q.(acts := q.acts[i := Running(t, t.group)], started := q.started + [t])
      case Running(t, g) =>
        q.(acts := q.acts[i := Finishing(g)], current := None, finished := q.finished + [t])
      case Finishing(g) => q.(sh := q.sh.(chosen := false), acts := q.acts[i := Check(Runner(g))])
  }

  function Apply(q: Queue, m: Move): Queue
    requires Enabled(q, m)
  {
    match m
    case Push(t) =>
      q.(sh := q.sh.(tasks := q.sh.tasks + [t]), acts := q.acts + [Check(Caller)], pushed := q.pushed + [t])
    case Pause => q.(sh := q.sh.(pauseCount := q.sh.pauseCount + 1))
    case Resume =>
      var q' := q.(sh := q.sh.(pauseCount := q.sh.pauseCount - 1));
      if q'.sh.pauseCount == 0 then q'.(acts := q.acts + [Check(Caller)]) else q'
    case Advance(i) => Step(q, i)
  }

  // ----- The invariant -----

  /** Between winning and clearing m_pickingNextTask. */
  predicate Picking(pc: PC) {
    pc.Choose? || pc.Pop? || pc.Unchoose? || pc.Release?
  }

  /** Owns the "task chosen" token. */
  predicate Holds(pc: PC) {
    pc.Pop? || pc.Unchoose? || HasTask(pc) || pc.Finishing?
  }

  predicate HasTask(pc: PC) {
    (pc.Release? && pc.got.Some?) || pc.Spawn? || pc.Ready? || pc.Running?
  }

  function HeldTask(pc: PC): Task
    requires HasTask(pc)
  {
    if pc.Release? then pc.got.value else pc.task
  }

  /** Will still look at the FIFO after this point, or is about to free the token and then look. */
  predicate WillLook(pc: PC) {
    pc.Check? || pc.Spin? || pc.Choose? || pc.Pop? || HasTask(pc) || pc.Finishing?
  }

  function AsSeq<T>(o: Option<T>): seq<T> {
    if o.None? then [] else [o.value]
  }

  /** At most one activity is picking, and the flag says whether one does. */
  ghost predicate OnePicks(q: Queue) {
    && (forall i, j :: 0 <= i < |q.acts| && 0 <= j < |q.acts| && Picking(q.acts[i]) && Picking(q.acts[j]) ==> i == j)
    && (q.sh.picking <==> exists i :: 0 <= i < |q.acts| && Picking(q.acts[i]))
  }

  /** At most one activity holds the token, and the flag says whether one does. */
  ghost predicate OneHolds(q: Queue) {
    && (forall i, j :: 0 <= i < |q.acts| && 0 <= j < |q.acts| && Holds(q.acts[i]) && Holds(q.acts[j]) ==> i == j)
    && (q.sh.chosen <==> exists i :: 0 <= i < |q.acts| && Holds(q.acts[i]))
  }

  ghost predicate Exclusion(q: Queue) {
    OnePicks(q) && OneHolds(q)
  }

  /** finished ++ chosen ++ queued is the push order. */
  predicate Conserved(q: Queue) {
    q.pushed == q.finished + AsSeq(q.current) + q.sh.tasks
  }

  /** The chosen task is exactly the one the token holder carries. */
  ghost predicate ChosenIsHeld(q: Queue) {
    && (forall i :: 0 <= i < |q.acts| && HasTask(q.acts[i]) ==> q.current == Some(HeldTask(q.acts[i])))
    && (q.current.Some? ==> exists i :: 0 <= i < |q.acts| && HasTask(q.acts[i]))
  }

  /** The started tasks are the finished ones and the one running, which runs in its own group. */
  ghost predicate StartedInOrder(q: Queue) {
    && (forall i :: 0 <= i < |q.acts| && q.acts[i].Running? ==>
          q.started == q.finished + [q.acts[i].task] && q.acts[i].task.group == q.acts[i].group)
    && (q.started == q.finished || exists i :: 0 <= i < |q.acts| && q.acts[i].Running?)
  }

  /** A non-empty unpaused queue always has an activity that will look at it. */
  ghost predicate NoLostWakeup(q: Queue) {
    q.sh.tasks != [] && q.sh.pauseCount == 0 ==> exists i :: 0 <= i < |q.acts| && WillLook(q.acts[i])
  }

  ghost predicate Inv(q: Queue) {
    Exclusion(q) && Conserved(q) && ChosenIsHeld(q) && StartedInOrder(q) && NoLostWakeup(q)
  }

  lemma StepKeepsOnePick(q: Queue, i: nat)
    requires OnePicks(q) && Enabled(q, Advance(i))
    ensures OnePicks(Step(q, i))
  {
    var q' := Step(q, i);
    assert forall j :: 0 <= j < |q.acts| && j != i ==> q'.acts[j] == q.acts[j];
    if q'.sh.picking && !Picking(q'.acts[i]) {
      var j :| 0 <= j < |q.acts| && Picking(q.acts[j]);
      assert Picking(q'.acts[j]);
    }
  }

  lemma StepKeepsOneHolder(q: Queue, i: nat)
    requires OneHolds(q) && Enabled(q, Advance(i))
    ensures OneHolds(Step(q, i))
  {
    var q' := Step(q, i);
    assert forall j :: 0 <= j < |q.acts| && j != i ==> q'.acts[j] == q.acts[j];
    if q'.sh.chosen && !Holds(q'.acts[i]) {
      var j :| 0 <= j < |q.acts| && Holds(q.acts[j]);
      assert Holds(q'.acts[j]);
    }
  }

  lemma StepKeepsChosen(q: Queue, i: nat)
    requires Exclusion(q) && ChosenIsHeld(q) && Enabled(q, Advance(i))
    ensures ChosenIsHeld(Step(q, i))
  {
    var q' := Step(q, i);
    assert q'.acts[i] == q'.acts[i];
    forall j | 0 <= j < |q.acts| && j != i && HasTask(q'.acts[j])
      ensures q'.current == Some(HeldTask(q'.acts[j]))
    {
      assert Holds(q.acts[j]) && !Holds(q.acts[i]);
    }
    if q.current.Some? && !HasTask(q.acts[i]) {
      var j :| 0 <= j < |q.acts| && HasTask(q.acts[j]);
      assert HasTask(q'.acts[j]);
    }
  }

  lemma StepKeepsStarted(q: Queue, i: nat)
    requires Exclusion(q) && StartedInOrder(q) && Enabled(q, Advance(i))
    ensures StartedInOrder(Step(q, i))
  {
    var q' := Step(q, i);
    assert q'.acts[i] == q'.acts[i];
    forall j | 0 <= j < |q.acts| && j != i && q'.acts[j].Running?
      ensures q'.started == q.started && q'.finished == q.finished && q.acts[j] == q'.acts[j]
    {
      assert Holds(q.acts[j]) && !Holds(q.acts[i]);
    }
    if q.started != q.finished && !q.acts[i].Running? {
      var j :| 0 <= j < |q.acts| && q.acts[j].Running?;
      assert q'.acts[j].Running?;
    }
  }

  lemma StepKeepsConserved(q: Queue, i: nat)
    requires Exclusion(q) && ChosenIsHeld(q) && Conserved(q) && Enabled(q, Advance(i))
    ensures Conserved(Step(q, i))
  {
    // an activity at try_pop owns the token, so nobody carries a task
    assert forall j :: 0 <= j < |q.acts| ==> HasTask(q.acts[j]) ==> Holds(q.acts[j]);
    assert q.acts[i].Pop? ==> Holds(q.acts[i]);
  }

  lemma StepKeepsWakeup(q: Queue, i: nat)
    requires Exclusion(q) && NoLostWakeup(q) && Enabled(q, Advance(i))
    ensures NoLostWakeup(Step(q, i))
  {
    var q' := Step(q, i);
    assert forall j :: 0 <= j < |q.acts| && j != i ==> q'.acts[j] == q.acts[j];
    if q'.sh.tasks != [] && q'.sh.pauseCount == 0 && !WillLook(q'.acts[i]) {
      if q.acts[i].Choose? {
        // the token is taken, and not by a picker: only this activity may be picking
        var j :| 0 <= j < |q.acts| && Holds(q.acts[j]);
        assert WillLook(q'.acts[j]);
      } else {
        var j :| 0 <= j < |q.acts| && WillLook(q.acts[j]);
        assert WillLook(q'.acts[j]);
      }
    }
  }

  /** A new activity about to check the counter changes nothing for the others. */
  lemma NewPickKeepsInv(q: Queue, q': Queue)
    requires Inv(q) && q' == q.(acts := q.acts + [Check(Caller)], sh := q'.sh, pushed := q'.pushed)
    requires q'.sh.picking == q.sh.picking && q'.sh.chosen == q.sh.chosen && Conserved(q')
    ensures Inv(q')
  {
    NewPickKeepsExclusion(q, q');
    assert forall j :: 0 <= j < |q.acts| ==> q'.acts[j] == q.acts[j];
    assert q'.acts[|q.acts|] == Check(Caller);
    assert WillLook(q'.acts[|q.acts|]);
    hide OnePicks, OneHolds;
  }

  lemma NewPickKeepsExclusion(q: Queue, q': Queue)
    requires Exclusion(q) && q'.acts == q.acts + [Check(Caller)]
    requires q'.sh.picking == q.sh.picking && q'.sh.chosen == q.sh.chosen
    ensures Exclusion(q')
  {
    assert forall j :: 0 <= j < |q.acts| ==> q'.acts[j] == q.acts[j];
    assert q'.acts[|q.acts|] == Check(Caller);
  }

  lemma ResumeKeepsInv(q: Queue)
    requires Inv(q) && Enabled(q, Resume)
    ensures Inv(Apply(q, Resume))
  {
    if q.sh.pauseCount == 1 {
      NewPickKeepsInv(q, Apply(q, Resume));
    }
  }

  lemma StepKeepsInv(q: Queue, i: nat)
    requires Inv(q) && Enabled(q, Advance(i))
    ensures Inv(Step(q, i))
  {
    StepKeepsOnePick(q, i);
    StepKeepsOneHolder(q, i);
    StepKeepsChosen(q, i);
    StepKeepsStarted(q, i);
    StepKeepsConserved(q, i);
    StepKeepsWakeup(q, i);
  }

  /** Every move of every activity keeps the invariant. */
  lemma MoveKeepsInv(q: Queue, m: Move)
    requires Inv(q) && Enabled(q, m)
    ensures Inv(Apply(q, m))
  {
    match m
    case Advance(i) => StepKeepsInv(q, i);
    case Push(t) => NewPickKeepsInv(q, Apply(q, m));
    case Pause =>
    case Resume => ResumeKeepsInv(q);
  }

  // ----- Whole runs -----

  ghost predicate Run(q: Queue, ms: seq<Move>, q': Queue)
    decreases |ms|
  {
    if ms == [] then q == q' else Enabled(q, ms[0]) && Run(Apply(q, ms[0]), ms[1..], q')
  }

  ghost predicate Reachable(q: Queue) {
    exists ms :: Run(INIT, ms, q)
  }

  lemma {:induction false} RunKeepsInv(q: Queue, ms: seq<Move>, q': Queue)
    requires Inv(q) && Run(q, ms, q')
    ensures Inv(q')
    decreases |ms|
  {
    if ms != [] {
      MoveKeepsInv(q, ms[0]);
      RunKeepsInv(Apply(q, ms[0]), ms[1..], q');
    }
  }

  lemma ReachableInv(q: Queue)
    requires Reachable(q)
    ensures Inv(q)
  {
    var ms :| Run(INIT, ms, q);
    RunKeepsInv(INIT, ms, q);
  }

  /** No activity is in the middle of anything. */
  ghost predicate Quiescent(q: Queue) {
    forall i :: 0 <= i < |q.acts| ==> q.acts[i] == Done
  }

  // ----- Progress -----

  /** What an activity can still cost. */
  function Weight(pc: PC): nat {
    match pc
    case Check(_) => 6
    case Spin(_) => 5
    case Choose(_) => 4
    case Pop(_) => 3
    case Unchoose(_) => 2
    case Release(_, got) => if got.Some? then 11 else 1
    case Spawn(_) => 10
    case Ready(_) => 9
    case Running(_, _) => 8
    case Finishing(_) => 7
    case Done => 0
  }

  function TotalWeight(acts: seq<PC>): nat {
    if acts == [] then 0 else TotalWeight(acts[..|acts| - 1]) + Weight(acts[|acts| - 1])
  }

  lemma {:induction false} TotalWeightUpdate(acts: seq<PC>, i: nat, pc: PC)
    requires i < |acts|
    ensures TotalWeight(acts[i := pc]) == TotalWeight(acts) - Weight(acts[i]) + Weight(pc)
  {
    var n := |acts| - 1;
    if i < n {
      assert acts[i := pc][..n] == acts[..n][i := pc];
      TotalWeightUpdate(acts[..n], i, pc);
    } else {
      assert acts[i := pc][..n] == acts[..n];
    }
  }

  lemma {:induction false} ZeroWeight(acts: seq<PC>, i: nat)
    requires i < |acts|
    ensures Weight(acts[i]) <= TotalWeight(acts)
  {
    if i < |acts| - 1 {
      ZeroWeight(acts[..|acts| - 1], i);
    }
  }

  function Rank(q: Queue): nat {
    9 * |q.sh.tasks| + TotalWeight(q.acts)
  }

  /** An access that is not a failed turn of the spin loop. */
  predicate Productive(q: Queue, i: nat) {
    Enabled(q, Advance(i)) && !(q.acts[i].Spin? && q.sh.picking)
  }

  lemma ProductiveStepDecreases(q: Queue, i: nat)
    requires Productive(q, i)
    ensures Rank(Step(q, i)) < Rank(q)
  {
    TotalWeightUpdate(q.acts, i, Step(q, i).acts[i]);
    assert Step(q, i).acts == q.acts[i := Step(q, i).acts[i]];
  }

  /** Nothing can block: if any activity is unfinished, some activity has a step that is not spinning. */
  lemma HelpingStepExists(q: Queue) returns (i: nat)
    requires Inv(q) && !Quiescent(q)
    ensures Productive(q, i)
  {
    i :| 0 <= i < |q.acts| && q.acts[i] != Done;
    if q.acts[i].Spin? && q.sh.picking {
      i :| 0 <= i < |q.acts| && Picking(q.acts[i]);
    }
  }
}
