/** The queue as an object: the member functions run by one thread with no interference. */
module SerialTaskQueues {
  import opened Options
  import opened SerialTaskQueueProtocol

  /** pickNextTask run by itself: the final fields and the result. */
  function PickAlone(sh: Shared): (Shared, Option<Task>) {
    if sh.pauseCount != 0 || sh.chosen || sh.tasks == [] then (sh, None)
    else (sh.(tasks := sh.tasks[1..], chosen := true), Some(sh.tasks[0]))
  }

  /** The accesses of one activity in a row, with no other activity moving, until it leaves pickNextTask. */
  function PickStepByStep(sh: Shared, pc: PC): (Shared, Option<Task>)
    requires InPick(pc) && (pc.Check? || pc.Spin? ==> !sh.picking)
    decreases if pc.Release? then 0 else Weight(pc)
  {
    var (sh', pc') := PickStep(sh, pc);
    if pc.Release? then (sh', pc.got)
    else if pc'.Done? then (sh', None)
    else PickStepByStep(sh', pc')
  }

  /** The six-access protocol and the straight-line reading agree when nobody interferes. */
  lemma StepByStepIsPickAlone(sh: Shared, c: Context)
    requires !sh.picking
    ensures PickStepByStep(sh, Check(c)) == PickAlone(sh)
  {
    if sh.pauseCount == 0 {
      var taken := sh.(picking := true);
      if !sh.chosen {
        var chosen := taken.(chosen := true);
        if sh.tasks == [] {
          assert PickStepByStep(chosen, Unchoose(c)) == (sh, None);
        } else {
          var popped := chosen.(tasks := sh.tasks[1..]);
          assert PickStepByStep(popped, Release(c, Some(sh.tasks[0]))).1 == Some(sh.tasks[0]);
        }
        assert PickStepByStep(chosen, Pop(c)) == PickAlone(sh);
      }
      assert PickStepByStep(taken, Choose(c)) == PickAlone(sh);
    }
  }

  class SerialTaskQueue {
    var tasks: seq<Task>
    var pauseCount: nat
    var taskChosen: bool
    var pickingNextTask: bool
    var spawned: seq<Task>  // tasks given to task_group::run

    ghost function Fields(): Shared
      reads this
    {
      Shared(tasks, pauseCount, taskChosen, pickingNextTask)
    }

    constructor ()
      ensures Fields() == INIT.sh && spawned == []
    {
      tasks, pauseCount, taskChosen, pickingNextTask, spawned := [], 0, false, false, [];
    }

    predicate IsPaused()
      reads this
    {
      pauseCount != 0
    }

    method Pause() returns (first: bool)
      modifies this`pauseCount
      ensures pauseCount == old(pauseCount) + 1
      ensures first == !old(IsPaused())
    {
      pauseCount := pauseCount + 1;
      first := pauseCount == 1;
    }

    method Resume() returns (restarted: bool)
      requires IsPaused() && !pickingNextTask
      modifies this
      ensures restarted == !IsPaused()
      ensures var lowered := old(Fields()).(pauseCount := old(pauseCount) - 1);
              var (after, got) := PickAlone(lowered);
              Fields() == after && spawned == old(spawned) + AsSeq(got)
    {
      pauseCount := pauseCount - 1;
      if pauseCount == 0 {
        var t := PickNextTask();
        if t.Some? {
          Spawn(t.value);
        }
        return true;
      }
      return false;
    }

    method Spawn(t: Task)
      modifies this`spawned
      ensures spawned == old(spawned) + [t]
    {
      spawned := spawned + [t];
    }

    method PushTask(t: Task)
      requires !pickingNextTask
      modifies this
      ensures var (after, got) := PickAlone(old(Fields()).(tasks := old(tasks) + [t]));
              Fields() == after && spawned == old(spawned) + AsSeq(got)
    {
      var next := PushAndGetNextTask(Some(t));
      if next.Some? {
        Spawn(next.value);
      }
    }

    method PushAndGetNextTask(t: Option<Task>) returns (next: Option<Task>)
      requires !pickingNextTask
      modifies this`tasks, this`taskChosen, this`pickingNextTask
      ensures t.None? ==> Fields() == old(Fields()) && next.None?
      ensures t.Some? ==> (Fields(), next) == PickAlone(old(Fields()).(tasks := old(tasks) + [t.value]))
    {
      next := None;
      if t.Some? {
        tasks := tasks + [t.value];
        next := PickNextTask();
      }
    }

    method FinishedTask() returns (next: Option<Task>)
      requires !pickingNextTask
      modifies this`tasks, this`taskChosen, this`pickingNextTask
      ensures (Fields(), next) == PickAlone(old(Fields()).(chosen := false))
    {
      taskChosen := false;
      next := PickNextTask();
    }

    /** With nobody else picking, the compare-exchange of the spin loop succeeds at once. */
    method PickNextTask() returns (next: Option<Task>)
      requires !pickingNextTask
      modifies this`tasks, this`taskChosen, this`pickingNextTask
      ensures (Fields(), next) == PickAlone(old(Fields()))
    {
      if pauseCount != 0 {
        return None;
      }
      pickingNextTask := true;
      next := None;
      if !taskChosen {
        taskChosen := true;
        if tasks != [] {
          next := Some(tasks[0]);
          tasks := tasks[1..];
        } else {
          taskChosen := false;
        }
      }
      pickingNextTask := false;
    }

    /** The runner lambda of spawn: executes tasks of its own group, and hands the token on otherwise. */
    method RunTasks(first: Task) returns (executed: seq<Task>)
      requires taskChosen && !pickingNextTask
      modifies this
      ensures pauseCount == old(pauseCount) && !pickingNextTask
      ensures first in executed && forall t :: t in executed ==> t.group == first.group
      ensures old(spawned) <= spawned
      ensures var handed := spawned[|old(spawned)|..];
              && |handed| <= 1
              && [first] + old(tasks) == executed + handed + tasks
              && (taskChosen <==> handed != [])
              && (handed != [] ==> handed[0].group != first.group)
              && (handed == [] ==> IsPaused() || tasks == [])
      ensures IsPaused() ==> executed == [first] && tasks == old(tasks)
    {
      var t := Some(first);
      executed := [];
      while t.Some?
        invariant pauseCount == old(pauseCount) && !pickingNextTask
        invariant old(spawned) <= spawned && |spawned| <= |old(spawned)| + 1
        invariant [first] + old(tasks) == executed + AsSeq(t) + spawned[|old(spawned)|..] + tasks
        invariant forall x :: x in executed ==> x.group == first.group
        invariant t.Some? ==> taskChosen && t.value.group == first.group && spawned == old(spawned)
        invariant if executed == [] then t == Some(first) && tasks == old(tasks) else executed[0] == first
        invariant t.None? ==> executed != []
        invariant t.None? ==> (taskChosen <==> |spawned| > |old(spawned)|)
        invariant |spawned| > |old(spawned)| ==> spawned[|old(spawned)|].group != first.group
        invariant t.None? && spawned == old(spawned) ==> IsPaused() || tasks == []
        invariant IsPaused() && executed != [] ==> t.None? && executed == [first] && tasks == old(tasks)
        decreases |tasks|, |AsSeq(t)|
      {
        executed := executed + [t.value];
        t := FinishedTask();
        if t.Some? && t.value.group != first.group {
          Spawn(t.value);
          t := None;
        }
      }
    }
  }
}
