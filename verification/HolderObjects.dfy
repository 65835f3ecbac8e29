/** WaitingTask and WaitingTaskHolder as objects used by one thread: constructors, copies, moves, assignments. */
module WaitingTaskHolders {
  import opened Options

  type Failure = nat

  class WaitingTask {
    var refCount: nat
    var failure: Option<Failure>                // m_ptr together with m_ptrSet
    var spawned: nat                            // times given to task_group::run
    ghost var holders: set<WaitingTaskHolder>   // the holder objects that refer to this task
    ghost var nodes: nat                        // the list nodes that do

    ghost predicate Valid()
      reads this, holders
    {
      && refCount == |holders| + nodes
      && (forall h :: h in holders ==> h.task == this)
      && spawned <= 1 && (spawned == 1 ==> refCount == 0)
    }

    constructor ()
      ensures Valid() && refCount == 0 && holders == {} && nodes == 0 && spawned == 0 && failure.None?
    {
      refCount, failure, spawned, holders, nodes := 0, None, 0, {}, 0;
    }

    /** Only the first failure is kept. */
    method DependentTaskFailed(e: Failure)
      modifies this`failure
      ensures failure == if old(failure).None? then Some(e) else old(failure)
    {
      if failure.None? {
        failure := Some(e);
      }
    }

    /** decrement_ref_count, and run when it reaches 0. */
    method Decrement()
      requires refCount > 0
      modifies this`refCount, this`spawned
      ensures refCount == old(refCount) - 1
      ensures spawned == old(spawned) + if refCount == 0 then 1 else 0
    {
      refCount := refCount - 1;
      if refCount == 0 {
        spawned := spawned + 1;
      }
    }
  }

  /** One reference less, and the task is spawned if it was the last. */
  twostate predicate Lost(t: WaitingTask, h: WaitingTaskHolder)
    reads t
  {
    && t.holders == old(t.holders) - {h} && t.nodes == old(t.nodes)
    && t.refCount == old(t.refCount) - 1
    && t.spawned == old(t.spawned) + if t.refCount == 0 then 1 else 0
  }

  /** Only who holds the task may have changed. */
  twostate predicate SameButHolders(t: WaitingTask)
    reads t
  {
    && t.refCount == old(t.refCount) && t.spawned == old(t.spawned) && t.failure == old(t.failure)
    && t.nodes == old(t.nodes)
  }

  class WaitingTaskHolder {
    var task: WaitingTask?

    ghost predicate Valid()
      reads this, task, if task == null then {} else task.holders
    {
      task != null ==> task.Valid() && this in task.holders
    }

    constructor Empty()
      ensures task == null
    {
      task := null;
    }

    constructor Hold(t: WaitingTask)
      requires t.Valid() && t.spawned == 0
      modifies t`refCount, t`holders
      ensures task == t && Valid()
      ensures t.holders == old(t.holders) + {this} && t.refCount == old(t.refCount) + 1
    {
      task := t;
      new;
      t.refCount := t.refCount + 1;
      t.holders := t.holders + {this};
    }

    constructor CopyOf(h: WaitingTaskHolder)
      requires h.task != null && h.Valid()
      modifies h.task`refCount, h.task`holders
      ensures task == h.task == old(h.task) && Valid() && h.Valid()
      ensures task.holders == old(h.task.holders) + {this} && task.refCount == old(h.task.refCount) + 1
    {
      task := h.task;
      new;
      HeldIsCounted(h);
      task.refCount := task.refCount + 1;
      task.holders := task.holders + {this};
    }

    constructor MoveOf(h: WaitingTaskHolder)
      requires h.Valid()
      modifies h`task, if h.task == null then {} else {h.task}
      ensures task == old(h.task) && h.task == null && Valid()
      ensures task != null ==>
                && task.holders == old(h.task.holders) - {h} + {this}
                && task.refCount == old(h.task.refCount) && task.spawned == old(h.task.spawned)
                && task.failure == old(h.task.failure) && task.nodes == old(h.task.nodes)
    {
      task := h.task;
      new;
      if task != null {
        task.holders := task.holders - {h} + {this};
      }
      h.task := null;
    }

    /** The holder forgets the task before the decrement, because the task may run and reuse the holder. */
    method DoneWaiting(e: Option<Failure>)
      requires task != null && Valid()
      modifies this`task, task
      ensures task == null && old(task).Valid() && Lost(old(task), this)
      ensures old(task).failure == if old(task.failure).None? then e else old(task.failure)
    {
      if e.Some? {
        task.DependentTaskFailed(e.value);
      }
      HeldIsCounted(this);
      var t := task;
      task := null;
      t.holders := t.holders - {this};
      t.Decrement();
    }

    method Destroy()
      requires Valid()
      modifies this`task, if task == null then {} else {task}
      ensures task == null
      ensures old(task) != null ==> old(task).Valid() && Lost(old(task), this) && old(task).failure == old(task.failure)
    {
      if task != null {
        DoneWaiting(None);
      }
    }

    /** The reference passes to a list node. */
    method ReleaseNoDecrement() returns (t: WaitingTask)
      requires task != null && Valid()
      modifies this`task, task`holders, task`nodes
      ensures t == old(task) && task == null && t.Valid()
      ensures t.holders == old(task.holders) - {this} && t.nodes == old(task.nodes) + 1
      ensures t.refCount == old(task.refCount)
    {
      t := task;
      task := null;
      t.holders := t.holders - {this};
      t.nodes := t.nodes + 1;
    }

    method Swap(h: WaitingTaskHolder)
      requires Valid() && h.Valid() && h != this
      modifies this`task, h`task
      modifies if task == null then {} else {task}, if h.task == null then {} else {h.task}
      ensures task == old(h.task) && h.task == old(task) && Valid() && h.Valid()
      ensures old(task) != null ==> SameButHolders(old(task))
      ensures old(h.task) != null ==> SameButHolders(old(h.task))
      ensures old(task) != null && old(task) != old(h.task) ==> old(task).holders == old(task.holders) - {this} + {h}
      ensures old(h.task) != null && old(task) != old(h.task) ==> old(h.task).holders == old(h.task.holders) - {h} + {this}
      ensures old(task) != null && old(task) == old(h.task) ==> old(task).holders == old(task.holders)
    {
      var a, b := task, h.task;
      if a != b {
        if a != null {
          a.holders := a.holders - {this} + {h};
        }
        if b != null {
          b.holders := b.holders - {h} + {this};
        }
        task, h.task := b, a;
      }
    }

    /** The tail of both assignments: swap with the temporary, whose destructor then drops the old reference. */
    method TakeOver(tmp: WaitingTaskHolder)
      requires Valid() && tmp.Valid() && tmp != this
      modifies this`task, tmp`task
      modifies if task == null then {} else {task}, if tmp.task == null then {} else {tmp.task}
      ensures task == old(tmp.task) && tmp.task == null && Valid()
      ensures old(task) != null && old(task) == old(tmp.task) ==> Lost(task, tmp)
      ensures old(task) != null && old(task) != old(tmp.task) ==> old(task).Valid() && Lost(old(task), this)
      ensures task != null && old(task) != old(tmp.task) ==>
                SameButHolders(task) && task.holders == old(tmp.task.holders) - {tmp} + {this}
    {
      Swap(tmp);
      tmp.Destroy();
      assert old(task) != null && old(task) != old(tmp.task) ==>
          old(task).holders == old(task.holders) - {this} + {tmp} - {tmp};
    }

    /** Copy assignment, also from itself: the other holder keeps its task, and the old task loses one reference. */
    method CopyAssign(rhs: WaitingTaskHolder)
      requires rhs.task != null && Valid() && rhs.Valid()
      modifies this`task, rhs.task, if task == null then {} else {task}
      ensures task == rhs.task == old(rhs.task) && Valid()
      ensures old(task) == task ==> task.refCount == old(task.refCount) && task.holders == old(task.holders)
      ensures old(task) != task ==>
                task.refCount == old(rhs.task.refCount) + 1 && task.holders == old(rhs.task.holders) + {this}
      ensures old(task) != null && old(task) != task ==> old(task).Valid() && Lost(old(task), this)
    {
      var tmp := new WaitingTaskHolder.CopyOf(rhs);
      TakeOver(tmp);
    }

    /** Move assignment, also from itself: the other holder gives its reference up. */
    method MoveAssign(rhs: WaitingTaskHolder)
      requires Valid() && rhs.Valid()
      modifies this`task, rhs`task
      modifies if task == null then {} else {task}, if rhs.task == null then {} else {rhs.task}
      ensures task == old(rhs.task) && Valid() && (rhs != this ==> rhs.task == null)
      ensures rhs == this && task != null ==>
                task.refCount == old(task.refCount) && task.holders == old(task.holders)
      ensures rhs != this && old(task) == task && task != null ==>
                task.refCount == old(task.refCount) - 1 && task.holders == old(task.holders) - {rhs}
      ensures old(task) != task && task != null ==>
                task.refCount == old(rhs.task.refCount) && task.holders == old(rhs.task.holders) - {rhs} + {this}
      ensures old(task) != null && old(task) != task ==> old(task).Valid() && Lost(old(task), this)
    {
      var tmp := new WaitingTaskHolder.MoveOf(rhs);
      TakeOver(tmp);
    }
  }

  lemma HeldIsCounted(h: WaitingTaskHolder)
    requires h.task != null && h.Valid()
    ensures h.task.refCount > 0 && h.task.spawned == 0
  {
    assert h.task.holders != {};
  }
}
