/**
  The waiting task list as an object used by one thread: nodes linked in place, taken from a cache or made anew, and the
  loops that walk them.  Tasks are numbered; a task may be added more than once.
 */
module WaitingTaskListObject {
  import opened Options

  type Failure = nat

  datatype Task = Task(refs: nat, failure: Option<Failure>, spawned: nat)

  /** dependentTaskFailed */
  function Told(t: Task, e: Option<Failure>): Task {
    if t.failure.None? then t.(failure := e) else t
  }

  function Held(t: Task): Task {
    t.(refs := t.refs + 1)
  }

  /** decrement_ref_count, and run at 0. */
  function Dropped(t: Task): Task {
    if t.refs == 0 then t else t.(refs := t.refs - 1, spawned := if t.refs == 1 then t.spawned + 1 else t.spawned)
  }

  function TellAll(tasks: seq<Task>, ids: seq<nat>, e: Option<Failure>): (r: seq<Task>)
    requires forall k :: 0 <= k < |ids| ==> ids[k] < |tasks|
    ensures |r| == |tasks|
  {
    if ids == [] then tasks
    else
      var s := TellAll(tasks, ids[..|ids| - 1], e);
      var i := ids[|ids| - 1];
      s[i := Told(s[i], e)]
  }

  function ReleaseAll(tasks: seq<Task>, ids: seq<nat>, e: Option<Failure>): (r: seq<Task>)
    requires forall k :: 0 <= k < |ids| ==> ids[k] < |tasks|
    ensures |r| == |tasks|
  {
    if ids == [] then tasks
    else
      var s := ReleaseAll(tasks, ids[..|ids| - 1], e);
      var i := ids[|ids| - 1];
      s[i := Dropped(Told(s[i], e))]
  }

  lemma ReleaseNone(tasks: seq<Task>, ids: seq<nat>, e: Option<Failure>)
    requires ids == []
    ensures ReleaseAll(tasks, ids, e) == tasks
  {
  }

  lemma ReleaseOneMore(tasks: seq<Task>, ids: seq<nat>, k: nat, e: Option<Failure>)
    requires k < |ids| && forall j :: 0 <= j < |ids| ==> ids[j] < |tasks|
    ensures var s := ReleaseAll(tasks, ids[..k], e);
            ReleaseAll(tasks, ids[..k + 1], e) == s[ids[k] := Dropped(Told(s[ids[k]], e))]
  {
    assert ids[..k + 1][..k] == ids[..k];
  }

  lemma ToldNothing(t: Task)
    ensures Told(t, None) == t
  {
  }

  function Times(ids: seq<nat>, t: nat): nat {
    if ids == [] then 0 else Times(ids[..|ids| - 1], t) + if ids[|ids| - 1] == t then 1 else 0
  }

  /** Each task loses as many references as it has nodes, is told the failure once it has one, and is spawned exactly if
      these were its last references. */
  lemma {:induction false} ReleaseAllReleases(tasks: seq<Task>, ids: seq<nat>, e: Option<Failure>, t: nat)
    requires forall k :: 0 <= k < |ids| ==> ids[k] < |tasks|
    requires t < |tasks| && Times(ids, t) <= tasks[t].refs
    ensures var x, y := tasks[t], ReleaseAll(tasks, ids, e)[t];
            && y.refs == x.refs - Times(ids, t)
            && y.failure == (if Times(ids, t) > 0 && x.failure.None? then e else x.failure)
            && y.spawned == x.spawned + (if Times(ids, t) > 0 && Times(ids, t) == x.refs then 1 else 0)
  {
    if ids != [] {
      ReleaseAllReleases(tasks, ids[..|ids| - 1], e, t);
    }
  }

  lemma {:induction false} TellAllTells(tasks: seq<Task>, ids: seq<nat>, e: Option<Failure>, t: nat)
    requires forall k :: 0 <= k < |ids| ==> ids[k] < |tasks|
    requires t < |tasks|
    ensures TellAll(tasks, ids, e)[t] == if Times(ids, t) > 0 && tasks[t].failure.None? then tasks[t].(failure := e) else tasks[t]
  {
    if ids != [] {
      TellAllTells(tasks, ids[..|ids| - 1], e, t);
    }
  }

  lemma {:induction false} FailureStays(tasks: seq<Task>, ids: seq<nat>, e: Option<Failure>, t: nat)
    requires forall k :: 0 <= k < |ids| ==> ids[k] < |tasks|
    requires t < |tasks| && tasks[t].failure.Some?
    ensures ReleaseAll(tasks, ids, e)[t].failure == tasks[t].failure
  {
    if ids != [] {
      FailureStays(tasks, ids[..|ids| - 1], e, t);
    }
  }

  /** A failure preset for the tasks in the list, and whatever is released later with whatever else: a task that was in
      the list keeps the preset failure, or the one it had before that. */
  lemma PresetFailureStays(tasks: seq<Task>, ids: seq<nat>, preset: Failure, later: seq<nat>, e: Option<Failure>, t: nat)
    requires forall k :: 0 <= k < |ids| ==> ids[k] < |tasks|
    requires forall k :: 0 <= k < |later| ==> later[k] < |tasks|
    requires t < |tasks|
    ensures var y := ReleaseAll(TellAll(tasks, ids, Some(preset)), later, e)[t];
            && (Times(ids, t) > 0 && tasks[t].failure.None? ==> y.failure == Some(preset))
            && (tasks[t].failure.Some? ==> y.failure == tasks[t].failure)
  {
    var told := TellAll(tasks, ids, Some(preset));
    TellAllTells(tasks, ids, Some(preset), t);
    if told[t].failure.Some? {
      FailureStays(told, later, e, t);
    }
  }

  class WaitNode {
    var task: nat
    var next: WaitNode?
    const fromCache: bool

    constructor (fromCache: bool)
      ensures this.fromCache == fromCache
    {
      this.fromCache := fromCache;
      task, next := 0, null;
    }
  }

  ghost function After(nodes: seq<WaitNode>, k: nat): WaitNode? {
    if k + 1 < |nodes| then nodes[k + 1] else null
  }

  class WaitingTaskList {
    var head: WaitNode?
    var nodeCache: array<WaitNode?>
    var lastAssignedCacheIndex: nat
    var waiting: bool
    var exceptionPtr: Option<Failure>
    var tasks: seq<Task>
    ghost var nodes: seq<WaitNode>  // the nodes from the head on
    ghost var ids: seq<nat>         // and their tasks, the last added first

    ghost predicate Linked()
      reads this, nodes
    {
      && head == (if nodes == [] then null else nodes[0])
      && (forall k {:trigger nodes[k]} :: 0 <= k < |nodes| ==> nodes[k].next == After(nodes, k))
      && |ids| == |nodes| && (forall k :: 0 <= k < |nodes| ==> nodes[k].task == ids[k] < |tasks|)
      && (forall j, k :: 0 <= j < k < |nodes| ==> nodes[j] != nodes[k])
    }

    ghost predicate CacheOk()
      reads this, nodeCache
    {
      && (forall i :: 0 <= i < nodeCache.Length ==> nodeCache[i] != null && nodeCache[i].fromCache)
      && (forall i, j :: 0 <= i < j < nodeCache.Length ==> nodeCache[i] != nodeCache[j])
      && (forall i :: lastAssignedCacheIndex <= i < nodeCache.Length ==> nodeCache[i] !in nodes)
    }

    ghost predicate Valid()
      reads this, nodes, nodeCache
    {
      Linked() && CacheOk() && (!waiting ==> nodes == [])
    }

    constructor (initialSize: nat, tasks: seq<Task>)
      ensures Valid() && waiting && ids == [] && this.tasks == tasks
      ensures nodeCache.Length == initialSize && lastAssignedCacheIndex == 0 && fresh(nodeCache)
    {
      head, lastAssignedCacheIndex, waiting, exceptionPtr, nodes, ids := null, 0, true, None, [], [];
      this.tasks := tasks;
      nodeCache := new WaitNode?[initialSize](_ => null);
      new;
      FillCache();
    }

    /** The loop that marks the nodes of a new cache as such. */
    method FillCache()
      requires nodes == []
      modifies nodeCache
      ensures CacheOk()
      ensures forall i :: 0 <= i < nodeCache.Length ==> fresh(nodeCache[i])
    {
      var i := 0;
      while i < nodeCache.Length
        invariant 0 <= i <= nodeCache.Length
        invariant forall j :: 0 <= j < i ==> nodeCache[j] != null && nodeCache[j].fromCache && fresh(nodeCache[j])
        invariant forall j, k :: 0 <= j < k < i ==> nodeCache[j] != nodeCache[k]
      {
        var n := new WaitNode(true);
        nodeCache[i] := n;
        i := i + 1;
      }
    }

    /** The next slot of the cache, or a new node when the cache is used up. */
    method CreateNode(task: nat) returns (n: WaitNode)
      requires Valid()
      modifies `lastAssignedCacheIndex, nodeCache[..]
      ensures Valid()
      ensures n !in nodes && n.task == task && lastAssignedCacheIndex == old(lastAssignedCacheIndex) + 1
      ensures n.fromCache <==> old(lastAssignedCacheIndex) < nodeCache.Length
      ensures n.fromCache ==> n == nodeCache[old(lastAssignedCacheIndex)]
      ensures !n.fromCache ==> fresh(n)
      ensures forall i :: lastAssignedCacheIndex <= i < nodeCache.Length ==> nodeCache[i] != n
    {
      var index := lastAssignedCacheIndex;
      lastAssignedCacheIndex := lastAssignedCacheIndex + 1;
      if index < nodeCache.Length {
        n := nodeCache[index];
      } else {
        n := new WaitNode(false);
      }
      assert forall k :: 0 <= k < |nodes| ==> nodes[k] != n;
      n.task := task;
      n.next := n;
    }

    /** Exchange of the head and setNextNode. */
    method Publish(newHead: WaitNode)
      requires Valid() && waiting && newHead !in nodes && newHead.task < |tasks|
      requires forall i :: lastAssignedCacheIndex <= i < nodeCache.Length ==> nodeCache[i] != newHead
      modifies `head, `nodes, `ids, newHead`next
      ensures Valid() && nodes == [newHead] + old(nodes) && ids == [newHead.task] + old(ids)
    {
      var oldHead := head;
      head := newHead;
      newHead.next := oldHead;
      nodes, ids := [newHead] + nodes, [newHead.task] + ids;
      assert forall k :: 0 < k < |nodes| ==> nodes[k] == old(nodes)[k - 1] && After(nodes, k) == After(old(nodes), k - 1);
    }

    /** The node goes to the front, also in front of a list that is not empty. */
    method Add(task: nat)
      requires Valid() && task < |tasks|
      modifies this, nodeCache[..]
      ensures Valid() && waiting == old(waiting) && exceptionPtr == old(exceptionPtr) && nodeCache == old(nodeCache)
      ensures old(waiting) ==>
                && ids == [task] + old(ids)
                && tasks == old(tasks)[task := old(tasks[task]).(refs := old(tasks[task]).refs + 1)]
      ensures old(waiting) ==>
                && nodes[1..] == old(nodes) && lastAssignedCacheIndex == old(lastAssignedCacheIndex) + 1
                && (nodes[0].fromCache <==> old(lastAssignedCacheIndex) < nodeCache.Length)
      ensures !old(waiting) ==>
                && tasks == ReleaseAll(old(tasks)[task := Held(old(tasks[task]))], [task], exceptionPtr)
                && tasks[task].refs == old(tasks[task]).refs
                && tasks[task].failure == (if old(tasks[task]).failure.None? then exceptionPtr else old(tasks[task]).failure)
                && tasks[task].spawned == old(tasks[task]).spawned + (if old(tasks[task]).refs == 0 then 1 else 0)
    {
      tasks := tasks[task := Held(tasks[task])];
      if !waiting {
        ReleaseOne(tasks, task, exceptionPtr);
        if exceptionPtr.Some? {
          tasks := tasks[task := Told(tasks[task], exceptionPtr)];
        }
        tasks := tasks[task := Dropped(tasks[task])];
      } else {
        var newHead := CreateNode(task);
        Publish(newHead);
      }
    }

    /** Empties the list and releases its tasks from the front. */
    method Announce()
      requires Linked() && CacheOk() && !waiting
      modifies this
      ensures Valid() && nodes == [] && !waiting && exceptionPtr == old(exceptionPtr)
      ensures nodeCache == old(nodeCache) && lastAssignedCacheIndex == old(lastAssignedCacheIndex)
      ensures tasks == ReleaseAll(old(tasks), old(ids), exceptionPtr)
    {
      hide ReleaseAll, Told, Dropped;
      var n := head;
      head := null;
      ghost var k, walked, told := 0, nodes, ids;
      nodes, ids := [], [];
      ReleaseNone(tasks, told[..k], exceptionPtr);
      while n != null
        invariant 0 <= k <= |walked| == |told|
        invariant n == if k < |walked| then walked[k] else null
        invariant forall j :: 0 <= j < |told| ==> told[j] < |tasks|
        invariant |tasks| == |old(tasks)| && tasks == ReleaseAll(old(tasks), told[..k], exceptionPtr)
        invariant head == null && nodes == [] && ids == [] && !waiting && exceptionPtr == old(exceptionPtr)
        invariant nodeCache == old(nodeCache) && lastAssignedCacheIndex == old(lastAssignedCacheIndex)
        decreases |walked| - k
      {
        var next, t := n.next, n.task;
        if exceptionPtr.Some? {
          tasks := tasks[t := Told(tasks[t], exceptionPtr)];
        }
        n := next;
        ToldNothing(tasks[t]);
        tasks := tasks[t := Dropped(tasks[t])];
        ReleaseOneMore(old(tasks), told, k, exceptionPtr);
        k := k + 1;
      }
      assert told[..k] == told;
    }

    method PresetTaskAsFailed(e: Option<Failure>)
      requires Valid()
      modifies `tasks
      ensures Valid()
      ensures tasks == if waiting && e.Some? then TellAll(old(tasks), ids, e) else old(tasks)
    {
      if e.Some? && waiting {
        var node := head;
        ghost var k := 0;
        while node != null
          invariant 0 <= k <= |nodes| && node == if k < |nodes| then nodes[k] else null
          invariant Valid() && tasks == TellAll(old(tasks), ids[..k], e)
          decreases |nodes| - k
        {
          var next := node.next;
          tasks := tasks[node.task := Told(tasks[node.task], e)];
          assert ids[..k + 1][..k] == ids[..k];
          node, k := next, k + 1;
        }
        assert ids[..k] == ids;
      }
    }

    method DoneWaiting(e: Option<Failure>)
      requires Valid()
      modifies this
      ensures Valid() && nodes == [] && !waiting && exceptionPtr == e
      ensures nodeCache == old(nodeCache) && lastAssignedCacheIndex == old(lastAssignedCacheIndex)
      ensures tasks == ReleaseAll(old(tasks), old(ids), e)
    {
      exceptionPtr := e;
      waiting := false;
      Announce();
    }

    /** The cache grows to the number of nodes asked for in the cycle that ends. */
    method Reset()
      requires Valid() && head == null
      modifies this
      ensures Valid() && waiting && nodes == [] && exceptionPtr.None? && tasks == old(tasks)
      ensures lastAssignedCacheIndex == 0
      ensures nodeCache.Length == if old(lastAssignedCacheIndex) > old(nodeCache.Length) then old(lastAssignedCacheIndex)
                                  else old(nodeCache.Length)
      ensures nodeCache.Length == old(nodeCache.Length) ==> nodeCache == old(nodeCache)
    {
      exceptionPtr := None;
      var nSeenTasks := lastAssignedCacheIndex;
      lastAssignedCacheIndex := 0;
      if nSeenTasks > nodeCache.Length {
        nodeCache := new WaitNode?[nSeenTasks](_ => null);
        FillCache();
      }
      waiting := true;
    }
  }

  lemma ReleaseOne(tasks: seq<Task>, t: nat, e: Option<Failure>)
    requires t < |tasks|
    ensures ReleaseAll(tasks, [t], e) == tasks[t := Dropped(Told(tasks[t], e))]
  {
    assert [t][..0] == [];
    assert ReleaseAll(tasks, [], e) == tasks;
  }
}
