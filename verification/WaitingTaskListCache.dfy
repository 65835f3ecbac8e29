/** The node cache over the cycles of a list. */
module WaitingTaskListCache {
  import opened Options
  import opened WaitingTaskList
  import opened WaitingTaskListSteps
  import opened WaitingTaskListRuns

  /** Slots within a cycle are distinct, and exactly those below the cache size come from the cache; the cache holds
      as many nodes as any earlier cycle used. */
  ghost predicate CacheOk(size: nat, s: List) {
    && s.cacheSize == Max(size, s.most)
    && (forall n :: 0 <= n < |s.nodes| ==> s.nodes[n].epoch <= Epoch(s))
    && (forall n :: 0 <= n < |s.nodes| && s.nodes[n].epoch == Epoch(s) ==>
          s.nodes[n].slot < s.index && (s.nodes[n].fromCache <==> s.nodes[n].slot < s.cacheSize))
    && (forall m, n :: 0 <= m < n < |s.nodes| && s.nodes[m].epoch == s.nodes[n].epoch ==>
          s.nodes[m].slot != s.nodes[n].slot)
  }

  lemma CreateKeepsCache(size: nat, s: List, i: nat, a: nat)
    requires CacheOk(size, s) && i < |s.acts| && a < |s.adds|
    ensures CacheOk(size, CreateStep(s, i, a))
  {
  }

  /** The nodes have the slots they had. */
  ghost predicate SameSlots(s: List, s': List) {
    && |s'.nodes| == |s.nodes| && s'.index == s.index && s'.cacheSize == s.cacheSize
    && s'.verdicts == s.verdicts && s'.most == s.most
    && forall n :: 0 <= n < |s.nodes| ==>
         s'.nodes[n].slot == s.nodes[n].slot && s'.nodes[n].fromCache == s.nodes[n].fromCache
         && s'.nodes[n].epoch == s.nodes[n].epoch
  }

  lemma NodeStepKeepsSlots(s: List, i: nat)
    requires Enabled(s, Advance(i))
    requires s.acts[i].Exchange? || s.acts[i].LinkUp? || s.acts[i].Relink? || s.acts[i].Take? || s.acts[i].Announce?
    ensures SameSlots(s, Step(s, i))
  {
    if s.acts[i].Announce? {
      AnnounceNodes(s, i);
    }
  }

  lemma StepKeepsSlots(s: List, i: nat)
    requires Enabled(s, Advance(i)) && !s.acts[i].Create?
    ensures SameSlots(s, Step(s, i))
  {
    var pc := s.acts[i];
    if pc.Exchange? || pc.LinkUp? || pc.Relink? || pc.Take? || pc.Announce? {
      NodeStepKeepsSlots(s, i);
    } else {
      assert Step(s, i).nodes == s.nodes;
    }
  }

  lemma MoveKeepsCache(size: nat, s: List, m: Move)
    requires CacheOk(size, s) && Enabled(s, m)
    ensures CacheOk(size, Apply(s, m)) && Apply(s, m).cacheSize >= s.cacheSize && Apply(s, m).most >= s.most
  {
    if m.Advance? {
      if s.acts[m.act].Create? {
        CreateKeepsCache(size, s, m.act, s.acts[m.act].add);
      } else {
        StepKeepsSlots(s, m.act);
      }
    }
  }

  lemma {:induction false} RunKeepsCache(size: nat, s: List, ms: seq<Move>, s': List)
    requires CacheOk(size, s) && Run(s, ms, s')
    ensures CacheOk(size, s') && s'.cacheSize >= s.cacheSize && s'.most >= s.most
    decreases |ms|
  {
    if ms != [] {
      MoveKeepsCache(size, s, ms[0]);
      RunKeepsCache(size, Apply(s, ms[0]), ms[1..], s');
    }
  }

  /** Within a cycle no two adds share a slot; the cache never shrinks; and after a cycle of k adds, a node of any
      later cycle that is among its first k comes from the cache. */
  lemma CacheGrowsToTheLargestCycle(size: nat, s: List, ms: seq<Move>, s': List)
    requires Reachable(size, s) && Enabled(s, Reset) && Run(Apply(s, Reset), ms, s')
    ensures s'.cacheSize >= Apply(s, Reset).cacheSize >= s.cacheSize
    ensures forall m, n :: 0 <= m < n < |s'.nodes| && s'.nodes[m].epoch == s'.nodes[n].epoch ==>
              s'.nodes[m].slot != s'.nodes[n].slot
    ensures forall n :: 0 <= n < |s'.nodes| && s'.nodes[n].epoch == Epoch(s') && s'.nodes[n].slot < s.index ==>
              s'.nodes[n].fromCache
  {
    var before :| Run(Init(size), before, s);
    RunKeepsCache(size, Init(size), before, s);
    MoveKeepsCache(size, s, Reset);
    RunKeepsCache(size, Apply(s, Reset), ms, s');
  }
}
