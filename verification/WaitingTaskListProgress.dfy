/**
  Progress of the lock-free list: every step that changes anything lowers a rank, so that after the last call every
  schedule releases everything.
 */
module WaitingTaskListProgress {
  import opened Options
  import opened WaitingTaskList
  import opened WaitingTaskListSteps
  import opened WaitingTaskListRuns

  // ----- The rank -----

  predicate MayCreate(pc: PC) { pc.TestWaiting? || pc.Create? }

  /** The nodes there are and those that adds under way may still create. */
  function NodesToCome(acts: seq<PC>): nat {
    if acts == [] then 0 else NodesToCome(acts[..|acts| - 1]) + if MayCreate(acts[|acts| - 1]) then 1 else 0
  }

  /** The nodes that nobody has given up yet; walking one takes three steps. */
  function Alive(nodes: seq<Node>): nat {
    if nodes == [] then 0 else Alive(nodes[..|nodes| - 1]) + if nodes[|nodes| - 1].place != Gone then 1 else 0
  }

  /** What an activity can still cost, when there will be no more than k nodes. */
  function Weight(pc: PC, k: nat): nat {
    match pc
    case TestWaiting(_) => 13
    case Tell(_) => 5
    case Create(_) => 12
    case Exchange(_) => 8
    case LinkUp(_, _) => 7
    case Relink(_) => 6
    case Recheck => 5
    case Announce => 4
    case Walk(_, _) => 3
    case Take(_, _, _) => 2
    case Drop(_, _, _) => 4
    case PresetTest(_) => 2 * k + 8
    case PresetWalk(_, _, todo) => 2 * |todo| + 7
    case PresetTell(_, _, _, todo) => 2 * |todo| + 6
    case SetException(_) => 6
    case ClearWaiting => 5
    case Done => 0
  }

  function TotalWeight(acts: seq<PC>, k: nat): nat {
    if acts == [] then 0 else TotalWeight(acts[..|acts| - 1], k) + Weight(acts[|acts| - 1], k)
  }

  function Rank(s: List): nat {
    TotalWeight(s.acts, |s.nodes| + NodesToCome(s.acts)) + 3 * Alive(s.nodes)
  }

  // ----- Sums -----

  lemma {:induction false} NodesToComeUpdate(acts: seq<PC>, i: nat, pc: PC)
    requires i < |acts|
    ensures NodesToCome(acts[i := pc])
         == NodesToCome(acts) - (if MayCreate(acts[i]) then 1 else 0) + (if MayCreate(pc) then 1 else 0)
  {
    var n := |acts| - 1;
    if i < n {
      assert acts[i := pc][..n] == acts[..n][i := pc];
      NodesToComeUpdate(acts[..n], i, pc);
    } else {
      assert acts[i := pc][..n] == acts[..n];
    }
  }

  lemma {:induction false} TotalWeightUpdate(acts: seq<PC>, i: nat, pc: PC, k: nat)
    requires i < |acts|
    ensures TotalWeight(acts[i := pc], k) == TotalWeight(acts, k) - Weight(acts[i], k) + Weight(pc, k)
  {
    var n := |acts| - 1;
    if i < n {
      assert acts[i := pc][..n] == acts[..n][i := pc];
      TotalWeightUpdate(acts[..n], i, pc, k);
    } else {
      assert acts[i := pc][..n] == acts[..n];
    }
  }

  lemma {:induction false} FewerNodesWeighLess(acts: seq<PC>, j: nat, k: nat)
    requires j <= k
    ensures TotalWeight(acts, j) <= TotalWeight(acts, k)
  {
    if acts != [] {
      FewerNodesWeighLess(acts[..|acts| - 1], j, k);
    }
  }

  lemma {:induction false} AliveUpdate(nodes: seq<Node>, n: nat, x: Node)
    requires n < |nodes|
    ensures Alive(nodes[n := x])
         == Alive(nodes) - (if nodes[n].place != Gone then 1 else 0) + (if x.place != Gone then 1 else 0)
  {
    var m := |nodes| - 1;
    if n < m {
      assert nodes[n := x][..m] == nodes[..m][n := x];
      AliveUpdate(nodes[..m], n, x);
    } else {
      assert nodes[n := x][..m] == nodes[..m];
    }
  }

  lemma {:induction false} AliveSame(nodes: seq<Node>, nodes': seq<Node>)
    requires |nodes'| == |nodes| && forall n :: 0 <= n < |nodes| ==> (nodes'[n].place == Gone <==> nodes[n].place == Gone)
    ensures Alive(nodes') == Alive(nodes)
  {
    if nodes != [] {
      AliveSame(nodes[..|nodes| - 1], nodes'[..|nodes| - 1]);
    }
  }

  lemma AliveAppend(nodes: seq<Node>, x: Node)
    ensures Alive(nodes + [x]) == Alive(nodes) + if x.place != Gone then 1 else 0
  {
    assert (nodes + [x])[..|nodes|] == nodes;
  }

  /** Different numbers below n are no more than n. */
  lemma {:induction false} DistinctAreFew(xs: seq<nat>, n: nat)
    requires forall k :: 0 <= k < |xs| ==> xs[k] < n
    requires forall j, k :: 0 <= j < k < |xs| ==> xs[j] != xs[k]
    ensures |xs| <= n
  {
    if xs != [] {
      assert xs[0] < n;
      if k :| 0 <= k < |xs| && xs[k] == n - 1 {
        DistinctAreFew(xs[..k] + xs[k + 1..], n - 1);
      } else {
        DistinctAreFew(xs, n - 1);
      }
    }
  }

  // ----- Every step that changes something lowers it -----

  /** A step of activity i after which there are no more nodes to come, and no more nodes alive for their weight. */
  lemma RankDrops(s: List, i: nat, s': List)
    requires i < |s.acts| && |s'.acts| == |s.acts| && s'.acts == s.acts[i := s'.acts[i]]
    requires |s'.nodes| + (if MayCreate(s'.acts[i]) then 1 else 0) <= |s.nodes| + if MayCreate(s.acts[i]) then 1 else 0
    requires forall k: nat :: k >= |s.nodes| ==>
               Weight(s'.acts[i], k) + 3 * Alive(s'.nodes) < Weight(s.acts[i], k) + 3 * Alive(s.nodes)
    ensures Rank(s') < Rank(s)
  {
    var k, k' := |s.nodes| + NodesToCome(s.acts), |s'.nodes| + NodesToCome(s'.acts);
    NodesToComeUpdate(s.acts, i, s'.acts[i]);
    TotalWeightUpdate(s.acts, i, s'.acts[i], k);
    FewerNodesWeighLess(s'.acts, k', k);
    assert Weight(s'.acts[i], k) + 3 * Alive(s'.nodes) < Weight(s.acts[i], k) + 3 * Alive(s.nodes);
  }

  lemma CreateDrops(s: List, i: nat)
    requires i < |s.acts| && s.acts[i].Create? && StepDefined(s, s.acts[i])
    ensures Rank(Step(s, i)) < Rank(s)
  {
    var s' := Step(s, i);
    AliveAppend(s.nodes, s'.nodes[|s.nodes|]);
    RankDrops(s, i, s');
  }

  lemma LinkDrops(s: List, i: nat)
    requires i < |s.acts| && StepDefined(s, s.acts[i]) && (s.acts[i].LinkUp? || s.acts[i].Relink?)
    ensures Rank(Step(s, i)) < Rank(s)
  {
    var s' := Step(s, i);
    AliveSame(s.nodes, s'.nodes);
    RankDrops(s, i, s');
  }

  lemma ExchangeDrops(s: List, i: nat)
    requires i < |s.acts| && s.acts[i].Exchange? && StepDefined(s, s.acts[i]) && s.nodes[s.acts[i].node].place.Private?
    ensures Rank(Step(s, i)) < Rank(s)
  {
    var s' := Step(s, i);
    AliveSame(s.nodes, s'.nodes);
    RankDrops(s, i, s');
  }

  lemma AnnounceDrops(s: List, i: nat)
    requires i < |s.acts| && s.acts[i].Announce?
    ensures Rank(Step(s, i)) < Rank(s)
  {
    var s' := Step(s, i);
    AnnounceNodes(s, i);
    AliveSame(s.nodes, s'.nodes);
    RankDrops(s, i, s');
  }

  lemma TakeDrops(s: List, i: nat)
    requires i < |s.acts| && s.acts[i].Take? && StepDefined(s, s.acts[i]) && s.nodes[s.acts[i].node].place.Detached?
    ensures Rank(Step(s, i)) < Rank(s)
  {
    var s' := Step(s, i);
    AliveUpdate(s.nodes, s.acts[i].node, s'.nodes[s.acts[i].node]);
    RankDrops(s, i, s');
  }

  /** The walk of presetTaskAsFailed is no longer than there are nodes. */
  lemma PresetTestDrops(s: List, i: nat)
    requires i < |s.acts| && s.acts[i].PresetTest? && |s.live| <= |s.nodes|
    ensures Rank(Step(s, i)) < Rank(s)
  {
    RankDrops(s, i, Step(s, i));
  }

  lemma LiveIsShort(s: List)
    requires LiveOk(s)
    ensures |s.live| <= |s.nodes|
  {
    forall k | 0 <= k < |s.live| ensures s.live[k] < |s.nodes| {
      assert LinkedOrPending(s, s.live[k], Successor(s.live, k));
    }
    DistinctAreFew(s.live, |s.nodes|);
  }

  predicate OnlyMoves(pc: PC) {
    pc.TestWaiting? || pc.Tell? || pc.Recheck? || pc.Walk? || pc.Drop? || pc.PresetWalk? || pc.PresetTell?
    || pc.SetException? || pc.ClearWaiting?
  }

  lemma OtherStepDrops(s: List, i: nat)
    requires i < |s.acts| && StepDefined(s, s.acts[i]) && OnlyMoves(s.acts[i]) && Step(s, i) != s
    ensures Rank(Step(s, i)) < Rank(s)
  {
    OtherStepEffect(s, i);
    hide Step, Rank;
    RankDrops(s, i, Step(s, i));
  }

  lemma OtherStepEffect(s: List, i: nat)
    requires i < |s.acts| && StepDefined(s, s.acts[i]) && OnlyMoves(s.acts[i]) && Step(s, i) != s
    ensures var s' := Step(s, i);
            && |s'.acts| == |s.acts| && s'.acts == s.acts[i := s'.acts[i]] && s'.nodes == s.nodes
            && (MayCreate(s'.acts[i]) ==> MayCreate(s.acts[i]))
            && (forall k: nat :: Weight(s'.acts[i], k) < Weight(s.acts[i], k))
  {
    var pc := s.acts[i];
    if pc.Walk? || pc.PresetWalk? {
    } else if pc.Tell? || pc.Drop? || pc.PresetTell? {
    } else {
    }
  }

  lemma ProductiveStepDrops(s: List, i: nat)
    requires Inv(s) && Productive(s, i)
    ensures Rank(Step(s, i)) < Rank(s)
  {
    assert ActOk(s, i);
    var pc := s.acts[i];
    if pc.Create? {
      CreateDrops(s, i);
    } else if pc.LinkUp? || pc.Relink? {
      LinkDrops(s, i);
    } else if pc.Exchange? {
      ExchangeDrops(s, i);
    } else if pc.Announce? {
      AnnounceDrops(s, i);
    } else if pc.Take? {
      ChainedMeans(s, pc.todo, Detached(i));
      TakeDrops(s, i);
    } else if pc.PresetTest? {
      LiveIsShort(s);
      PresetTestDrops(s, i);
    } else {
      OtherStepDrops(s, i);
    }
    hide Inv, Step, Rank, ActOk;
  }

  // ----- Runs -----

  /** Steps of calls that have been made, none of them futile. */
  ghost predicate ProductiveRun(s: List, acts: seq<nat>, s': List)
    decreases |acts|
  {
    if acts == [] then s == s' else Productive(s, acts[0]) && ProductiveRun(Step(s, acts[0]), acts[1..], s')
  }

  lemma {:induction false} ProductiveRunsAreBounded(s: List, acts: seq<nat>, s': List)
    requires Inv(s) && ProductiveRun(s, acts, s')
    ensures Inv(s') && |acts| + Rank(s') <= Rank(s) && s'.done == s.done && |s'.adds| == |s.adds|
    decreases |acts|
  {
    if acts != [] {
      StepKeepsCalls(s, acts[0]);
      MoveKeepsInv(s, Advance(acts[0]));
      ProductiveStepDrops(s, acts[0]);
      hide Inv, Rank, Step, Enabled, Productive;
      ProductiveRunsAreBounded(Step(s, acts[0]), acts[1..], s');
    }
  }

  /** Once no more calls are made, every schedule of steps that change something is finite; where it cannot be continued
      all calls have returned, and if the list has been told that it is done waiting it has released everything. */
  lemma MaximalRunReleases(size: nat, s: List, acts: seq<nat>, s': List)
    requires Reachable(size, s) && ProductiveRun(s, acts, s') && (forall i :: !Productive(s', i))
    ensures |acts| <= Rank(s) && Quiescent(s')
    ensures |s'.adds| == |s.adds|
    ensures s.done ==> forall a :: 0 <= a < |s'.adds| ==>
              s'.adds[a].releases == 1 && s'.adds[a].told == VerdictOf(s', s'.adds[a].epoch)
  {
    ReachableInv(size, s);
    ProductiveRunsAreBounded(s, acts, s');
    if !Quiescent(s') {
      var i := SomeStepHelps(s');
      assert false;
    }
    if s'.done {
      InvAndQuiescentMeanReleased(s');
    }
  }
}
