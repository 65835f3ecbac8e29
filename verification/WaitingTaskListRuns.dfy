/** What every run of the lock-free list keeps: no task lost, none released twice or early, proper lists. */
module WaitingTaskListRuns {
  import opened Options
  import opened WaitingTaskList
  import opened WaitingTaskListSteps

  // ----- Whole runs -----

  ghost predicate Run(s: List, ms: seq<Move>, s': List)
    decreases |ms|
  {
    if ms == [] then s == s' else Enabled(s, ms[0]) && Run(Apply(s, ms[0]), ms[1..], s')
  }

  ghost predicate Reachable(size: nat, s: List) {
    exists ms :: Run(Init(size), ms, s)
  }

  lemma {:induction false} RunKeepsInv(s: List, ms: seq<Move>, s': List)
    requires Inv(s) && Run(s, ms, s')
    ensures Inv(s')
    decreases |ms|
  {
    if ms != [] {
      MoveKeepsInv(s, ms[0]);
      RunKeepsInv(Apply(s, ms[0]), ms[1..], s');
    }
  }

  lemma ReachableInv(size: nat, s: List)
    requires Reachable(size, s)
    ensures Inv(s)
  {
    var ms :| Run(Init(size), ms, s);
    RunKeepsInv(Init(size), ms, s);
  }

  /** In every run, each hold is released at most once, never while its cycle's list is waiting, and only after its
      task was given its cycle's failure, if there was one. */
  lemma ReleasedOnceAndToldFirst(size: nat, s: List, a: nat)
    requires Reachable(size, s) && a < |s.adds|
    ensures s.adds[a].releases <= 1 && s.adds[a].epoch <= Epoch(s)
    ensures s.adds[a].releases == 1 ==>
              && s.adds[a].told == VerdictOf(s, s.adds[a].epoch)
              && (s.adds[a].epoch == Epoch(s) ==> s.done && !s.waiting)
    ensures s.adds[a].told.Some? ==> s.adds[a].told == VerdictOf(s, s.adds[a].epoch)
  {
    ReachableInv(size, s);
    assert AddOk(s, a);
  }

  ghost predicate Quiescent(s: List) {
    forall i :: 0 <= i < |s.acts| ==> s.acts[i] == Done
  }

  /** No lost task: when nothing is under way, a list that has been told it is done waiting has released the hold of
      every task ever added to it, exactly once, with the failure of the cycle it was added in. */
  lemma EveryTaskReleased(size: nat, s: List)
    requires Reachable(size, s) && Quiescent(s) && s.done
    ensures s.head.Null? && !s.waiting
    ensures forall a :: 0 <= a < |s.adds| ==>
              s.adds[a].releases == 1 && s.adds[a].told == VerdictOf(s, s.adds[a].epoch)
    ensures forall n :: 0 <= n < |s.nodes| ==> s.nodes[n].place == Gone
  {
    ReachableInv(size, s);
    InvAndQuiescentMeanReleased(s);
  }

  lemma InvAndQuiescentMeanReleased(s: List)
    requires Inv(s) && Quiescent(s) && !s.waiting
    ensures s.head.Null?
    ensures forall a :: 0 <= a < |s.adds| ==>
              s.adds[a].releases == 1 && s.adds[a].told == VerdictOf(s, s.adds[a].epoch)
    ensures forall n :: 0 <= n < |s.nodes| ==> s.nodes[n].place == Gone
  {
    forall n | 0 <= n < |s.nodes| ensures s.nodes[n].place == Gone {
      assert NodeOk(s, n);
    }
    forall a | 0 <= a < |s.adds| ensures s.adds[a].releases == 1 && s.adds[a].told == VerdictOf(s, s.adds[a].epoch) {
      assert AddOk(s, a);
    }
  }

  // ----- The shape of the lists -----

  /** In every run, the live list and the parts that announce calls have detached are proper null-terminated lists
      with no node in two of them; a node that links to itself is about to be linked by the one call that made it. */
  lemma ListsAreDisjoint(size: nat, s: List)
    requires Reachable(size, s)
    ensures Chained(s, s.live, Live) && s.head == First(s.live)
    ensures forall i :: 0 <= i < |s.acts| ==> Chained(s, Todo(s.acts[i]), Detached(i))
    ensures forall i, n :: 0 <= i < |s.acts| && n in Todo(s.acts[i]) ==> n !in s.live
    ensures forall i, j, n :: 0 <= i < |s.acts| && 0 <= j < |s.acts| && n in Todo(s.acts[i]) && n in Todo(s.acts[j]) ==> i == j
    ensures forall n :: 0 <= n < |s.nodes| && s.nodes[n].next == To(n) ==>
              exists i :: 0 <= i < |s.acts| && (s.acts[i].Exchange? || s.acts[i].LinkUp?) && s.acts[i].node == n
  {
    ReachableInv(size, s);
    forall i | 0 <= i < |s.acts| ensures Chained(s, Todo(s.acts[i]), Detached(i)) {
      assert ActOk(s, i);
    }
    forall n | 0 <= n < |s.nodes| && s.nodes[n].next == To(n)
      ensures exists i :: 0 <= i < |s.acts| && (s.acts[i].Exchange? || s.acts[i].LinkUp?) && s.acts[i].node == n
    {
      assert NodeOk(s, n);
    }
  }

  /** The node whose memory the next step of an activity reads or writes. */
  function Touches(pc: PC): Option<nat> {
    match pc
    case LinkUp(n, _) => Some(n)
    case Relink(n) => Some(n)
    case Walk(n, _) => if n.To? then Some(n.node) else None
    case Take(n, _, _) => Some(n)
    case PresetWalk(_, n, _) => if n.To? then Some(n.node) else None
    case PresetTell(_, n, _, _) => Some(n)
    case _ => None
  }

  /** In every run, no step touches a node that an announce has given up, except the second store of the add that
      takes a holder. */
  lemma NoTouchAfterRelease(size: nat, s: List, i: nat)
    requires Reachable(size, s) && i < |s.acts| && Touches(s.acts[i]).Some? && !s.acts[i].Relink?
    ensures Touches(s.acts[i]).value < |s.nodes| && s.nodes[Touches(s.acts[i]).value].place != Gone
  {
    ReachableInv(size, s);
    assert ActOk(s, i);
    if s.acts[i].PresetWalk? || s.acts[i].PresetTell? {
      SuffixIsLive(s, s.acts[i].todo);
    } else if s.acts[i].Walk? || s.acts[i].Take? {
      ChainedMeans(s, s.acts[i].todo, Detached(i));
    }
  }

  lemma {:induction false} RunExtends(s: List, ms: seq<Move>, s': List, m: Move)
    requires Run(s, ms, s') && Enabled(s', m)
    ensures Run(s, ms + [m], Apply(s', m))
    decreases |ms|
  {
    if ms == [] {
      assert Run(Apply(s, m), [], Apply(s', m));
      assert (ms + [m])[1..] == [];
    } else {
      assert (ms + [m])[1..] == ms[1..] + [m];
      RunExtends(Apply(s, ms[0]), ms[1..], s', m);
    }
  }

  lemma ReachableMove(size: nat, s: List, m: Move) returns (s': List)
    requires Reachable(size, s) && Enabled(s, m)
    ensures s' == Apply(s, m) && Reachable(size, s')
  {
    var ms :| Run(Init(size), ms, s);
    RunExtends(Init(size), ms, s, m);
    s' := Apply(s, m);
  }

  /** A single add has linked its node and is about to store to it again. */
  lemma AddAboutToRelink(size: nat) returns (s: List)
    ensures Reachable(size, s) && s.waiting && !s.done && s.exception.None? && s.head == To(0) && s.live == [0]
    ensures s.acts == [Relink(0)] && s.adds == [Add(true, 0, None, 0, InNode(0))]
    ensures |s.nodes| == 1 && s.nodes[0].add == 0 && s.nodes[0].next.Null? && s.nodes[0].place.Live?
    ensures s.nodes[0].fromCache <==> size > 0
  {
    hide Reachable;
    assert Run(Init(size), [], Init(size));
    s := ReachableMove(size, Init(size), StartAdd(true));
    assert s.acts == [TestWaiting(0)];
    s := ReachableMove(size, s, Advance(0));
    assert s.acts == [Create(0)];
    s := ReachableMove(size, s, Advance(0));
    assert s.acts == [Exchange(0)] && |s.nodes| == 1;
    s := ReachableMove(size, s, Advance(0));
    assert s.acts == [LinkUp(0, Null)] && s.live == [0];
    s := ReachableMove(size, s, Advance(0));
  }

  /** The exception is real: an announce can give the node up between the two stores of the holder overload, and without
      a cache that is a node it has deleted. */
  lemma SecondStoreCanComeLate(size: nat) returns (s: List)
    ensures Reachable(size, s) && |s.acts| == 2 && s.acts[0] == Relink(0)
    ensures |s.nodes| == 1 && s.nodes[0].place == Gone && (size == 0 ==> !s.nodes[0].fromCache)
  {
    s := AddAboutToRelink(size);
    s := ReachableMove(size, s, Finish(None, false));
    assert s.acts == [Relink(0), SetException(None)];
    s := ReachableMove(size, s, Advance(1));
    assert s.acts == [Relink(0), ClearWaiting];
    s := ReachableMove(size, s, Advance(1));
    assert s.acts == [Relink(0), Announce];
    s := ReachableMove(size, s, Advance(1));
    assert s.acts == [Relink(0), Walk(To(0), [0])];
    s := ReachableMove(size, s, Advance(1));
    assert s.acts == [Relink(0), Take(0, Null, [0])];
    s := ReachableMove(size, s, Advance(1));
  }

  // ----- Progress -----

  /** A step that is not a failed turn of the loop that waits for a node to be linked. */
  ghost predicate Productive(s: List, i: nat) {
    Enabled(s, Advance(i)) && Step(s, i) != s
  }

  lemma StepKeepsCalls(s: List, i: nat)
    requires i < |s.acts| && s.acts[i] != Done && StepDefined(s, s.acts[i])
    ensures Step(s, i).done == s.done && |Step(s, i).adds| == |s.adds|
  {
  }

  /** A step moves one activity. */
  lemma StepMovesOne(s: List, i: nat)
    requires Enabled(s, Advance(i))
    ensures |Step(s, i).acts| == |s.acts| && forall j :: 0 <= j < |s.acts| && j != i ==> Step(s, i).acts[j] == s.acts[j]
    ensures |Step(s, i).nodes| >= |s.nodes|
  {
    var pc := s.acts[i];
    if pc.Walk? || pc.PresetWalk? {
    } else if pc.LinkUp? || pc.Relink? || pc.Exchange? || pc.Announce? {
    } else if pc.TestWaiting? || pc.Recheck? || pc.PresetTest? || pc.SetException? || pc.ClearWaiting? {
    } else {
    }
  }

  /** An activity that spins waits for a node whose adder is about to link it. */
  lemma SpinnerWaitsForALink(s: List, i: nat) returns (j: nat)
    requires ActsOk(s) && LiveOk(s) && i < |s.acts| && s.acts[i] != Done
    requires StepDefined(s, s.acts[i]) && Step(s, i) == s
    ensures j < |s.acts| && s.acts[j].LinkUp? && StepDefined(s, s.acts[j])
    ensures (s.acts[i].Walk? || s.acts[i].PresetWalk?) && s.acts[i].n == To(s.acts[j].node)
  {
    assert ActOk(s, i);
    StepChanges(s, i);
    if s.acts[i].PresetWalk? {
      SuffixIsLive(s, s.acts[i].todo);
    } else {
      ChainedMeans(s, s.acts[i].todo, Detached(i));
    }
    j := s.nodes[s.acts[i].todo[0]].creator;
    assert ActOk(s, j);
  }

  /** Every step but a failed turn of a waiting loop changes the program counter. */
  lemma StepChanges(s: List, i: nat)
    requires i < |s.acts| && s.acts[i] != Done && StepDefined(s, s.acts[i]) && Step(s, i) == s
    ensures s.acts[i].Walk? || s.acts[i].PresetWalk?
    ensures s.acts[i].n.To? && s.nodes[s.acts[i].n.node].next == s.acts[i].n
  {
    assert Step(s, i).acts[i] == s.acts[i];
  }

  lemma LinkingChanges(s: List, i: nat)
    requires i < |s.acts| && s.acts[i].LinkUp? && StepDefined(s, s.acts[i])
    ensures Productive(s, i)
  {
    assert Step(s, i).acts[i] != s.acts[i];
  }

  lemma SomeStepHelps(s: List) returns (i: nat)
    requires Inv(s) && !Quiescent(s)
    ensures Productive(s, i)
  {
    i :| 0 <= i < |s.acts| && s.acts[i] != Done;
    assert ActOk(s, i);
    if Step(s, i) == s {
      i := SpinnerWaitsForALink(s, i);
      LinkingChanges(s, i);
    }
  }

  /** Nothing can block: if a call is under way, some step other than spinning is possible. */
  lemma HelpingStepExists(size: nat, s: List) returns (i: nat)
    requires Reachable(size, s) && !Quiescent(s)
    ensures Productive(s, i)
  {
    ReachableInv(size, s);
    i := SomeStepHelps(s);
  }
}
