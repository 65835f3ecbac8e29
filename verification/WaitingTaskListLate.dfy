/**
  The second store of the holder overload: which runs never have it, and from exactly which states the node can be given
  up before it is made.
 */
module WaitingTaskListLate {
  import opened Options
  import opened WaitingTaskList
  import opened WaitingTaskListSteps
  import opened WaitingTaskListRuns

  // ----- Runs of the other overload -----

  ghost predicate NoHolders(s: List) {
    && (forall a :: 0 <= a < |s.adds| ==> !s.adds[a].holder)
    && (forall i :: 0 <= i < |s.acts| ==> !s.acts[i].Relink?)
  }

  lemma StepKeepsHolder(s: List, i: nat, a: nat)
    requires Enabled(s, Advance(i)) && a < |s.adds|
    ensures |Step(s, i).adds| == |s.adds| && Step(s, i).adds[a].holder == s.adds[a].holder
  {
    var pc, adds := s.acts[i], Step(s, i).adds;
    if pc.Tell? || pc.Create? || pc.Drop? {
      assert adds == s.adds[pc.add := adds[pc.add]] && adds[pc.add].holder == s.adds[pc.add].holder;
    } else if pc.Take? || pc.PresetTell? {
      var b := s.nodes[pc.node].add;
      assert adds == s.adds[b := adds[b]] && adds[b].holder == s.adds[b].holder;
    } else {
      assert adds == s.adds;
    }
  }

  lemma StepMakesNoRelink(s: List, i: nat)
    requires NoHolders(s) && Enabled(s, Advance(i)) && i < |Step(s, i).acts|
    ensures !Step(s, i).acts[i].Relink?
  {
    var pc := s.acts[i];
    if pc.Walk? || pc.PresetWalk? {
    } else if pc.LinkUp? {
    } else if pc.Exchange? || pc.Announce? || pc.Tell? || pc.Create? {
    } else if pc.TestWaiting? || pc.Recheck? || pc.PresetTest? || pc.SetException? || pc.ClearWaiting? {
    } else {
    }
  }

  lemma MoveKeepsNoHolders(s: List, m: Move)
    requires NoHolders(s) && Enabled(s, m) && m != StartAdd(true)
    ensures NoHolders(Apply(s, m))
  {
    if m.Advance? {
      hide Step;
      StepMovesOne(s, m.act);
      forall a | 0 <= a < |s.adds| ensures !Step(s, m.act).adds[a].holder {
        StepKeepsHolder(s, m.act, a);
      }
      forall j | 0 <= j < |s.acts| ensures !Step(s, m.act).acts[j].Relink? {
        if j == m.act { StepMakesNoRelink(s, j); }
      }
      StepKeepsCalls(s, m.act);
    }
  }

  lemma {:induction false} RunKeepsNoHolders(s: List, ms: seq<Move>, s': List)
    requires NoHolders(s) && Run(s, ms, s') && StartAdd(true) !in ms
    ensures NoHolders(s')
    decreases |ms|
  {
    if ms != [] {
      MoveKeepsNoHolders(s, ms[0]);
      RunKeepsNoHolders(Apply(s, ms[0]), ms[1..], s');
    }
  }

  /** When tasks are only added by pointer, no step ever touches a node that an announce has given up. */
  lemma PointerAddsNeverTouchLate(size: nat, ms: seq<Move>, s: List, i: nat)
    requires Run(Init(size), ms, s) && StartAdd(true) !in ms && i < |s.acts| && Touches(s.acts[i]).Some?
    ensures Touches(s.acts[i]).value < |s.nodes| && s.nodes[Touches(s.acts[i]).value].place != Gone
  {
    RunKeepsNoHolders(Init(size), ms, s);
    NoTouchAfterRelease(size, s, i);
  }

  // ----- When the second store can come late -----

  /** A run in which activity i does not move and at the end of which its node has been given up. */
  ghost predicate GivenUpMeanwhile(s: List, i: nat, n: nat, ms: seq<Move>, s': List) {
    Run(s, ms, s') && Advance(i) !in ms && n < |s'.nodes| && s'.nodes[n].place == Gone
  }

  /** The list no longer waits and nobody but i is on the way to an announce. */
  ghost predicate OutOfReach(s: List, i: nat, n: nat) {
    && i < |s.acts| && s.acts[i] == Relink(n) && n < |s.nodes| && s.nodes[n].place.Live? && !s.waiting
    && forall j :: 0 <= j < |s.acts| && j != i ==> !WillAnnounce(s.acts[j])
  }

  lemma StepKeepsOutOfReach(s: List, i: nat, n: nat, j: nat)
    requires OutOfReach(s, i, n) && j < |s.acts| && j != i && s.acts[j] != Done && ActOk(s, j)
    requires n in s.live && s.head == First(s.live)
    requires s.acts[j].Take? ==> s.nodes[s.acts[j].node].place.Detached?
    ensures OutOfReach(Step(s, j), i, n)
  {
    hide Chained;
    var pc := s.acts[j];
    StepMovesOne(s, j);
    if pc.Walk? || pc.TestWaiting? {
    } else if pc.Take? {
    } else if pc.Create? || pc.Exchange? {
    } else if pc.LinkUp? {
    } else {
      assert !pc.Announce? && !InDoneWaiting(pc);
    }
  }

  lemma MoveKeepsOutOfReach(s: List, i: nat, n: nat, m: Move)
    requires Inv(s) && OutOfReach(s, i, n) && Enabled(s, m) && m != Advance(i)
    ensures OutOfReach(Apply(s, m), i, n)
  {
    assert NodeOk(s, n) && LiveOk(s) && s.done;
    assert !PastTheList(s.acts[i]);
    if m.Advance? {
      assert ActOk(s, m.act);
      if s.acts[m.act].Take? { ChainedMeans(s, s.acts[m.act].todo, Detached(m.act)); }
      hide Inv, Step;
      StepKeepsOutOfReach(s, i, n, m.act);
    }
  }

  lemma {:induction false} RunKeepsOutOfReach(s: List, i: nat, n: nat, ms: seq<Move>, s': List)
    requires Inv(s) && OutOfReach(s, i, n) && Run(s, ms, s') && Advance(i) !in ms
    ensures OutOfReach(s', i, n)
    decreases |ms|
  {
    if ms != [] {
      MoveKeepsOutOfReach(s, i, n, ms[0]);
      MoveKeepsInv(s, ms[0]);
      RunKeepsOutOfReach(Apply(s, ms[0]), i, n, ms[1..], s');
    }
  }

  // ----- Making it late -----

  /** Activity j is walking towards node n, or will detach the list it is in. */
  ghost predicate Threatens(s: List, n: nat, j: nat) {
    && j < |s.acts| && n < |s.nodes|
    && (n in Todo(s.acts[j])
        || (s.nodes[n].place.Live? && (InDoneWaiting(s.acts[j]) || (!s.waiting && WillAnnounce(s.acts[j])))))
  }

  function Phase(pc: PC): nat {
    match pc
    case PresetTest(_) => 9
    case PresetWalk(_, _, _) => 8
    case PresetTell(_, _, _, _) => 8
    case SetException(_) => 7
    case ClearWaiting => 6
    case LinkUp(_, _) => 5
    case Relink(_) => 4
    case Recheck => 3
    case Announce => 2
    case _ => 1
  }

  function Ahead(pc: PC): nat {
    if pc.PresetWalk? || pc.PresetTell? then |pc.todo| else |Todo(pc)|
  }

  function SubPhase(s: List, pc: PC): nat {
    if pc.Drop? then 4
    else if pc.Walk? || pc.PresetWalk? then
      if pc.n.To? && pc.n.node < |s.nodes| && s.nodes[pc.n.node].next == pc.n then 3 else 2
    else 1
  }

  /** The next move on the way: a step of j, or of the activity that j waits for. */
  lemma NextHelper(s: List, j: nat) returns (k: nat)
    requires Inv(s) && j < |s.acts| && s.acts[j] != Done
    ensures k < |s.acts| && Enabled(s, Advance(k))
    ensures (k == j && Step(s, j) != s)
         || (s.acts[k].LinkUp? && (s.acts[j].Walk? || s.acts[j].PresetWalk?) && s.acts[j].n == To(s.acts[k].node)
             && s.nodes[s.acts[k].node].next == To(s.acts[k].node))
  {
    assert ActOk(s, j);
    hide Inv, Step;
    k := j;
    if Step(s, j) == s {
      k := SpinnerWaitsForALink(s, j);
      StepChanges(s, j);
    }
  }

  predicate Less(s: List, j: nat, s': List)
    requires j < |s.acts| && j < |s'.acts|
  {
    var x, y := s.acts[j], s'.acts[j];
    || Phase(y) < Phase(x)
    || (Phase(y) == Phase(x) && Ahead(y) < Ahead(x))
    || (Phase(y) == Phase(x) && Ahead(y) == Ahead(x) && SubPhase(s', y) < SubPhase(s, x))
  }

  /** A step of j brings it nearer. */
  lemma OwnStepIsNearer(s: List, n: nat, j: nat)
    requires Threatens(s, n, j) && ActOk(s, j) && s.acts[j] != Done && Step(s, j) != s && j < |Step(s, j).acts|
    ensures Less(s, j, Step(s, j))
  {
    hide Chained;
    var pc := s.acts[j];
    if pc.Walk? || pc.PresetWalk? {
    } else if pc.Take? || pc.PresetTell? || pc.Drop? {
    } else if pc.LinkUp? || pc.Relink? || pc.Recheck? || pc.Announce? {
    } else {
    }
  }

  lemma OwnStepThreatens(s: List, n: nat, j: nat)
    requires Threatens(s, n, j) && ActOk(s, j) && NodeOk(s, n) && s.acts[j] != Done && Step(s, j) != s && j < |Step(s, j).acts|
    ensures n < |Step(s, j).nodes|
    ensures Step(s, j).nodes[n].place == Gone || Threatens(Step(s, j), n, j)
  {
    hide Chained;
    var pc := s.acts[j];
    if pc.Walk? || pc.PresetWalk? {
    } else if pc.Take? {
    } else if pc.PresetTell? || pc.Drop? {
    } else if pc.LinkUp? || pc.Relink? || pc.Recheck? {
    } else if pc.Announce? {
      assert Step(s, j).acts[j].todo == s.live;
    } else {
    }
  }

  /** A step of the adder that j waits for. */
  lemma HelperStepThreatens(s: List, n: nat, j: nat, k: nat)
    requires Threatens(s, n, j) && k < |s.acts| && k != j && s.acts[k].LinkUp? && ActOk(s, k)
    requires (s.acts[j].Walk? || s.acts[j].PresetWalk?) && s.acts[j].n == To(s.acts[k].node)
    requires s.nodes[s.acts[k].node].next == To(s.acts[k].node)
    ensures j < |Step(s, k).acts| && Threatens(Step(s, k), n, j) && Less(s, j, Step(s, k))
  {
    hide Chained;
    StepMovesOne(s, k);
  }

  lemma OneMoveMore(s: List, i: nat, n: nat, m: Move, rest: seq<Move>, s': List)
    requires Enabled(s, m) && m != Advance(i) && GivenUpMeanwhile(Apply(s, m), i, n, rest, s')
    ensures GivenUpMeanwhile(s, i, n, [m] + rest, s')
  {
    hide Apply, Enabled;
    assert ([m] + rest)[1..] == rest;
  }

  /** The next move on the way of j, or of the one j waits for: the node is given up, or j is nearer. */
  lemma ComeNearer(s: List, i: nat, n: nat, j: nat) returns (k: nat)
    requires Inv(s) && i < |s.acts| && s.acts[i] == Relink(n) && j != i && Threatens(s, n, j)
    ensures Enabled(s, Advance(k)) && k != i && Inv(Step(s, k)) && n < |Step(s, k).nodes|
    ensures i < |Step(s, k).acts| && Step(s, k).acts[i] == Relink(n)
    ensures Step(s, k).nodes[n].place == Gone || (Threatens(Step(s, k), n, j) && Less(s, j, Step(s, k)))
  {
    assert ActOk(s, j) && NodeOk(s, n);
    k := NextHelper(s, j);
    assert ActOk(s, k);
    MoveKeepsInv(s, Advance(k));
    StepMovesOne(s, k);
    hide Inv, Step, ActOk, NodeOk;
    if k == j {
      OwnStepIsNearer(s, n, j);
      OwnStepThreatens(s, n, j);
    } else {
      HelperStepThreatens(s, n, j, k);
    }
  }

  /** From a state where activity j threatens the node, some run without i gives it up. */
  lemma {:induction false} MakeGone(s: List, i: nat, n: nat, j: nat) returns (ms: seq<Move>, s': List)
    requires Inv(s) && i < |s.acts| && s.acts[i] == Relink(n) && j != i && Threatens(s, n, j)
    ensures GivenUpMeanwhile(s, i, n, ms, s')
    decreases Phase(s.acts[j]), Ahead(s.acts[j]), SubPhase(s, s.acts[j])
  {
    var k := ComeNearer(s, i, n, j);
    var s1 := Step(s, k);
    assert Apply(s, Advance(k)) == s1;
    hide Inv, Step, Apply, Enabled;
    var rest;
    if s1.nodes[n].place == Gone {
      rest, s' := [], s1;
    } else {
      rest, s' := MakeGone(s1, i, n, j);
    }
    OneMoveMore(s, i, n, Advance(k), rest, s');
    ms := [Advance(k)] + rest;
  }

  /** Another activity is on its way to an announce, or doneWaiting is under way or can still be called. */
  ghost predicate CanBeDetached(s: List, i: nat) {
    s.waiting || exists j :: 0 <= j < |s.acts| && j != i && WillAnnounce(s.acts[j])
  }

  /** Exactly when the second store can come late: from a state in which activity i is about to make it, the node can be
      given up first if and only if it has been given up already, an announce has detached it, or it is in the live list
      and that can still be detached: the list is waiting, or some other activity will announce. */
  lemma SecondStoreIsLateIff(size: nat, s: List, i: nat)
    requires Reachable(size, s) && i < |s.acts| && s.acts[i].Relink?
    ensures s.acts[i].node < |s.nodes|
    ensures (exists ms, s' :: GivenUpMeanwhile(s, i, s.acts[i].node, ms, s'))
            <==> (!s.nodes[s.acts[i].node].place.Live? || CanBeDetached(s, i))
  {
    ReachableInv(size, s);
    assert ActOk(s, i);
    var n := s.acts[i].node;
    assert NodeOk(s, n);
    if s.nodes[n].place.Live? && !CanBeDetached(s, i) {
      forall ms, s' | GivenUpMeanwhile(s, i, n, ms, s') ensures false {
        RunKeepsOutOfReach(s, i, n, ms, s');
      }
    } else {
      var ms, s' := SecondStoreMadeLate(s, i);
    }
  }

  lemma SecondStoreMadeLate(s: List, i: nat) returns (ms: seq<Move>, s': List)
    requires Inv(s) && i < |s.acts| && s.acts[i].Relink? && s.acts[i].node < |s.nodes|
    requires !s.nodes[s.acts[i].node].place.Live? || CanBeDetached(s, i)
    ensures GivenUpMeanwhile(s, i, s.acts[i].node, ms, s')
  {
    var n := s.acts[i].node;
    assert ActOk(s, i) && NodeOk(s, n);
    assert s.nodes[n].place.Private? ==> ActOk(s, s.nodes[n].place.act);
    if s.nodes[n].place == Gone {
      ms, s' := [], s;
    } else if s.nodes[n].place.Detached? {
      ms, s' := MakeGone(s, i, n, s.nodes[n].place.act);
    } else if s.waiting && !s.done {
      var m := Finish(None, false);
      MoveKeepsInv(s, m);
      var s1 := Apply(s, m);
      assert s1.acts[|s.acts|] == SetException(None);
      assert Threatens(s1, n, |s.acts|);
      hide Inv, Apply;
      ms, s' := MakeGone(s1, i, n, |s.acts|);
      OneMoveMore(s, i, n, m, ms, s');
      ms := [m] + ms;
    } else if s.waiting {
      var j :| 0 <= j < |s.acts| && InDoneWaiting(s.acts[j]);
      ms, s' := MakeGone(s, i, n, j);
    } else {
      var j :| 0 <= j < |s.acts| && j != i && WillAnnounce(s.acts[j]);
      ms, s' := MakeGone(s, i, n, j);
    }
  }
}
