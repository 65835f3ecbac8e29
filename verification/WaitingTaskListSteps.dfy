/** Every step of every call keeps the invariant of the lock-free list. */
module WaitingTaskListSteps {
  import opened Options
  import opened WaitingTaskList

  // ----- Steps that touch no node -----

  /** A proper list stays one when its nodes stay as they are and no store to them is withdrawn. */
  lemma ChainedFrame(s: List, s': List, xs: seq<nat>, place: Place)
    requires Chained(s, xs, place) && |s'.nodes| >= |s.nodes| && |s'.acts| >= |s.acts|
    requires forall x :: x in xs ==> x < |s.nodes| && s'.nodes[x] == s.nodes[x]
    requires forall x :: x in xs && s.nodes[x].next == To(x) && s.nodes[x].creator < |s.acts| ==>
               s'.acts[s.nodes[x].creator] == s.acts[s.nodes[x].creator]
    ensures Chained(s', xs, place)
  {
    forall k | 0 <= k < |xs| ensures LinkedOrPending(s', xs[k], Successor(xs, k)) && s'.nodes[xs[k]].place == place {
      assert xs[k] in xs;
    }
  }

  /** A step that neither gives up a promise to announce nor enters or leaves doneWaiting. */
  lemma FlagsFrame(s: List, s': List, i: nat)
    requires NoLostTask(s) && OneDoneWaiting(s) && i < |s.acts| && |s'.acts| == |s.acts|
    requires s'.acts == s.acts[i := s'.acts[i]]
    requires s'.waiting == s.waiting && s'.done == s.done && s'.exception == s.exception && s'.verdict == s.verdict
    requires InDoneWaiting(s'.acts[i]) <==> InDoneWaiting(s.acts[i])
    requires s'.live != [] ==> s.live != []
    requires WillAnnounce(s.acts[i]) ==> s.waiting || WillAnnounce(s'.acts[i]) || s'.live == []
    ensures NoLostTask(s') && OneDoneWaiting(s')
  {
    if s'.live != [] && !s.waiting {
      var j :| 0 <= j < |s.acts| && WillAnnounce(s.acts[j]);
      assert WillAnnounce(s'.acts[j]);
    }
    if s.done && s.waiting {
      var j :| 0 <= j < |s.acts| && InDoneWaiting(s.acts[j]);
      assert InDoneWaiting(s'.acts[j]);
    }
  }

  /** Activity i moves to a new program counter; nodes, adds and the list stay. */
  lemma OnlyActKeepsOther(s: List, i: nat, pc: PC, j: nat)
    requires i < |s.acts| && !s.acts[i].Exchange? && !s.acts[i].LinkUp?
    requires j < |s.acts| && j != i && ActOk(s, j)
    ensures ActOk(At(s, i, pc), j)
  {
    ChainedFrame(s, At(s, i, pc), Todo(s.acts[j]), Detached(j));
  }

  lemma OnlyActKeepsActs(s: List, i: nat, pc: PC, s': List)
    requires ActsOk(s) && i < |s.acts| && s' == At(s, i, pc) && !s.acts[i].Exchange? && !s.acts[i].LinkUp?
    requires ActOk(s', i)
    ensures ActsOk(s')
  {
    forall j | 0 <= j < |s'.acts| ensures ActOk(s', j) {
      if j != i {
        assert ActOk(s, j);
        OnlyActKeepsOther(s, i, pc, j);
      }
    }
  }

  lemma OnlyActKeepsNodesAndAdds(s: List, i: nat, pc: PC, s': List)
    requires NodesOk(s) && AddsOk(s) && i < |s.acts| && s' == At(s, i, pc)
    requires !s.acts[i].Exchange? && !s.acts[i].LinkUp?
    requires Todo(pc) == Todo(s.acts[i]) && EnteringAdd(pc) == EnteringAdd(s.acts[i])
    requires s.acts[i].Drop? ==> pc.Drop? && pc.add == s.acts[i].add
    ensures NodesOk(s') && AddsOk(s')
  {
    forall n | 0 <= n < |s'.nodes| ensures NodeOk(s', n) {
      assert NodeOk(s, n);
    }
    forall a | 0 <= a < |s'.adds| ensures AddOk(s', a) {
      assert AddOk(s, a);
    }
  }

  lemma OnlyActMoves(s: List, i: nat, pc: PC, s': List)
    requires Inv(s) && i < |s.acts| && s' == At(s, i, pc)
    requires !s.acts[i].Exchange? && !s.acts[i].LinkUp?
    requires ActOk(s', i) && Todo(pc) == Todo(s.acts[i])
    requires EnteringAdd(pc) == EnteringAdd(s.acts[i])
    requires s.acts[i].Drop? ==> pc.Drop? && pc.add == s.acts[i].add
    requires WillAnnounce(s.acts[i]) ==> s.waiting || WillAnnounce(pc)
    requires InDoneWaiting(pc) <==> InDoneWaiting(s.acts[i])
    ensures Inv(s')
  {
    OnlyActKeepsActs(s, i, pc, s');
    OnlyActKeepsNodesAndAdds(s, i, pc, s');
    ChainedFrame(s, s', s.live, Live);
    FlagsFrame(s, s', i);
  }

  lemma ChainedMeans(s: List, xs: seq<nat>, place: Place)
    requires Chained(s, xs, place) && xs != []
    ensures xs[0] < |s.nodes| && s.nodes[xs[0]].place == place
    ensures LinkedOrPending(s, xs[0], First(xs[1..]))
    ensures Chained(s, xs[1..], place) && forall x :: x in xs[1..] ==> x != xs[0]
  {
    assert Successor(xs, 0) == First(xs[1..]);
    forall k | 0 <= k < |xs[1..]| ensures LinkedOrPending(s, xs[1..][k], Successor(xs[1..], k)) {
      assert xs[1..][k] == xs[k + 1];
      assert xs[1..][k + 1..] == xs[k + 2..];
      assert Successor(xs[1..], k) == Successor(xs, k + 1);
    }
  }

  /** What an activity's condition depends on, when another one moves. */
  ghost predicate SameForAct(s: List, s': List, j: nat) {
    && j < |s.acts| && j < |s'.acts| && s'.acts[j] == s.acts[j]
    && |s'.nodes| >= |s.nodes| && |s'.adds| >= |s.adds|
    && s'.waiting == s.waiting && s'.done == s.done && s'.verdict == s.verdict
    && (s.acts[j].ClearWaiting? ==> s'.exception == s.exception)
    && (s.acts[j].PresetWalk? || s.acts[j].PresetTell? ==> IsSuffix(s.live, s'.live))
    && (forall n :: 0 <= n < |s.nodes| ==> s'.nodes[n].add == s.nodes[n].add && s'.nodes[n].creator == s.nodes[n].creator)
    && (s.acts[j].Exchange? || s.acts[j].LinkUp? || s.acts[j].Relink? ==>
          var n := s.acts[j].node;
          && n < |s.nodes| && s'.nodes[n].next == s.nodes[n].next
          && (s.acts[j].Exchange? ==> s'.nodes[n].place == s.nodes[n].place)
          && (s.acts[j].LinkUp? ==>
                s'.nodes[n].place == s.nodes[n].place || (s.nodes[n].place.Live? && s'.nodes[n].place.Detached?)))
    && (forall a :: 0 <= a < |s.adds| && (s.adds[a].stage == Entering(j) || s.adds[a].stage == Dropping(j)) ==>
          s'.adds[a].stage == s.adds[a].stage)
  }

  lemma SuffixTransitive(xs: seq<nat>, ys: seq<nat>, zs: seq<nat>)
    requires IsSuffix(xs, ys) && IsSuffix(ys, zs)
    ensures IsSuffix(xs, zs)
  {
  }

  lemma ActFrame(s: List, s': List, j: nat)
    requires j < |s.acts| && ActOk(s, j) && SameForAct(s, s', j)
    requires Chained(s', Todo(s.acts[j]), Detached(j))
    requires s.acts[j].Take? ==> s'.nodes[s.acts[j].node].next == s.nodes[s.acts[j].node].next
    ensures ActOk(s', j)
  {
    if s.acts[j].PresetWalk? || s.acts[j].PresetTell? {
      SuffixTransitive(s.acts[j].todo, s.live, s'.live);
    }
  }

  lemma FlagStepKeepsInv(s: List, i: nat)
    requires Inv(s) && Enabled(s, Advance(i))
    requires s.acts[i].TestWaiting? || s.acts[i].Recheck? || s.acts[i].PresetTest?
    ensures Inv(Step(s, i))
  {
    var s' := Step(s, i);
    assert ActOk(s, i);
    assert ActOk(s', i);
    OnlyActMoves(s, i, s'.acts[i], s');
  }

  lemma AddsOfNodes(s: List)
    requires NodesOk(s)
    ensures forall n :: 0 <= n < |s.nodes| ==> s.nodes[n].add < |s.adds|
  {
    forall n | 0 <= n < |s.nodes| ensures s.nodes[n].add < |s.adds| {
      assert NodeOk(s, n);
    }
  }

  lemma WalkKeepsActOk(s: List, i: nat)
    requires i < |s.acts| && ActOk(s, i) && s.acts[i].Walk? && Step(s, i) != s
    requires forall n :: 0 <= n < |s.nodes| ==> s.nodes[n].add < |s.adds|
    ensures ActOk(Step(s, i), i) && Todo(Step(s, i).acts[i]) == Todo(s.acts[i])
  {
    var todo := s.acts[i].todo;
    if todo != [] {
      ChainedMeans(s, todo, Detached(i));
    }
    ChainedFrame(s, Step(s, i), todo, Detached(i));
  }

  lemma WalkKeepsInv(s: List, i: nat)
    requires Inv(s) && Enabled(s, Advance(i)) && s.acts[i].Walk?
    ensures Inv(Step(s, i))
  {
    assert ActOk(s, i);
    var s' := Step(s, i);
    if s' != s {
      AddsOfNodes(s);
      WalkKeepsActOk(s, i);
      var pc := s'.acts[i];
      assert s' == At(s, i, pc) && (pc.Done? || pc.Take?);
      OnlyActMoves(s, i, pc, s');
    }
  }

  lemma PresetWalkKeepsInv(s: List, i: nat)
    requires Inv(s) && Enabled(s, Advance(i)) && s.acts[i].PresetWalk?
    ensures Inv(Step(s, i))
  {
    var s' := Step(s, i);
    assert ActOk(s, i);
    if s' != s {
      if s.acts[i].todo != [] {
        SuffixIsLive(s, s.acts[i].todo);
        assert NodeOk(s, s.acts[i].todo[0]);
      }
      OnlyActMoves(s, i, s'.acts[i], s');
    }
  }

  /** presetTaskAsFailed walks nodes that nobody detaches while the list is waiting. */
  lemma SuffixIsLive(s: List, todo: seq<nat>)
    requires LiveOk(s) && IsSuffix(todo, s.live) && todo != []
    ensures todo[0] < |s.nodes| && s.nodes[todo[0]].place.Live? && IsSuffix(todo[1..], s.live)
    ensures LinkedOrPending(s, todo[0], First(todo[1..]))
  {
    var k := |s.live| - |todo|;
    assert s.live[k] == todo[0];
    assert s.live[k + 1..] == todo[1..];
    assert Successor(s.live, k) == First(todo[1..]);
  }

  /** Activity i moves and one add changes, by that activity; nodes and the list stay. */
  ghost predicate ActAndAdd(s: List, i: nat, pc: PC, a: nat, f: Add, s': List) {
    && i < |s.acts| && a < |s.adds| && s' == At(AddAt(s, a, f), i, pc)
    && !s.acts[i].Exchange? && !s.acts[i].LinkUp? && !WillAnnounce(s.acts[i])
    && Todo(pc) == Todo(s.acts[i])
    && (InDoneWaiting(pc) <==> InDoneWaiting(s.acts[i]))
    && (s.adds[a].stage == f.stage || s.adds[a].stage == Entering(i) || s.adds[a].stage == Dropping(i))
    && (EnteringAdd(s.acts[i]).Some? ==> EnteringAdd(s.acts[i]).value == a)
    && (s.acts[i].Drop? ==> s.acts[i].add == a)
  }

  lemma ActAndAddKeepOther(s: List, i: nat, pc: PC, a: nat, f: Add, s': List, j: nat)
    requires ActAndAdd(s, i, pc, a, f, s') && j < |s.acts| && j != i && ActOk(s, j)
    ensures ActOk(s', j)
  {
    ChainedFrame(s, s', Todo(s.acts[j]), Detached(j));
    ActFrame(s, s', j);
  }

  lemma ActAndAddKeepActs(s: List, i: nat, pc: PC, a: nat, f: Add, s': List)
    requires ActsOk(s) && ActAndAdd(s, i, pc, a, f, s') && ActOk(s', i)
    ensures ActsOk(s')
  {
    forall j | 0 <= j < |s'.acts| && j != i ensures ActOk(s', j) {
      ActAndAddKeepOther(s, i, pc, a, f, s', j);
    }
  }

  lemma ActAndAddKeepNodesAndAdds(s: List, i: nat, pc: PC, a: nat, f: Add, s': List)
    requires NodesOk(s) && AddsOk(s) && ActAndAdd(s, i, pc, a, f, s') && AddOk(s', a)
    ensures NodesOk(s') && AddsOk(s')
  {
    forall n | 0 <= n < |s'.nodes| ensures NodeOk(s', n) {
      assert NodeOk(s, n);
    }
    forall b | 0 <= b < |s'.adds| ensures AddOk(s', b) {
      assert AddOk(s, b);
    }
  }

  lemma ActAndAddKeepList(s: List, i: nat, pc: PC, a: nat, f: Add, s': List)
    requires LiveOk(s) && NoLostTask(s) && OneDoneWaiting(s) && ActAndAdd(s, i, pc, a, f, s')
    ensures LiveOk(s') && NoLostTask(s') && OneDoneWaiting(s')
  {
    ChainedFrame(s, s', s.live, Live);
    FlagsFrame(s, s', i);
  }

  lemma ActAndAddMove(s: List, i: nat, pc: PC, a: nat, f: Add, s': List)
    requires Inv(s) && ActAndAdd(s, i, pc, a, f, s') && ActOk(s', i) && AddOk(s', a)
    ensures Inv(s')
  {
    ActAndAddKeepActs(s, i, pc, a, f, s');
    ActAndAddKeepNodesAndAdds(s, i, pc, a, f, s');
    ActAndAddKeepList(s, i, pc, a, f, s');
  }

  lemma TellKeepsInv(s: List, i: nat)
    requires Inv(s) && Enabled(s, Advance(i)) && s.acts[i].Tell?
    ensures Inv(Step(s, i))
  {
    var s' := Step(s, i);
    var a := s.acts[i].add;
    assert ActOk(s, i) && AddOk(s, a);
    ActAndAddMove(s, i, Drop(a, Null, []), a, s'.adds[a], s');
  }

  lemma DropKeepsSelf(s: List, i: nat)
    requires Enabled(s, Advance(i)) && s.acts[i].Drop? && ActOk(s, i) && AddOk(s, s.acts[i].add)
    ensures ActOk(Step(s, i), i) && AddOk(Step(s, i), s.acts[i].add)
  {
    ChainedFrame(s, Step(s, i), Todo(s.acts[i]), Detached(i));
  }

  lemma DropKeepsInv(s: List, i: nat)
    requires Inv(s) && Enabled(s, Advance(i)) && s.acts[i].Drop?
    ensures Inv(Step(s, i))
  {
    var s' := Step(s, i);
    var a := s.acts[i].add;
    assert ActOk(s, i) && AddOk(s, a);
    DropKeepsSelf(s, i);
    ActAndAddMove(s, i, s'.acts[i], a, s'.adds[a], s');
  }

  lemma PresetTellKeepsInv(s: List, i: nat)
    requires Inv(s) && Enabled(s, Advance(i)) && s.acts[i].PresetTell?
    ensures Inv(Step(s, i))
  {
    var s' := Step(s, i);
    var n := s.acts[i].node;
    var a := s.nodes[n].add;
    assert ActOk(s, i) && AddOk(s, a);
    SuffixIsLive(s, s.acts[i].todo);
    assert NodeOk(s, n);
    ActAndAddMove(s, i, s'.acts[i], a, s'.adds[a], s');
  }

  // ----- Steps on nodes -----

  lemma CreateKeepsInv(s: List, i: nat)
    requires Inv(s) && Enabled(s, Advance(i)) && s.acts[i].Create?
    ensures Inv(Step(s, i))
  {
    var s' := Step(s, i);
    var a, n := s.acts[i].add, |s.nodes|;
    assert ActOk(s, i) && AddOk(s, a);
    CreateKeepsActs(s, i);
    CreateKeepsNodesAndAdds(s, i);
    ChainedFrame(s, s', s.live, Live);
    FlagsFrame(s, s', i);
  }

  lemma CreateKeepsOther(s: List, i: nat, j: nat)
    requires Enabled(s, Advance(i)) && s.acts[i].Create? && ActOk(s, i)
    requires j < |s.acts| && j != i && ActOk(s, j)
    ensures ActOk(Step(s, i), j)
  {
    ChainedFrame(s, Step(s, i), Todo(s.acts[j]), Detached(j));
    ActFrame(s, Step(s, i), j);
  }

  lemma CreateKeepsActs(s: List, i: nat)
    requires ActsOk(s) && Enabled(s, Advance(i)) && s.acts[i].Create?
    ensures ActsOk(Step(s, i))
  {
    assert ActOk(s, i);
    forall j | 0 <= j < |s.acts| && j != i ensures ActOk(Step(s, i), j) {
      CreateKeepsOther(s, i, j);
    }
    assert ActOk(Step(s, i), i);
  }

  lemma CreateKeepsNodesAndAdds(s: List, i: nat)
    requires ActsOk(s) && NodesOk(s) && AddsOk(s) && Enabled(s, Advance(i)) && s.acts[i].Create?
    ensures NodesOk(Step(s, i)) && AddsOk(Step(s, i))
  {
    var s' := Step(s, i);
    var a, n := s.acts[i].add, |s.nodes|;
    assert ActOk(s, i) && AddOk(s, a);
    forall m | 0 <= m < |s'.nodes| ensures NodeOk(s', m) {
      if m < n {
        assert NodeOk(s, m);
      }
    }
    forall b | 0 <= b < |s'.adds| ensures AddOk(s', b) {
      assert AddOk(s, b);
    }
  }

  lemma ExchangeKeepsInv(s: List, i: nat)
    requires Inv(s) && Enabled(s, Advance(i)) && s.acts[i].Exchange?
    ensures Inv(Step(s, i))
  {
    assert ActOk(s, i);
    ExchangeKeepsActs(s, i);
    ExchangeKeepsNodesAndAdds(s, i);
    ExchangeKeepsList(s, i);
  }

  lemma ExchangeKeepsOther(s: List, i: nat, j: nat)
    requires Enabled(s, Advance(i)) && s.acts[i].Exchange? && ActOk(s, i)
    requires j < |s.acts| && j != i && ActOk(s, j)
    ensures ActOk(Step(s, i), j)
  {
    var s' := Step(s, i);
    assert forall x :: x in Todo(s.acts[j]) ==> x < |s.nodes| && s.nodes[x].place == Detached(j);
    ChainedFrame(s, s', Todo(s.acts[j]), Detached(j));
    assert IsSuffix(s.live, s'.live);
    ActFrame(s, s', j);
  }

  lemma ExchangeKeepsActs(s: List, i: nat)
    requires ActsOk(s) && LiveOk(s) && NodesOk(s) && Enabled(s, Advance(i)) && s.acts[i].Exchange?
    ensures ActsOk(Step(s, i))
  {
    assert ActOk(s, i);
    forall j | 0 <= j < |s.acts| && j != i ensures ActOk(Step(s, i), j) {
      ExchangeKeepsOther(s, i, j);
    }
    ExchangeKeepsSelf(s, i);
  }

  lemma ExchangeKeepsSelf(s: List, i: nat)
    requires LiveOk(s) && NodesOk(s) && Enabled(s, Advance(i)) && s.acts[i].Exchange? && ActOk(s, i)
    ensures ActOk(Step(s, i), i)
  {
    assert NodeOk(s, s.acts[i].node);
    if s.live != [] {
      ChainedMeans(s, s.live, Live);
    }
  }

  lemma ExchangeKeepsNodesAndAdds(s: List, i: nat)
    requires NodesOk(s) && AddsOk(s) && Enabled(s, Advance(i)) && s.acts[i].Exchange?
    requires ActOk(s, i)
    ensures NodesOk(Step(s, i)) && AddsOk(Step(s, i))
  {
    var s' := Step(s, i);
    var n := s.acts[i].node;
    forall m | 0 <= m < |s'.nodes| ensures NodeOk(s', m) {
      assert NodeOk(s, m);
      assert s.live <= s'.live[1..];
    }
    forall b | 0 <= b < |s'.adds| ensures AddOk(s', b) {
      assert AddOk(s, b);
    }
  }

  lemma ChainedCons(s: List, n: nat, xs: seq<nat>, place: Place)
    requires Chained(s, xs, place) && LinkedOrPending(s, n, First(xs)) && s.nodes[n].place == place && n !in xs
    ensures Chained(s, [n] + xs, place)
  {
    var ys := [n] + xs;
    assert ys[1..] == xs;
    forall k | 0 <= k < |ys| ensures LinkedOrPending(s, ys[k], Successor(ys, k)) && s.nodes[ys[k]].place == place {
      if k > 0 {
        assert ys[k] == xs[k - 1] && ys[k + 1..] == xs[k..];
        assert Successor(ys, k) == Successor(xs, k - 1);
      }
    }
  }

  lemma ExchangeKeepsLive(s: List, i: nat)
    requires LiveOk(s) && Enabled(s, Advance(i)) && s.acts[i].Exchange? && ActOk(s, i)
    ensures LiveOk(Step(s, i))
  {
    var s' := Step(s, i);
    var n := s.acts[i].node;
    assert forall x :: x in s.live ==> x < |s.nodes| && s.nodes[x].place == Live;
    ChainedFrame(s, s', s.live, Live);
    assert s'.acts[i] == LinkUp(n, First(s.live));
    ChainedCons(s', n, s.live, Live);
  }

  lemma ExchangeKeepsList(s: List, i: nat)
    requires LiveOk(s) && NoLostTask(s) && OneDoneWaiting(s) && Enabled(s, Advance(i)) && s.acts[i].Exchange?
    requires ActOk(s, i)
    ensures var s' := Step(s, i); LiveOk(s') && NoLostTask(s') && OneDoneWaiting(s')
  {
    var s' := Step(s, i);
    ExchangeKeepsLive(s, i);
    if s.live == [] {
      FlagsFrame(s, s'.(live := []), i);
      assert WillAnnounce(s'.acts[i]);
    } else {
      FlagsFrame(s, s', i);
    }
  }

  /** Storing a pending link makes it right in whatever list the node is in by now. */
  lemma ChainedAfterLink(s: List, s': List, i: nat, n: nat, prior: Link, xs: seq<nat>, place: Place)
    requires Chained(s, xs, place) && i < |s.acts| && n < |s.nodes| && s.nodes[n].add < |s.adds|
    requires s.acts[i] == LinkUp(n, prior) && s.nodes[n].creator == i && s.nodes[n].next == To(n)
    requires s' == At(Linked(s, n, prior), i, AfterLink(s, n, prior))
    requires forall x :: 0 <= x < |s.nodes| && x != n && s.nodes[x].next == To(x) && s.nodes[x].place == place
               ==> s.nodes[x].creator != i
    ensures Chained(s', xs, place)
  {
    forall k | 0 <= k < |xs| ensures LinkedOrPending(s', xs[k], Successor(xs, k)) {
      assert LinkedOrPending(s, xs[k], Successor(xs, k));
      assert k + 1 < |xs| ==> xs[k + 1..][0] == xs[k + 1];  // so a node never follows itself
    }
  }

  predicate Listed(x: Node) {
    x.place.Live? || x.place.Detached?
  }

  /** Only one node of an activity is waiting for its link. */
  lemma OnePending(s: List, i: nat, n: nat, prior: Link)
    requires NodesOk(s) && i < |s.acts| && s.acts[i] == LinkUp(n, prior)
    ensures forall x | 0 <= x < |s.nodes| && x != n && s.nodes[x].next == To(x) && Listed(s.nodes[x]) ::
              s.nodes[x].creator != i
  {
    forall x | 0 <= x < |s.nodes| && x != n && s.nodes[x].next == To(x)
              && Listed(s.nodes[x])
      ensures s.nodes[x].creator != i
    {
      assert NodeOk(s, x);
    }
  }

  lemma LinkUpKeepsInv(s: List, i: nat)
    requires Inv(s) && Enabled(s, Advance(i)) && s.acts[i].LinkUp?
    ensures Inv(Step(s, i))
  {
    var s' := Step(s, i);
    var n, prior := s.acts[i].node, s.acts[i].prior;
    assert ActOk(s, i);
    OnePending(s, i, n, prior);
    LinkUpKeepsActs(s, i);
    LinkUpKeepsNodesAndAdds(s, i);
    ChainedAfterLink(s, s', i, n, prior, s.live, Live);
    FlagsFrame(s, s', i);
  }

  lemma LinkUpKeepsActs(s: List, i: nat)
    requires ActsOk(s) && NodesOk(s) && Enabled(s, Advance(i)) && s.acts[i].LinkUp?
    ensures ActsOk(Step(s, i))
  {
    var s' := Step(s, i);
    var n, prior := s.acts[i].node, s.acts[i].prior;
    assert ActOk(s, i);
    OnePending(s, i, n, prior);
    forall j | 0 <= j < |s'.acts| ensures ActOk(s', j) {
      assert ActOk(s, j);
      ChainedAfterLink(s, s', i, n, prior, Todo(s.acts[j]), Detached(j));
      if j != i {
        if s.acts[j].Take? {
          ChainedMeans(s, s.acts[j].todo, Detached(j));
        }
        ActFrame(s, s', j);
      }
    }
  }

  lemma LinkUpKeepsNodesAndAdds(s: List, i: nat)
    requires NodesOk(s) && AddsOk(s) && Enabled(s, Advance(i)) && s.acts[i].LinkUp? && ActOk(s, i)
    ensures NodesOk(Step(s, i)) && AddsOk(Step(s, i))
  {
    var s' := Step(s, i);
    OnePending(s, i, s.acts[i].node, s.acts[i].prior);
    forall m | 0 <= m < |s'.nodes| ensures NodeOk(s', m) {
      assert NodeOk(s, m);
    }
    forall b | 0 <= b < |s'.adds| ensures AddOk(s', b) {
      assert AddOk(s, b);
    }
  }

  /** The second store of the holder overload writes what is there already. */
  lemma RelinkKeepsInv(s: List, i: nat)
    requires Inv(s) && Enabled(s, Advance(i)) && s.acts[i].Relink?
    ensures Inv(Step(s, i))
  {
    var n := s.acts[i].node;
    assert ActOk(s, i);
    assert s.nodes[n := s.nodes[n].(next := Null)] == s.nodes;
    assert ActOk(Step(s, i), i);
    OnlyActMoves(s, i, Recheck, Step(s, i));
  }

  /** A list keeps its links when its nodes only move to another place. */
  lemma ChainedMoves(s: List, s': List, xs: seq<nat>, place: Place, place': Place)
    requires Chained(s, xs, place) && |s'.nodes| == |s.nodes| && |s'.acts| == |s.acts|
    requires forall x :: x in xs ==> x < |s.nodes| && s'.nodes[x] == s.nodes[x].(place := place')
    requires forall k :: 0 <= k < |s.acts| && s.acts[k].LinkUp? ==> s'.acts[k] == s.acts[k]
    ensures Chained(s', xs, place')
  {
    forall k | 0 <= k < |xs| ensures LinkedOrPending(s', xs[k], Successor(xs, k)) && s'.nodes[xs[k]].place == place' {
      assert xs[k] in xs;
    }
  }

  lemma AnnounceNodes(s: List, i: nat)
    requires i < |s.acts|
    ensures var s' := AnnounceStep(s, i);
            && |s'.nodes| == |s.nodes|
            && forall n :: 0 <= n < |s.nodes| ==>
                 s'.nodes[n] == if s.nodes[n].place == Live then s.nodes[n].(place := Detached(i)) else s.nodes[n]
  {
  }

  lemma AnnounceKeepsTodo(s: List, i: nat, j: nat)
    requires i < |s.acts| && s.acts[i].Announce? && j < |s.acts| && Chained(s, Todo(s.acts[j]), Detached(j))
    ensures Chained(AnnounceStep(s, i), Todo(s.acts[j]), Detached(j))
  {
    AnnounceNodes(s, i);
    assert forall x :: x in Todo(s.acts[j]) ==> x < |s.nodes| && s.nodes[x].place == Detached(j);
    ChainedFrame(s, AnnounceStep(s, i), Todo(s.acts[j]), Detached(j));
  }

  lemma AnnounceKeepsOther(s: List, i: nat, j: nat)
    requires Enabled(s, Advance(i)) && s.acts[i].Announce? && !s.waiting
    requires j < |s.acts| && j != i && ActOk(s, j)
    ensures ActOk(Step(s, i), j)
  {
    var s' := Step(s, i);
    assert s' == AnnounceStep(s, i);
    AnnounceNodes(s, i);
    AnnounceKeepsTodo(s, i, j);
    assert SameForAct(s, s', j);
    ActFrame(s, s', j);
  }

  lemma AnnounceKeepsInv(s: List, i: nat)
    requires Inv(s) && Enabled(s, Advance(i)) && s.acts[i].Announce?
    ensures Inv(Step(s, i))
  {
    var s' := Step(s, i);
    assert ActOk(s, i);
    assert forall x :: x in s.live ==> x < |s.nodes| && s.nodes[x].place == Live;
    ChainedMoves(s, s', s.live, Live, Detached(i));
    forall j | 0 <= j < |s.acts| && j != i ensures ActOk(s', j) {
      AnnounceKeepsOther(s, i, j);
    }
    assert s.live != [] ==> s.live[0] in s.live;
    assert ActOk(s', i);
    AnnounceKeepsNodesAndAdds(s, i);
  }

  lemma AnnounceKeepsNodesAndAdds(s: List, i: nat)
    requires NodesOk(s) && AddsOk(s) && Enabled(s, Advance(i)) && s.acts[i].Announce?
    ensures NodesOk(Step(s, i)) && AddsOk(Step(s, i))
  {
    var s' := Step(s, i);
    forall m | 0 <= m < |s'.nodes| ensures NodeOk(s', m) {
      assert NodeOk(s, m);
    }
    forall b | 0 <= b < |s'.adds| ensures AddOk(s', b) {
      assert AddOk(s, b);
    }
  }

  lemma TakeSameForAct(s: List, i: nat, j: nat)
    requires Enabled(s, Advance(i)) && s.acts[i].Take? && s.acts[i].node < |s.nodes|
    requires s.nodes[s.acts[i].node].place == Detached(i) && s.adds[s.nodes[s.acts[i].node].add].stage.InNode?
    requires j < |s.acts| && j != i && (s.acts[j].Exchange? ==> s.acts[j].node < |s.nodes| && s.nodes[s.acts[j].node].place.Private?)
    requires s.acts[j].LinkUp? || s.acts[j].Relink? ==> s.acts[j].node < |s.nodes|
    requires s.acts[j].LinkUp? ==> s.acts[j].node != s.acts[i].node
    ensures SameForAct(s, Step(s, i), j)
  {
  }

  lemma TakeKeepsTodo(s: List, i: nat, j: nat)
    requires Enabled(s, Advance(i)) && s.acts[i].Take? && s.nodes[s.acts[i].node].place == Detached(i)
    requires j < |s.acts| && j != i && Chained(s, Todo(s.acts[j]), Detached(j))
    ensures Chained(Step(s, i), Todo(s.acts[j]), Detached(j))
  {
    ChainedFrame(s, Step(s, i), Todo(s.acts[j]), Detached(j));
  }

  lemma TakeKeepsOther(s: List, i: nat, j: nat)
    requires Enabled(s, Advance(i)) && s.acts[i].Take? && ActOk(s, i) && NodeOk(s, s.acts[i].node)
    requires j < |s.acts| && j != i && ActOk(s, j)
    ensures ActOk(Step(s, i), j)
  {
    ChainedMeans(s, s.acts[i].todo, Detached(i));
    assert s.nodes[s.acts[i].node].next != To(s.acts[i].node);
    TakeKeepsTodo(s, i, j);
    TakeSameForAct(s, i, j);
    ActFrame(s, Step(s, i), j);
  }

  lemma TakeKeepsSelf(s: List, i: nat)
    requires Enabled(s, Advance(i)) && s.acts[i].Take? && ActOk(s, i)
    ensures ActOk(Step(s, i), i)
  {
    var todo := s.acts[i].todo;
    ChainedMeans(s, todo, Detached(i));
    ChainedFrame(s, Step(s, i), todo[1..], Detached(i));
  }

  lemma TakeKeepsNodes(s: List, i: nat)
    requires NodesOk(s) && Enabled(s, Advance(i)) && s.acts[i].Take? && ActOk(s, i)
    ensures NodesOk(Step(s, i))
  {
    var n := s.acts[i].node;
    ChainedMeans(s, s.acts[i].todo, Detached(i));
    assert NodeOk(s, n) && n == s.acts[i].todo[0] && s.nodes[n].place == Detached(i);
    TakeKeepsItsNode(s, i);
    hide ActOk, NodeOk;
    forall m | 0 <= m < |s.nodes| && m != n ensures NodeOk(Step(s, i), m) {
      TakeKeepsNode(s, i, m);
    }
  }

  lemma TakeKeepsItsNode(s: List, i: nat)
    requires Enabled(s, Advance(i)) && s.acts[i].Take? && s.acts[i].node < |s.nodes| && NodeOk(s, s.acts[i].node)
    requires ActOk(s, i) && s.nodes[s.acts[i].node].place == Detached(i)
    ensures |Step(s, i).nodes| == |s.nodes| && NodeOk(Step(s, i), s.acts[i].node)
  {
  }

  lemma TakeKeepsNode(s: List, i: nat, m: nat)
    requires Enabled(s, Advance(i)) && s.acts[i].Take? && m < |s.nodes| && m != s.acts[i].node
    requires s.acts[i].node < |s.nodes| && s.acts[i].node == s.acts[i].todo[0]
    requires NodeOk(s, s.acts[i].node) && s.nodes[s.acts[i].node].place == Detached(i) && NodeOk(s, m)
    ensures |Step(s, i).nodes| == |s.nodes| && NodeOk(Step(s, i), m)
  {
    if s.nodes[m].place == Detached(i) {
      assert m in s.acts[i].todo[1..];
    }
  }

  lemma TakeKeepsAdds(s: List, i: nat)
    requires NodesOk(s) && AddsOk(s) && OneDoneWaiting(s) && Enabled(s, Advance(i)) && s.acts[i].Take? && ActOk(s, i)
    ensures AddsOk(Step(s, i))
  {
    var n := s.acts[i].node;
    ChainedMeans(s, s.acts[i].todo, Detached(i));
    assert NodeOk(s, n) && AddOk(s, s.nodes[n].add);
    forall b | 0 <= b < |s.adds| ensures AddOk(Step(s, i), b) {
      assert AddOk(s, b);
    }
  }

  lemma TakeKeepsNodesAndAdds(s: List, i: nat)
    requires NodesOk(s) && AddsOk(s) && OneDoneWaiting(s) && Enabled(s, Advance(i)) && s.acts[i].Take? && ActOk(s, i)
    ensures NodesOk(Step(s, i)) && AddsOk(Step(s, i))
  {
    TakeKeepsNodes(s, i);
    TakeKeepsAdds(s, i);
  }

  lemma TakeKeepsActs(s: List, i: nat)
    requires ActsOk(s) && NodesOk(s) && Enabled(s, Advance(i)) && s.acts[i].Take?
    ensures ActsOk(Step(s, i))
  {
    assert ActOk(s, i);
    assert NodeOk(s, s.acts[i].node);
    forall j | 0 <= j < |s.acts| && j != i ensures ActOk(Step(s, i), j) {
      TakeKeepsOther(s, i, j);
    }
    TakeKeepsSelf(s, i);
  }

  lemma TakeKeepsLive(s: List, i: nat)
    requires LiveOk(s) && Enabled(s, Advance(i)) && s.acts[i].Take? && s.acts[i].node < |s.nodes|
    requires s.nodes[s.acts[i].node].place == Detached(i)
    ensures LiveOk(Step(s, i))
  {
    assert forall x :: x in s.live ==> x < |s.nodes| && s.nodes[x].place == Live;
    ChainedFrame(s, Step(s, i), s.live, Live);
  }

  lemma TakeKeepsList(s: List, i: nat)
    requires LiveOk(s) && NoLostTask(s) && OneDoneWaiting(s)
    requires Enabled(s, Advance(i)) && s.acts[i].Take? && ActOk(s, i)
    ensures var s' := Step(s, i); LiveOk(s') && NoLostTask(s') && OneDoneWaiting(s')
  {
    ChainedMeans(s, s.acts[i].todo, Detached(i));
    TakeKeepsLive(s, i);
    FlagsFrame(s, Step(s, i), i);
  }

  lemma TakeKeepsInv(s: List, i: nat)
    requires Inv(s) && Enabled(s, Advance(i)) && s.acts[i].Take?
    ensures Inv(Step(s, i))
  {
    assert ActOk(s, i);
    TakeKeepsActs(s, i);
    TakeKeepsNodesAndAdds(s, i);
    TakeKeepsList(s, i);
  }

  // ----- Steps of doneWaiting, and the moves that start a call or a cycle -----

  lemma SetExceptionKeepsOther(s: List, i: nat, j: nat)
    requires Enabled(s, Advance(i)) && s.acts[i].SetException?
    requires j < |s.acts| && j != i && ActOk(s, j) && !InDoneWaiting(s.acts[j])
    ensures ActOk(Step(s, i), j)
  {
    ChainedFrame(s, Step(s, i), Todo(s.acts[j]), Detached(j));
    ActFrame(s, Step(s, i), j);
  }

  lemma SetExceptionKeepsInv(s: List, i: nat)
    requires Inv(s) && Enabled(s, Advance(i)) && s.acts[i].SetException?
    ensures Inv(Step(s, i))
  {
    var s' := Step(s, i);
    assert ActOk(s, i);
    forall j | 0 <= j < |s.acts| && j != i ensures ActOk(s', j) {
      SetExceptionKeepsOther(s, i, j);
    }
    assert ActOk(s', i);
    FlagsKeepNodesAndAdds(s, s', i);
    ChainedFrame(s, s', s.live, Live);
  }

  lemma FlagsKeepNodesAndAdds(s: List, s': List, i: nat)
    requires NodesOk(s) && AddsOk(s) && i < |s.acts| && InDoneWaiting(s.acts[i])
    requires |s'.acts| == |s.acts| && s'.acts == s.acts[i := s'.acts[i]] && s'.nodes == s.nodes && s'.adds == s.adds
    requires s'.live == s.live && s'.verdict == s.verdict && s'.verdicts == s.verdicts && (s'.waiting ==> s.waiting)
    ensures NodesOk(s') && AddsOk(s')
  {
    forall m | 0 <= m < |s'.nodes| ensures NodeOk(s', m) {
      assert NodeOk(s, m);
    }
    forall b | 0 <= b < |s'.adds| ensures AddOk(s', b) {
      assert AddOk(s, b);
    }
  }

  lemma ClearWaitingKeepsInv(s: List, i: nat)
    requires Inv(s) && Enabled(s, Advance(i)) && s.acts[i].ClearWaiting?
    ensures Inv(Step(s, i))
  {
    var s' := Step(s, i);
    assert ActOk(s, i);
    forall j | 0 <= j < |s.acts| && j != i ensures ActOk(s', j) {
      assert ActOk(s, j) && !InDoneWaiting(s.acts[j]);
      ChainedFrame(s, s', Todo(s.acts[j]), Detached(j));
    }
    assert ActOk(s', i);
    FlagsKeepNodesAndAdds(s, s', i);
    ChainedFrame(s, s', s.live, Live);
    assert WillAnnounce(s'.acts[i]);
  }

  lemma StartAddKeepsActs(s: List, h: bool)
    requires ActsOk(s)
    ensures ActsOk(Apply(s, StartAdd(h)))
  {
    var s' := Apply(s, StartAdd(h));
    forall j | 0 <= j < |s.acts| ensures ActOk(s', j) {
      assert ActOk(s, j);
      ChainedFrame(s, s', Todo(s.acts[j]), Detached(j));
      ActFrame(s, s', j);
    }
    assert ActOk(s', |s.acts|);
  }

  lemma StartAddKeepsInv(s: List, h: bool)
    requires Inv(s)
    ensures Inv(Apply(s, StartAdd(h)))
  {
    var s' := Apply(s, StartAdd(h));
    StartAddKeepsActs(s, h);
    forall m | 0 <= m < |s'.nodes| ensures NodeOk(s', m) {
      assert NodeOk(s, m);
    }
    forall b | 0 <= b < |s.adds| ensures AddOk(s', b) {
      assert AddOk(s, b);
    }
    assert AddOk(s', |s.adds|);
    ChainedFrame(s, s', s.live, Live);
    FlagsExtend(s, s');
  }

  lemma FlagsExtend(s: List, s': List)
    requires NoLostTask(s) && OneDoneWaiting(s) && |s'.acts| == |s.acts| + 1 && s'.acts[..|s.acts|] == s.acts
    requires s'.acts[|s.acts|].TestWaiting? && s'.live == s.live
    requires s'.waiting == s.waiting && s'.done == s.done && s'.exception == s.exception && s'.verdict == s.verdict
    ensures NoLostTask(s') && OneDoneWaiting(s')
  {
    assert forall j :: 0 <= j < |s.acts| ==> s'.acts[j] == s.acts[j];
    if s.live != [] && !s.waiting {
      var j :| 0 <= j < |s.acts| && WillAnnounce(s.acts[j]);
      assert WillAnnounce(s'.acts[j]);
    }
    if s.done && s.waiting {
      var j :| 0 <= j < |s.acts| && InDoneWaiting(s.acts[j]);
      assert InDoneWaiting(s'.acts[j]);
    }
  }

  lemma FinishKeepsInv(s: List, e: Option<Failure>, preset: bool)
    requires Inv(s) && Enabled(s, Finish(e, preset))
    ensures Inv(Apply(s, Finish(e, preset)))
  {
    var s' := Apply(s, Finish(e, preset));
    forall j | 0 <= j < |s.acts| ensures ActOk(s', j) {
      assert ActOk(s, j) && !InDoneWaiting(s.acts[j]);
      ChainedFrame(s, s', Todo(s.acts[j]), Detached(j));
    }
    assert ActOk(s', |s.acts|);
    forall m | 0 <= m < |s'.nodes| ensures NodeOk(s', m) {
      assert NodeOk(s, m);
    }
    forall b | 0 <= b < |s'.adds| ensures AddOk(s', b) {
      assert AddOk(s, b);
    }
    ChainedFrame(s, s', s.live, Live);
  }

  /** When reset is allowed, every node of the cycle has been given up. */
  lemma ResetFindsAllGone(s: List)
    requires NodesOk(s) && ActsOk(s) && LiveOk(s) && Enabled(s, Reset)
    ensures s.live == [] && forall n :: 0 <= n < |s.nodes| ==> s.nodes[n].place == Gone
  {
    forall i | 0 <= i < |s.acts| ensures Todo(s.acts[i]) == [] && !s.acts[i].Exchange? {
      assert ActOk(s, i) && PastTheList(s.acts[i]);
    }
    forall n | 0 <= n < |s.nodes| ensures s.nodes[n].place == Gone {
      assert NodeOk(s, n);
    }
  }

  lemma ResetKeepsInv(s: List)
    requires Inv(s) && Enabled(s, Reset)
    ensures Inv(Apply(s, Reset))
  {
    var s' := Apply(s, Reset);
    ResetFindsAllGone(s);
    forall j | 0 <= j < |s.acts| ensures ActOk(s', j) {
      assert ActOk(s, j) && PastTheList(s.acts[j]);
      assert Todo(s.acts[j]) == [];
    }
    forall m | 0 <= m < |s'.nodes| ensures NodeOk(s', m) {
      assert NodeOk(s, m);
    }
    forall b | 0 <= b < |s'.adds| ensures AddOk(s', b) {
      assert AddOk(s, b);
      if s.adds[b].stage.Entering? {
        assert PastTheList(s.acts[s.adds[b].stage.act]);
      }
    }
  }

  lemma StepKeepsInv(s: List, i: nat)
    requires Inv(s) && Enabled(s, Advance(i))
    ensures Inv(Step(s, i))
  {
    match s.acts[i]
    case TestWaiting(_) => FlagStepKeepsInv(s, i);
    case Tell(_) => TellKeepsInv(s, i);
    case Create(_) => CreateKeepsInv(s, i);
    case Exchange(_) => ExchangeKeepsInv(s, i);
    case LinkUp(_, _) => LinkUpKeepsInv(s, i);
    case Relink(_) => RelinkKeepsInv(s, i);
    case Recheck => FlagStepKeepsInv(s, i);
    case Announce => AnnounceKeepsInv(s, i);
    case Walk(_, _) => WalkKeepsInv(s, i);
    case Take(_, _, _) => TakeKeepsInv(s, i);
    case Drop(_, _, _) => DropKeepsInv(s, i);
    case PresetTest(_) => FlagStepKeepsInv(s, i);
    case PresetWalk(_, _, _) => PresetWalkKeepsInv(s, i);
    case PresetTell(_, _, _, _) => PresetTellKeepsInv(s, i);
    case SetException(_) => SetExceptionKeepsInv(s, i);
    case ClearWaiting => ClearWaitingKeepsInv(s, i);
  }

  lemma MoveKeepsInv(s: List, m: Move)
    requires Inv(s) && Enabled(s, m)
    ensures Inv(Apply(s, m))
  {
    match m
    case StartAdd(h) => StartAddKeepsInv(s, h);
    case Finish(e, preset) => FinishKeepsInv(s, e, preset);
    case Reset => ResetKeepsInv(s);
    case Advance(i) => StepKeepsInv(s, i);
  }
}
