/**
  Forests: every node has one requestor.  Then every run ends with each root having sent the left-to-right
  short-circuit value of its tree, failures included, and with each node asked for exactly if that evaluation needs it.
 */
module DecisionForest {
  import opened DecisionGraph

  ghost predicate Forest(g: Graph) {
    && WellFormed(g)
    && (forall n :: 0 <= n < |g.nodes| ==> |g.nodes[n].requestors| == 1)
    && (forall n :: 0 <= n < |g.nodes| && g.nodes[n].requestors[0].Start? ==> n in g.roots)
    && (forall j, k :: 0 <= j < k < |g.roots| ==> g.roots[j] != g.roots[k])
  }

  function Top(g: Graph, n: nat): Requestor
    requires Forest(g) && n < |g.nodes|
  {
    g.nodes[n].requestors[0]
  }

  /** Left-to-right evaluation: the right child's value counts only when the left one leaves the matter open. */
  function Eval(g: Graph, n: nat): Status
    requires WellFormed(g) && n < |g.nodes|
  {
    match g.nodes[n].shape
    case Leaf(v) => v
    case And(l, r) => if Eval(g, l) == Go then Eval(g, r) else Eval(g, l)
    case Or(l, r) => if Eval(g, l) == Skip then Eval(g, r) else Eval(g, l)
  }

  predicate EndsEarly(g: Graph, n: nat)
    requires WellFormed(g) && n < |g.nodes| && !g.nodes[n].shape.Leaf?
  {
    match g.nodes[n].shape
    case And(l, _) => Eval(g, l) != Go
    case Or(l, _) => Eval(g, l) != Skip
  }

  lemma {:induction false} EvalIsDecided(g: Graph, n: nat)
    requires WellFormed(g) && n < |g.nodes|
    ensures Eval(g, n) != NotStarted
  {
    var x := g.nodes[n].shape;
    if !x.Leaf? {
      EvalIsDecided(g, x.left);
      EvalIsDecided(g, x.right);
    }
  }

  /** What the two routines of a composite have to do with evaluation. */
  lemma RoutesEvaluate(g: Graph, n: nat)
    requires WellFormed(g) && n < |g.nodes| && !g.nodes[n].shape.Leaf?
    ensures var x := g.nodes[n].shape;
            && Eval(g, n) != NotStarted
            && ShortCircuit(x, Eval(g, x.left)) == (if EndsEarly(g, n) then Eval(g, n) else NotStarted)
            && (!EndsEarly(g, n) ==> FullDecision(x, Eval(g, x.left), Eval(g, x.right)) == Eval(g, n))
  {
    EvalIsDecided(g, g.nodes[n].shape.left);
    EvalIsDecided(g, g.nodes[n].shape.right);
  }

  /** The evaluation of the roots evaluates this node. */
  predicate Needed(g: Graph, n: nat)
    requires Forest(g) && n < |g.nodes|
    decreases |g.nodes| - n
  {
    match Top(g, n)
    case Start => true
    case Parent(p) => Needed(g, p) && (g.nodes[p].shape.left == n || !EndsEarly(g, p))
  }

  // ----- How far a node is -----

  datatype Stage = Untouched | Unwanted | Active | Decided

  function StageOf(x: NodeState): Stage {
    if x.received == [] then Untouched
    else if !x.received[0] then Unwanted
    else if x.sent == [] then Active
    else Decided
  }

  /** What a node's own fields are at each stage. */
  ghost predicate NodeOk(g: Graph, s: State, n: nat)
    requires Forest(g) && Fits(g, s) && n < |g.nodes|
  {
    var x, shape := s.nodes[n], g.nodes[n].shape;
    && |x.received| <= 1 && x.told <= 1
    && (x.told == 1 ==> x.sent != [])
    && (shape.Leaf? ==> x.count == 0)
    && match StageOf(x)
       case Untouched => x.run.Idle? && x.willNotRun == 0 && x.sent == [] && x.count == 0
       case Unwanted => x.sent == [] && x.count == 0 && x.run == (if shape.Leaf? then WillNotRun else InProgress)
       case Active =>
         if shape.Leaf? then x.run.ShouldRun?
         else x.run.InProgress? && x.count <= 1
              && (x.count == 1 ==> !EndsEarly(g, n) && x.left == Eval(g, shape.left))
       case Decided => x.run.Completed? && x.sent == [Eval(g, n)]
  }

  /** The stages at which the children of a composite are, given its own fields. */
  function LeftStage(x: NodeState): Stage {
    match StageOf(x)
    case Untouched => Untouched
    case Unwanted => Unwanted
    case Active => if x.count == 0 then Active else Decided
    case Decided => Decided
  }

  function RightStage(g: Graph, n: nat, x: NodeState): Stage
    requires Forest(g) && n < |g.nodes| && !g.nodes[n].shape.Leaf?
  {
    match StageOf(x)
    case Untouched => Untouched
    case Unwanted => Unwanted
    case Active => if x.count == 0 then Untouched else Active
    case Decided => if EndsEarly(g, n) then Unwanted else Decided
  }

  /** The stage at which a node's parent takes it to be. */
  function Expected(g: Graph, s: State, c: nat): Stage
    requires Forest(g) && Fits(g, s) && c < |g.nodes| && Top(g, c).Parent?
  {
    var p := Top(g, c).node;
    if g.nodes[p].shape.left == c then LeftStage(s.nodes[p]) else RightStage(g, p, s.nodes[p])
  }

  /** In the middle of a propagation, a node may be about to be asked, and one may have decided without its requestor
      having been called back yet. */
  datatype Gap = Gap(toAsk: map<nat, bool>, calling: set<nat>)

  const NONE := Gap(map[], {})

  function Asked(want: bool): Stage { if want then Active else Unwanted }

  /** The roots that startAsync has requested. */
  function StartedRoots(g: Graph, s: State): seq<nat> {
    if s.started <= |g.roots| then g.roots[..s.started] else g.roots
  }

  ghost predicate EdgeOk(g: Graph, s: State, gap: Gap, c: nat)
    requires Forest(g) && Fits(g, s) && c < |g.nodes|
  {
    var stage := StageOf(s.nodes[c]);
    if Top(g, c).Start? then
      && stage != Unwanted
      && (c in gap.calling ==> stage == Decided)
      && (c in gap.toAsk ==> stage == Untouched && gap.toAsk[c])
      && (c !in gap.toAsk && c in StartedRoots(g, s) ==> stage != Untouched)
      && (stage != Untouched || c in gap.toAsk ==> c in StartedRoots(g, s))
    else if c in gap.toAsk then stage == Untouched && Expected(g, s, c) == Asked(gap.toAsk[c])
    else if c in gap.calling then stage == Decided && Expected(g, s, c) == Active
    else stage == Expected(g, s, c)
  }

  /** A decided node has called its requestor back, unless it is just doing so. */
  ghost predicate CalledOk(s: State, gap: Gap, n: nat)
    requires n < |s.nodes|
  {
    s.nodes[n].told == (if StageOf(s.nodes[n]) == Decided && n !in gap.calling then 1 else 0)
  }

  ghost predicate Inv(g: Graph, s: State, gap: Gap)
    requires Forest(g)
  {
    && Fits(g, s) && s.started <= |g.roots|
    && Inv0(g, s, gap)
    && s.finished == FinishedRoots(g, s, |g.roots|)
  }

  /** How many of the first k roots have called the start node back. */
  function FinishedRoots(g: Graph, s: State, k: nat): nat
    requires k <= |g.roots|
  {
    if k == 0 then 0
    else
      var r := g.roots[k - 1];
      FinishedRoots(g, s, k - 1) + if r < |s.nodes| && s.nodes[r].told > 0 then 1 else 0
  }

  lemma {:induction false} FinishedRootsSame(g: Graph, s: State, s': State, k: nat)
    requires k <= |g.roots| && |s'.nodes| == |s.nodes|
    requires forall n :: 0 <= n < |s.nodes| && n in g.roots[..k] ==> s'.nodes[n].told == s.nodes[n].told
    ensures FinishedRoots(g, s', k) == FinishedRoots(g, s, k)
  {
    if k > 0 {
      assert forall n :: n in g.roots[..k - 1] ==> n in g.roots[..k];
      assert g.roots[..k][k - 1] == g.roots[k - 1];
      FinishedRootsSame(g, s, s', k - 1);
    }
  }

  // ----- Requests -----

  /** Asking a node leaves every node above it as it is, and sends nothing. */
  lemma {:induction false} RequestBelow(g: Graph, s: State, n: nat, want: bool)
    requires WellFormed(g) && Fits(g, s) && n < |g.nodes|
    ensures var s' := Request(g, s, n, want);
            && (forall m :: n < m < |g.nodes| ==> s'.nodes[m] == s.nodes[m])
            && (forall m :: 0 <= m < |g.nodes| ==> s'.nodes[m].told == s.nodes[m].told && s'.nodes[m].sent == s.nodes[m].sent)
            && s'.started == s.started && s'.finished == s.finished
    decreases n
  {
    var x := s.nodes[n].(received := s.nodes[n].received + [want]);
    var shape := g.nodes[n].shape;
    if x.run == Idle && !shape.Leaf? {
      if want {
        RequestBelow(g, Set(Set(s, n, x.(run := ShouldRun)), n, x.(run := InProgress)), shape.left, true);
      } else {
        var x' := x.(willNotRun := x.willNotRun + 1);
        if x'.willNotRun == |g.nodes[n].requestors| {
          var s1 := Set(Set(s, n, x'.(run := WillNotRun)), n, x'.(run := InProgress));
          RequestBelow(g, s1, shape.left, false);
          RequestBelow(g, Request(g, s1, shape.left, false), shape.right, false);
        }
      }
    }
  }

  function Ask(gap: Gap, n: nat, want: bool): Gap {
    gap.(toAsk := gap.toAsk[n := want])
  }

  function DoneAsking(gap: Gap, n: nat): Gap {
    gap.(toAsk := gap.toAsk - {n})
  }

  lemma ChildrenOf(g: Graph, n: nat)
    requires Forest(g) && n < |g.nodes| && !g.nodes[n].shape.Leaf?
    ensures var l, r := g.nodes[n].shape.left, g.nodes[n].shape.right;
            l < n && r < n && l != r && Top(g, l) == Parent(n) && Top(g, r) == Parent(n)
  {
    var l, r := g.nodes[n].shape.left, g.nodes[n].shape.right;
    assert Calls(g.nodes[l].requestors, n, 1) == Times(g.nodes[n].shape, l);
    assert Calls(g.nodes[r].requestors, n, 1) == Times(g.nodes[n].shape, r);
    assert Calls(g.nodes[l].requestors, n, 0) == 0;
    assert Calls(g.nodes[r].requestors, n, 0) == 0;
  }

  /** All that is said about one node. */
  ghost predicate PointOk(g: Graph, s: State, gap: Gap, n: nat)
    requires Forest(g) && Fits(g, s) && n < |g.nodes|
  {
    NodeOk(g, s, n) && EdgeOk(g, s, gap, n) && CalledOk(s, gap, n)
  }

  /** A node is as it was when neither it, nor its parent, nor the gap at it has changed. */
  lemma PointFrame(g: Graph, s: State, gap: Gap, s': State, gap': Gap, m: nat)
    requires Forest(g) && Fits(g, s) && Fits(g, s') && m < |g.nodes| && PointOk(g, s, gap, m)
    requires s'.nodes[m] == s.nodes[m] && s'.started == s.started
    requires m in gap'.toAsk <==> m in gap.toAsk
    requires m in gap.toAsk ==> gap'.toAsk[m] == gap.toAsk[m]
    requires m in gap'.calling <==> m in gap.calling
    requires Top(g, m).Parent? ==>
               var p := Top(g, m).node;
               s'.nodes[p].received == s.nodes[p].received && s'.nodes[p].sent == s.nodes[p].sent
               && s'.nodes[p].count == s.nodes[p].count
    ensures PointOk(g, s', gap', m)
  {
  }

  /** The children of an untouched node are not part of any gap. */
  lemma ChildrenOfUntouched(g: Graph, s: State, gap: Gap, n: nat)
    requires Inv0(g, s, gap) && n < |g.nodes| && !g.nodes[n].shape.Leaf? && StageOf(s.nodes[n]).Untouched?
    ensures var l, r := g.nodes[n].shape.left, g.nodes[n].shape.right;
            && StageOf(s.nodes[l]).Untouched? && StageOf(s.nodes[r]).Untouched?
            && l !in gap.toAsk && r !in gap.toAsk && l !in gap.calling && r !in gap.calling
  {
    ChildrenOf(g, n);
    assert PointOk(g, s, gap, g.nodes[n].shape.left) && PointOk(g, s, gap, g.nodes[n].shape.right);
  }

  ghost predicate Inv0(g: Graph, s: State, gap: Gap) {
    Forest(g) && Fits(g, s) && forall n :: 0 <= n < |g.nodes| ==> PointOk(g, s, gap, n)
  }

  /** The gap after a node has taken up its request and before its children have theirs. */
  function AfterTakeUp(g: Graph, gap: Gap, n: nat, want: bool): Gap
    requires n < |g.nodes|
  {
    var shape, gap1 := g.nodes[n].shape, DoneAsking(gap, n);
    if shape.Leaf? then gap1
    else if want then Ask(gap1, shape.left, true)
    else Ask(Ask(gap1, shape.left, false), shape.right, false)
  }

  /** A node that has just taken up its request. */
  predicate TakesUp(g: Graph, n: nat, want: bool, x: NodeState)
    requires n < |g.nodes|
  {
    && x.received == [want] && x.sent == [] && x.count == 0 && x.told == 0
    && x.run == (if !g.nodes[n].shape.Leaf? then InProgress else if want then ShouldRun else WillNotRun)
  }

  lemma TakeUpRequest(g: Graph, s: State, gap: Gap, n: nat, want: bool, x: NodeState)
    requires Inv0(g, s, gap) && n < |g.nodes| && n in gap.toAsk && gap.toAsk[n] == want
    requires n !in gap.calling && TakesUp(g, n, want, x)
    ensures Inv0(g, Set(s, n, x), AfterTakeUp(g, gap, n, want))
  {
    var s1, gap1 := Set(s, n, x), AfterTakeUp(g, gap, n, want);
    assert PointOk(g, s, gap, n);
    if !g.nodes[n].shape.Leaf? {
      ChildrenOf(g, n);
      ChildrenOfUntouched(g, s, gap, n);
    }
    forall m | 0 <= m < |g.nodes| ensures PointOk(g, s1, gap1, m) {
      assert PointOk(g, s, gap, m);
      if m != n && Top(g, m) != Parent(n) {
        PointFrame(g, s, gap, s1, gap1, m);
      }
    }
  }

  /** A node about to be asked, asked: it and everything below it end up where its requestor takes it to be. */
  lemma {:induction false} RequestFills(g: Graph, s: State, gap: Gap, n: nat, want: bool)
    requires Inv0(g, s, gap) && n < |g.nodes| && n in gap.toAsk && gap.toAsk[n] == want && n !in gap.calling
    ensures Inv0(g, Request(g, s, n, want), DoneAsking(gap, n))
    decreases n
  {
    assert PointOk(g, s, gap, n);
    var shape, gap1 := g.nodes[n].shape, AfterTakeUp(g, gap, n, want);
    var x := s.nodes[n].(received := [want], willNotRun := if want then 0 else 1,
                         run := if !shape.Leaf? then InProgress else if want then ShouldRun else WillNotRun);
    var s1 := Set(s, n, x);
    assert s.nodes[n].received + [want] == [want];
    TakeUpRequest(g, s, gap, n, want, x);
    if !shape.Leaf? {
      ChildrenOf(g, n);
      ChildrenOfUntouched(g, s, gap, n);
      var l, r := shape.left, shape.right;
      RequestFills(g, s1, gap1, l, want);
      if want {
        assert Set(Set(s, n, x.(run := ShouldRun)), n, x) == s1;
        assert Request(g, s, n, true) == Request(g, s1, l, true);
        assert DoneAsking(gap1, l) == DoneAsking(gap, n);
      } else {
        var s2 := Request(g, s1, l, false);
        assert Set(Set(s, n, x.(run := WillNotRun)), n, x) == s1;
        assert Request(g, s, n, false) == Request(g, s2, r, false);
        RequestFills(g, s2, DoneAsking(gap1, l), r, false);
        assert DoneAsking(DoneAsking(gap1, l), r) == DoneAsking(gap, n);
      }
    } else {
      assert Request(g, s, n, want) == s1;
    }
  }

  lemma RequestKeepsInv(g: Graph, s: State, gap: Gap, n: nat, want: bool)
    requires Forest(g) && Inv(g, s, gap) && n < |g.nodes| && n in gap.toAsk && gap.toAsk[n] == want && n !in gap.calling
    ensures Inv(g, Request(g, s, n, want), DoneAsking(gap, n))
  {
    RequestFills(g, s, gap, n, want);
    RequestBelow(g, s, n, want);
    FinishedRootsSame(g, s, Request(g, s, n, want), |g.roots|);
  }

  // ----- Callbacks -----

  /** A node that has a parent is not a root. */
  lemma InnerIsNoRoot(g: Graph, n: nat)
    requires Forest(g) && n < |g.nodes| && Top(g, n).Parent?
    ensures n !in g.roots
  {
    forall k | 0 <= k < |g.roots| ensures g.roots[k] != n {
      assert Start in g.nodes[g.roots[k]].requestors;
    }
  }

  function Called(gap: Gap, n: nat): Gap {
    gap.(calling := gap.calling - {n})
  }

  function Calling(gap: Gap, n: nat, p: nat): Gap {
    gap.(calling := gap.calling - {n} + {p})
  }

  /** What a composite in progress looks like when its child n calls it back. */
  lemma ParentIsReady(g: Graph, s: State, gap: Gap, n: nat)
    requires Inv0(g, s, gap) && n < |g.nodes| && n in gap.calling && n !in gap.toAsk && Top(g, n).Parent?
    ensures var p := Top(g, n).node; var x, y := g.nodes[p].shape, s.nodes[p];
            && n < p < |g.nodes| && !x.Leaf? && y.run.InProgress? && y.sent == [] && y.received == [true] && y.told == 0
            && p !in gap.calling && p !in gap.toAsk
            && (x.left == n ==> y.count == 0)
            && (x.left != n ==> x.right == n && y.count == 1 && y.left == Eval(g, x.left) && !EndsEarly(g, p))
  {
    var p := Top(g, n).node;
    assert PointOk(g, s, gap, n) && PointOk(g, s, gap, p);
    assert g.nodes[n].requestors[0] == Parent(p);
    assert StageOf(s.nodes[p]) == Active;
    assert s.nodes[p].received == [true];
  }

  /** The sibling of a left child that is calling back has not been touched. */
  lemma RightIsUntouched(g: Graph, s: State, gap: Gap, p: nat)
    requires Inv0(g, s, gap) && p < |g.nodes| && !g.nodes[p].shape.Leaf?
    requires StageOf(s.nodes[p]).Active? && s.nodes[p].count == 0
    ensures var r := g.nodes[p].shape.right;
            StageOf(s.nodes[r]).Untouched? && r !in gap.toAsk && r !in gap.calling
  {
    ChildrenOf(g, p);
    assert PointOk(g, s, gap, g.nodes[p].shape.right);
  }

  /** The states after the stores of a callback from n to p. */
  function Heard(g: Graph, s: State, n: nat, p: nat, d: Status): State
    requires WellFormed(g) && Fits(g, s) && n < p < |g.nodes| && !g.nodes[p].shape.Leaf?
  {
    var y := s.nodes[p].(count := s.nodes[p].count + 1, heard := s.nodes[p].heard + [Callback(n, s.nodes[p].run)]);
    Set(Set(s, n, s.nodes[n].(told := 1)), p, if g.nodes[p].shape.left == n then y.(left := d) else y.(right := d))
  }

  /** What the parent of a left child knows when the child calls back. */
  ghost predicate LeftCalls(g: Graph, s: State, gap: Gap, n: nat, p: nat)
    requires Forest(g) && Fits(g, s) && n < |g.nodes| && p < |g.nodes|
  {
    var x, y := g.nodes[p].shape, s.nodes[p];
    && n < p && Top(g, n) == Parent(p) && !x.Leaf? && x.left == n
    && n in gap.calling && n !in gap.toAsk && p !in gap.calling && p !in gap.toAsk
    && y.run.InProgress? && y.sent == [] && y.received == [true] && y.told == 0 && y.count == 0
    && x.right < p && x.right != n && Top(g, x.right) == Parent(p)
    && StageOf(s.nodes[x.right]).Untouched? && x.right !in gap.toAsk && x.right !in gap.calling
  }

  lemma LeftIsCalling(g: Graph, s: State, gap: Gap, n: nat, p: nat)
    requires Inv0(g, s, gap) && n < p < |g.nodes| && n in gap.calling && n !in gap.toAsk && Top(g, n) == Parent(p)
    requires g.nodes[p].shape.left == n
    ensures LeftCalls(g, s, gap, n, p)
  {
    ParentIsReady(g, s, gap, n);
    RightIsUntouched(g, s, gap, p);
    ChildrenOf(g, p);
  }

  /** The parent after a left child's callback: waiting for the right child, or decided. */
  function AfterLeft(g: Graph, s: State, n: nat, p: nat): State
    requires WellFormed(g) && Fits(g, s) && n < p < |g.nodes| && !g.nodes[p].shape.Leaf?
  {
    var s1 := Heard(g, s, n, p, Eval(g, n));
    if EndsEarly(g, p) then Decide(s1, p, Eval(g, p)) else s1
  }

  function GapAfterLeft(g: Graph, gap: Gap, n: nat, p: nat): Gap
    requires WellFormed(g) && n < |g.nodes| && p < |g.nodes| && !g.nodes[p].shape.Leaf?
  {
    if EndsEarly(g, p) then Ask(Calling(gap, n, p), g.nodes[p].shape.right, false)
    else Ask(Called(gap, n), g.nodes[p].shape.right, true)
  }

  lemma AfterLeftAtChild(g: Graph, s: State, gap: Gap, n: nat, p: nat)
    requires Forest(g) && Fits(g, s) && n < |g.nodes| && p < |g.nodes| && LeftCalls(g, s, gap, n, p) && PointOk(g, s, gap, n)
    ensures PointOk(g, AfterLeft(g, s, n, p), GapAfterLeft(g, gap, n, p), n)
  {
    assert AfterLeft(g, s, n, p).nodes[n] == s.nodes[n].(told := 1);
  }

  lemma AfterLeftAtParent(g: Graph, s: State, gap: Gap, n: nat, p: nat)
    requires Forest(g) && Fits(g, s) && n < |g.nodes| && p < |g.nodes| && LeftCalls(g, s, gap, n, p) && PointOk(g, s, gap, p)
    ensures PointOk(g, AfterLeft(g, s, n, p), GapAfterLeft(g, gap, n, p), p)
  {
    var y := s.nodes[p].(count := 1, left := Eval(g, n), heard := s.nodes[p].heard + [Callback(n, InProgress)]);
    assert AfterLeft(g, s, n, p).nodes[p]
           == if EndsEarly(g, p) then y.(run := Completed, sent := [Eval(g, p)]) else y;
    if Top(g, p).Parent? {
      assert AfterLeft(g, s, n, p).nodes[Top(g, p).node] == s.nodes[Top(g, p).node];
    }
  }

  lemma AfterLeftAtRight(g: Graph, s: State, gap: Gap, n: nat, p: nat)
    requires Forest(g) && Fits(g, s) && n < |g.nodes| && p < |g.nodes| && LeftCalls(g, s, gap, n, p)
    requires PointOk(g, s, gap, g.nodes[p].shape.right)
    ensures PointOk(g, AfterLeft(g, s, n, p), GapAfterLeft(g, gap, n, p), g.nodes[p].shape.right)
  {
    var r, y := g.nodes[p].shape.right, s.nodes[p].(count := 1, left := Eval(g, n), heard := s.nodes[p].heard + [Callback(n, InProgress)]);
    assert AfterLeft(g, s, n, p).nodes[p]
           == if EndsEarly(g, p) then y.(run := Completed, sent := [Eval(g, p)]) else y;
    assert AfterLeft(g, s, n, p).nodes[r] == s.nodes[r];
  }

  /** A left child that has called back leaves its sibling to be asked, for an answer or for none. */
  lemma AfterLeftKeepsInv(g: Graph, s: State, gap: Gap, n: nat, p: nat)
    requires Inv0(g, s, gap) && n < p < |g.nodes| && n in gap.calling && n !in gap.toAsk && Top(g, n) == Parent(p)
    requires g.nodes[p].shape.left == n
    ensures Inv0(g, AfterLeft(g, s, n, p), GapAfterLeft(g, gap, n, p))
  {
    var s1, gap1 := AfterLeft(g, s, n, p), GapAfterLeft(g, gap, n, p);
    LeftIsCalling(g, s, gap, n, p);
    forall m | 0 <= m < |g.nodes| ensures PointOk(g, s1, gap1, m) {
      assert PointOk(g, s, gap, m);
      if m == n {
        AfterLeftAtChild(g, s, gap, n, p);
      } else if m == p {
        AfterLeftAtParent(g, s, gap, n, p);
      } else if m == g.nodes[p].shape.right {
        AfterLeftAtRight(g, s, gap, n, p);
      } else {
        AfterLeftElsewhere(g, s, gap, n, p, m);
      }
    }
  }

  lemma AfterLeftElsewhere(g: Graph, s: State, gap: Gap, n: nat, p: nat, m: nat)
    requires Forest(g) && Fits(g, s) && n < |g.nodes| && p < |g.nodes| && LeftCalls(g, s, gap, n, p)
    requires m < |g.nodes| && m != n && m != p && m != g.nodes[p].shape.right && PointOk(g, s, gap, m)
    ensures PointOk(g, AfterLeft(g, s, n, p), GapAfterLeft(g, gap, n, p), m)
  {
    var s1, gap1 := AfterLeft(g, s, n, p), GapAfterLeft(g, gap, n, p);
    assert s1.nodes[m] == s.nodes[m] && s1.started == s.started;
    if Top(g, m) == Parent(p) {
      OnlyTwoChildren(g, p, m);
    } else if Top(g, m) == Parent(n) {
      assert s1.nodes[n] == s.nodes[n].(told := 1);
    }
    PointFrame(g, s, gap, s1, gap1, m);
  }

  lemma OnlyTwoChildren(g: Graph, p: nat, m: nat)
    requires Forest(g) && p < |g.nodes| && m < |g.nodes| && Top(g, m) == Parent(p)
    ensures !g.nodes[p].shape.Leaf? && (m == g.nodes[p].shape.left || m == g.nodes[p].shape.right)
  {
    assert g.nodes[m].requestors[0].Parent?;
  }

  /** What the parent of a right child knows when the child calls back. */
  ghost predicate RightCalls(g: Graph, s: State, gap: Gap, n: nat, p: nat)
    requires Forest(g) && Fits(g, s) && n < |g.nodes| && p < |g.nodes|
  {
    var x, y := g.nodes[p].shape, s.nodes[p];
    && n < p && Top(g, n) == Parent(p) && !x.Leaf? && x.left < p && x.left != n && x.right == n
    && n in gap.calling && n !in gap.toAsk && p !in gap.calling && p !in gap.toAsk
    && y.run.InProgress? && y.sent == [] && y.received == [true] && y.told == 0 && y.count == 1
    && y.left == Eval(g, x.left) && !EndsEarly(g, p)
  }

  lemma RightIsCalling(g: Graph, s: State, gap: Gap, n: nat, p: nat)
    requires Inv0(g, s, gap) && n < p < |g.nodes| && n in gap.calling && n !in gap.toAsk && Top(g, n) == Parent(p)
    requires g.nodes[p].shape.left != n
    ensures RightCalls(g, s, gap, n, p)
  {
    ParentIsReady(g, s, gap, n);
    ChildrenOf(g, p);
  }

  function AfterRight(g: Graph, s: State, n: nat, p: nat): State
    requires WellFormed(g) && Fits(g, s) && n < p < |g.nodes| && !g.nodes[p].shape.Leaf?
  {
    Decide(Heard(g, s, n, p, Eval(g, n)), p, Eval(g, p))
  }

  lemma AfterRightAtChild(g: Graph, s: State, gap: Gap, n: nat, p: nat)
    requires Forest(g) && Fits(g, s) && n < |g.nodes| && p < |g.nodes| && RightCalls(g, s, gap, n, p) && PointOk(g, s, gap, n)
    ensures PointOk(g, AfterRight(g, s, n, p), Calling(gap, n, p), n)
  {
    var s1 := AfterRight(g, s, n, p);
    assert s1.nodes[p] == s.nodes[p].(count := 2, right := Eval(g, n), heard := s.nodes[p].heard + [Callback(n, InProgress)],
                                      run := Completed, sent := [Eval(g, p)]);
    assert s1.nodes[n] == s.nodes[n].(told := 1);
  }

  lemma AfterRightAtParent(g: Graph, s: State, gap: Gap, n: nat, p: nat)
    requires Forest(g) && Fits(g, s) && n < |g.nodes| && p < |g.nodes| && RightCalls(g, s, gap, n, p) && PointOk(g, s, gap, p)
    ensures PointOk(g, AfterRight(g, s, n, p), Calling(gap, n, p), p)
  {
    var s1 := AfterRight(g, s, n, p);
    assert s1.nodes[p] == s.nodes[p].(count := 2, right := Eval(g, n), heard := s.nodes[p].heard + [Callback(n, InProgress)],
                                      run := Completed, sent := [Eval(g, p)]);
    if Top(g, p).Parent? {
      assert s1.nodes[Top(g, p).node] == s.nodes[Top(g, p).node];
    }
  }

  lemma AfterRightAtLeft(g: Graph, s: State, gap: Gap, n: nat, p: nat)
    requires Forest(g) && Fits(g, s) && n < |g.nodes| && p < |g.nodes| && RightCalls(g, s, gap, n, p)
    requires PointOk(g, s, gap, g.nodes[p].shape.left) && Top(g, g.nodes[p].shape.left) == Parent(p)
    ensures PointOk(g, AfterRight(g, s, n, p), Calling(gap, n, p), g.nodes[p].shape.left)
  {
    var s1, l := AfterRight(g, s, n, p), g.nodes[p].shape.left;
    assert s1.nodes[p] == s.nodes[p].(count := 2, right := Eval(g, n), heard := s.nodes[p].heard + [Callback(n, InProgress)],
                                      run := Completed, sent := [Eval(g, p)]);
    assert s1.nodes[l] == s.nodes[l];
  }

  lemma AfterRightElsewhere(g: Graph, s: State, gap: Gap, n: nat, p: nat, m: nat)
    requires Forest(g) && Fits(g, s) && n < |g.nodes| && p < |g.nodes| && RightCalls(g, s, gap, n, p)
    requires m < |g.nodes| && m != n && m != p && m != g.nodes[p].shape.left && PointOk(g, s, gap, m)
    ensures PointOk(g, AfterRight(g, s, n, p), Calling(gap, n, p), m)
  {
    var s1 := AfterRight(g, s, n, p);
    assert s1.nodes[m] == s.nodes[m] && s1.started == s.started;
    if Top(g, m) == Parent(p) {
      OnlyTwoChildren(g, p, m);
    } else if Top(g, m) == Parent(n) {
      assert s1.nodes[n] == s.nodes[n].(told := 1);
    }
    PointFrame(g, s, gap, s1, Calling(gap, n, p), m);
  }

  /** A right child that has called back leaves its parent decided and about to call back in turn. */
  lemma AfterRightKeepsInv(g: Graph, s: State, gap: Gap, n: nat, p: nat)
    requires Inv0(g, s, gap) && n < p < |g.nodes| && n in gap.calling && n !in gap.toAsk && Top(g, n) == Parent(p)
    requires g.nodes[p].shape.left != n
    ensures Inv0(g, AfterRight(g, s, n, p), Calling(gap, n, p))
  {
    RightIsCalling(g, s, gap, n, p);
    forall m | 0 <= m < |g.nodes| ensures PointOk(g, AfterRight(g, s, n, p), Calling(gap, n, p), m) {
      assert PointOk(g, s, gap, m);
      if m == n {
        AfterRightAtChild(g, s, gap, n, p);
      } else if m == p {
        AfterRightAtParent(g, s, gap, n, p);
      } else if m == g.nodes[p].shape.left {
        ChildrenOf(g, p);
        AfterRightAtLeft(g, s, gap, n, p);
      } else {
        AfterRightElsewhere(g, s, gap, n, p, m);
      }
    }
  }

  lemma {:induction false} FinishedRootsOneMore(g: Graph, s: State, s': State, n: nat, k: nat)
    requires k <= |g.roots| && n < |s.nodes| && s.nodes[n].told == 0
    requires forall i, j :: 0 <= i < j < |g.roots| ==> g.roots[i] != g.roots[j]
    requires s'.nodes == s.nodes[n := s.nodes[n].(told := 1)]
    ensures FinishedRoots(g, s', k) == FinishedRoots(g, s, k) + if n in g.roots[..k] then 1 else 0
  {
    if k > 0 {
      FinishedRootsOneMore(g, s, s', n, k - 1);
      assert g.roots[..k] == g.roots[..k - 1] + [g.roots[k - 1]];
    }
  }

  lemma StartHearsAt(g: Graph, s: State, gap: Gap, n: nat, s1: State, m: nat)
    requires Forest(g) && Fits(g, s) && n < |g.nodes| && n in gap.calling && n !in gap.toAsk && Top(g, n).Start?
    requires m < |g.nodes| && PointOk(g, s, gap, n) && PointOk(g, s, gap, m)
    requires s1.nodes == s.nodes[n := s.nodes[n].(told := 1)] && s1.started == s.started
    ensures PointOk(g, s1, Called(gap, n), m)
  {
    if m != n {
      PointFrame(g, s, gap, s1, Called(gap, n), m);
    }
  }

  lemma CallBackToStart(g: Graph, s: State, n: nat)
    requires Forest(g) && Fits(g, s) && n < |g.nodes| && Top(g, n).Start?
    ensures CallBack(g, s, n, Eval(g, n), 0) == Set(s, n, s.nodes[n].(told := 1)).(finished := s.finished + 1)
  {
    assert g.nodes[n].requestors[0] == Start;
    assert CallBack(g, s, n, Eval(g, n), 0) == CallBack(g, Store(g, s, n, Eval(g, n), 0), n, Eval(g, n), 1);
  }

  /** The start node counts one more root. */
  lemma StartHears(g: Graph, s: State, gap: Gap, n: nat)
    requires Forest(g) && Inv(g, s, gap) && n < |g.nodes| && n in gap.calling && n !in gap.toAsk && Top(g, n).Start?
    ensures Inv(g, Set(s, n, s.nodes[n].(told := 1)).(finished := s.finished + 1), Called(gap, n))
  {
    var s1 := Set(s, n, s.nodes[n].(told := 1)).(finished := s.finished + 1);
    assert s.nodes[n].told == 0 && n in g.roots by { assert PointOk(g, s, gap, n); }
    FinishedRootsOneMore(g, s, s1, n, |g.roots|);
    assert g.roots[..|g.roots|] == g.roots;
    forall m | 0 <= m < |g.nodes| ensures PointOk(g, s1, Called(gap, n), m) {
      assert PointOk(g, s, gap, n) && PointOk(g, s, gap, m);
      StartHearsAt(g, s, gap, n, s1, m);
    }
  }

  lemma LeftHeard(g: Graph, s: State, gap: Gap, n: nat, p: nat)
    requires Forest(g) && Inv(g, s, gap) && n < p < |g.nodes| && n in gap.calling && n !in gap.toAsk
    requires Top(g, n) == Parent(p) && g.nodes[p].shape.left == n
    ensures LeftCalls(g, s, gap, n, p) && Inv(g, AfterLeft(g, s, n, p), GapAfterLeft(g, gap, n, p))
  {
    LeftIsCalling(g, s, gap, n, p);
    AfterLeftKeepsInv(g, s, gap, n, p);
    InnerIsNoRoot(g, n);
    FinishedRootsSame(g, s, AfterLeft(g, s, n, p), |g.roots|);
  }

  lemma LeftReactionEnds(g: Graph, s: State, gap: Gap, n: nat, p: nat)
    requires Forest(g) && Fits(g, s) && n < p < |g.nodes| && LeftCalls(g, s, gap, n, p) && EndsEarly(g, p)
    ensures React(g, Heard(g, s, n, p, Eval(g, n)), p, n)
            == Request(g, CallBack(g, AfterLeft(g, s, n, p), p, Eval(g, p), 0), g.nodes[p].shape.right, false)
  {
    RoutesEvaluate(g, p);
    hide Eval, EndsEarly, WellFormed, ShortCircuit;
  }

  lemma LeftReactionGoesOn(g: Graph, s: State, gap: Gap, n: nat, p: nat)
    requires Forest(g) && Fits(g, s) && n < p < |g.nodes| && LeftCalls(g, s, gap, n, p) && !EndsEarly(g, p)
    ensures React(g, Heard(g, s, n, p, Eval(g, n)), p, n)
            == Request(g, AfterLeft(g, s, n, p), g.nodes[p].shape.right, true)
  {
    RoutesEvaluate(g, p);
    hide Eval, EndsEarly, WellFormed, ShortCircuit;
  }

  lemma RightReaction(g: Graph, s: State, gap: Gap, n: nat, p: nat)
    requires Forest(g) && Fits(g, s) && n < p < |g.nodes| && RightCalls(g, s, gap, n, p)
    ensures React(g, Heard(g, s, n, p, Eval(g, n)), p, n) == CallBack(g, AfterRight(g, s, n, p), p, Eval(g, p), 0)
  {
    RoutesEvaluate(g, p);
    hide Eval, EndsEarly, WellFormed, FullDecision;
  }

  lemma {:induction false} LeftReacts(g: Graph, s: State, gap: Gap, n: nat, p: nat)
    requires Forest(g) && Inv(g, s, gap) && n < p < |g.nodes| && n in gap.calling && n !in gap.toAsk
    requires Top(g, n) == Parent(p) && g.nodes[p].shape.left == n
    ensures !g.nodes[p].shape.Leaf? && Inv(g, React(g, Heard(g, s, n, p, Eval(g, n)), p, n), Called(gap, n))
    decreases |g.nodes| - n, 0
  {
    var s2, gap2, r := AfterLeft(g, s, n, p), GapAfterLeft(g, gap, n, p), g.nodes[p].shape.right;
    LeftHeard(g, s, gap, n, p);
    if EndsEarly(g, p) {
      CallBackFills(g, s2, gap2, p);
      RequestKeepsInv(g, CallBack(g, s2, p, Eval(g, p), 0), Called(gap2, p), r, false);
      LeftReactionEnds(g, s, gap, n, p);
      assert DoneAsking(Called(gap2, p), r) == Called(gap, n);
    } else {
      RequestKeepsInv(g, s2, gap2, r, true);
      LeftReactionGoesOn(g, s, gap, n, p);
      assert DoneAsking(gap2, r) == Called(gap, n);
    }
  }

  lemma {:induction false} RightReacts(g: Graph, s: State, gap: Gap, n: nat, p: nat)
    requires Forest(g) && Inv(g, s, gap) && n < p < |g.nodes| && n in gap.calling && n !in gap.toAsk
    requires Top(g, n) == Parent(p) && g.nodes[p].shape.left != n
    ensures !g.nodes[p].shape.Leaf? && Inv(g, React(g, Heard(g, s, n, p, Eval(g, n)), p, n), Called(gap, n))
    decreases |g.nodes| - n, 0
  {
    var s1, s2, gap2 := Heard(g, s, n, p, Eval(g, n)), AfterRight(g, s, n, p), Calling(gap, n, p);
    RightIsCalling(g, s, gap, n, p);
    AfterRightKeepsInv(g, s, gap, n, p);
    InnerIsNoRoot(g, n);
    FinishedRootsSame(g, s, s2, |g.roots|);
    assert Inv(g, s2, gap2);
    CallBackFills(g, s2, gap2, p);
    RightReaction(g, s, gap, n, p);
    assert Called(gap2, p) == Called(gap, n);
  }

  /** A decided node calls its requestor back: whatever follows from it, up the tree and down other branches, leaves
      no other gap than there was. */
  lemma {:induction false} CallBackFills(g: Graph, s: State, gap: Gap, n: nat)
    requires Forest(g) && Inv(g, s, gap) && n < |g.nodes| && n in gap.calling && n !in gap.toAsk
    ensures Inv(g, CallBack(g, s, n, Eval(g, n), 0), Called(gap, n))
    decreases |g.nodes| - n, 1
  {
    var d, s1 := Eval(g, n), Store(g, s, n, Eval(g, n), 0);
    match Top(g, n)
    case Start =>
      StartHears(g, s, gap, n);
      CallBackToStart(g, s, n);
    case Parent(p) =>
      assert g.nodes[n].requestors[0] == Parent(p);
      ParentIsReady(g, s, gap, n);
      assert s.nodes[n].told == 0 by { assert PointOk(g, s, gap, n); }
      assert s1 == Heard(g, s, n, p, d);
      assert CallBack(g, s, n, d, 0) == CallBack(g, React(g, s1, p, n), n, d, 1) == React(g, s1, p, n);
      if g.nodes[p].shape.left == n {
        LeftReacts(g, s, gap, n, p);
      } else {
        RightReacts(g, s, gap, n, p);
      }
  }

  // ----- Runs -----

  lemma InitInv(g: Graph)
    requires Forest(g)
    ensures Inv(g, Init(g), NONE)
  {
    assert FinishedRoots(g, Init(g), |g.roots|) == 0 by { NoneFinished(g, |g.roots|); }
    forall n | 0 <= n < |g.nodes| ensures PointOk(g, Init(g), NONE, n) {
      assert Init(g).nodes[n] == FRESH;
      if Top(g, n).Parent? {
        assert g.nodes[n].requestors[0].Parent?;
        assert Init(g).nodes[Top(g, n).node] == FRESH;
      }
    }
  }

  lemma {:induction false} NoneFinished(g: Graph, k: nat)
    requires k <= |g.roots|
    ensures FinishedRoots(g, Init(g), k) == 0
  {
    if k > 0 {
      NoneFinished(g, k - 1);
    }
  }

  /** Requesting a root starts that root and no other. */
  lemma OneMoreStarted(g: Graph, s: State, n: nat)
    requires Forest(g) && s.started < |g.roots| && n < |g.nodes|
    ensures var s1 := s.(started := s.started + 1); var root := g.roots[s.started];
            && root < |g.nodes| && Top(g, root).Start? && root !in StartedRoots(g, s)
            && (n in StartedRoots(g, s1) <==> n in StartedRoots(g, s) || n == root)
  {
    var root := g.roots[s.started];
    RootIsOnTop(g, s.started);
    assert StartedRoots(g, s.(started := s.started + 1)) == StartedRoots(g, s) + [root];
    hide WellFormed;
  }

  lemma RootIsOnTop(g: Graph, k: nat)
    requires Forest(g) && k < |g.roots|
    ensures g.roots[k] < |g.nodes| && Top(g, g.roots[k]).Start?
  {
    assert Start in g.nodes[g.roots[k]].requestors;
  }

  lemma StartOneRoot(g: Graph, s: State, n: nat)
    requires Forest(g) && Fits(g, s) && s.started < |g.roots| && n < |g.nodes| && PointOk(g, s, NONE, n)
    ensures PointOk(g, s.(started := s.started + 1), Gap(map[g.roots[s.started] := true], {}), n)
  {
    OneMoreStarted(g, s, n);
  }

  lemma StartOneRootEverywhere(g: Graph, s: State)
    requires Forest(g) && Inv(g, s, NONE) && s.started < |g.roots|
    ensures Inv(g, s.(started := s.started + 1), Gap(map[g.roots[s.started] := true], {}))
  {
    var s1, gap := s.(started := s.started + 1), Gap(map[g.roots[s.started] := true], {});
    forall n | 0 <= n < |g.nodes| ensures PointOk(g, s1, gap, n) {
      assert PointOk(g, s, NONE, n);
      StartOneRoot(g, s, n);
    }
    FinishedRootsSame(g, s, s1, |g.roots|);
  }

  lemma RequestRootKeepsInv(g: Graph, s: State)
    requires Forest(g) && Inv(g, s, NONE) && Enabled(g, s, RequestRoot)
    ensures Inv(g, Apply(g, s, RequestRoot), NONE)
  {
    var root := g.roots[s.started];
    var gap := Gap(map[root := true], {});
    StartOneRootEverywhere(g, s);
    OneMoreStarted(g, s, root);
    RequestKeepsInv(g, s.(started := s.started + 1), gap, root, true);
    assert DoneAsking(gap, root) == NONE;
    hide Inv;
  }

  lemma LeafHasDecided(g: Graph, s: State, n: nat, m: nat)
    requires Forest(g) && Fits(g, s) && Pending(g, s, n) && m < |g.nodes| && PointOk(g, s, NONE, m)
    requires PointOk(g, s, NONE, n)
    ensures PointOk(g, Decide(s, n, g.nodes[n].shape.verdict), Gap(map[], {n}), m)
  {
    var s1 := Decide(s, n, g.nodes[n].shape.verdict);
    assert StageOf(s.nodes[n]).Active?;
    assert s1.nodes[n] == s.nodes[n].(run := Completed, sent := [Eval(g, n)]);
    if m == n {
      if Top(g, n).Parent? {
        assert g.nodes[n].requestors[0].Parent?;
        assert s1.nodes[Top(g, n).node] == s.nodes[Top(g, n).node];
      }
    } else {
      if Top(g, m).Parent? {
        assert g.nodes[m].requestors[0].Parent?;
        assert Top(g, m).node != n;
      }
      PointFrame(g, s, NONE, s1, Gap(map[], {n}), m);
    }
  }

  lemma LeafDecidesKeepsInv(g: Graph, s: State, n: nat)
    requires Forest(g) && Inv(g, s, NONE) && Pending(g, s, n)
    ensures Inv(g, Apply(g, s, LeafDecides(n)), NONE)
  {
    var s1, gap := Decide(s, n, g.nodes[n].shape.verdict), Gap(map[], {n});
    forall m | 0 <= m < |g.nodes| ensures PointOk(g, s1, gap, m) {
      assert PointOk(g, s, NONE, n) && PointOk(g, s, NONE, m);
      LeafHasDecided(g, s, n, m);
    }
    FinishedRootsSame(g, s, s1, |g.roots|);
    CallBackFills(g, s1, gap, n);
    assert Called(gap, n) == NONE;
  }

  lemma {:induction false} RunKeepsInv(g: Graph, s: State, es: seq<Event>, s': State)
    requires Forest(g) && Inv(g, s, NONE) && Run(g, s, es, s')
    ensures Inv(g, s', NONE)
    decreases |es|
  {
    if es != [] {
      match es[0] {
        case RequestRoot => RequestRootKeepsInv(g, s);
        case LeafDecides(n) => LeafDecidesKeepsInv(g, s, n);
      }
      RunKeepsInv(g, Apply(g, s, es[0]), es[1..], s');
    }
  }

  lemma ReachableInv(g: Graph, s: State)
    requires Forest(g) && Reachable(g, s)
    ensures Inv(g, s, NONE)
  {
    var es :| Run(g, Init(g), es, s);
    InitInv(g);
    RunKeepsInv(g, Init(g), es, s);
  }

  // ----- Main results -----

  /** Where a node can be, given whether the evaluation needs it. */
  lemma {:induction false} StageFollowsNeed(g: Graph, s: State, n: nat)
    requires Forest(g) && Inv(g, s, NONE) && n < |g.nodes|
    ensures Needed(g, n) ==> StageOf(s.nodes[n]) != Unwanted
    ensures !Needed(g, n) ==> StageOf(s.nodes[n]).Untouched? || StageOf(s.nodes[n]).Unwanted?
    decreases |g.nodes| - n
  {
    assert PointOk(g, s, NONE, n);
    if Top(g, n).Parent? {
      assert g.nodes[n].requestors[0].Parent?;
      var p := Top(g, n).node;
      assert PointOk(g, s, NONE, p);
      StageFollowsNeed(g, s, p);
    }
  }

  /** At every moment: nobody has been asked for what the evaluation does not need, nor told to stand down when it
      does, and nothing but the short-circuit value has ever been sent. */
  lemma NothingNeedlessNothingWrong(g: Graph, s: State, n: nat)
    requires Forest(g) && Reachable(g, s) && n < |g.nodes|
    ensures Fits(g, s)
    ensures s.nodes[n].received <= [Needed(g, n)]
    ensures s.nodes[n].sent <= [Eval(g, n)]
    ensures s.nodes[n].sent != [] ==> Needed(g, n)
  {
    ReachableInv(g, s);
    StageFollowsNeed(g, s, n);
    assert PointOk(g, s, NONE, n);
  }

  lemma {:induction false} NobodyIsWaiting(g: Graph, s: State, n: nat)
    requires Forest(g) && Inv(g, s, NONE) && AtEnd(g, s) && n < |g.nodes|
    ensures StageOf(s.nodes[n]) != Active
    decreases n
  {
    assert PointOk(g, s, NONE, n);
    if g.nodes[n].shape.Leaf? {
      assert !Pending(g, s, n);
    } else if StageOf(s.nodes[n]).Active? {
      ChildrenOf(g, n);
      var c := if s.nodes[n].count == 0 then g.nodes[n].shape.left else g.nodes[n].shape.right;
      assert PointOk(g, s, NONE, c);
      NobodyIsWaiting(g, s, c);
    }
  }

  lemma {:induction false} EveryNodeIsSettled(g: Graph, s: State, n: nat)
    requires Forest(g) && Inv(g, s, NONE) && AtEnd(g, s) && n < |g.nodes|
    ensures StageOf(s.nodes[n]) == if Needed(g, n) then Decided else Unwanted
    decreases |g.nodes| - n
  {
    NobodyIsWaiting(g, s, n);
    StageFollowsNeed(g, s, n);
    assert PointOk(g, s, NONE, n);
    if Top(g, n).Start? {
      assert StartedRoots(g, s) == g.roots;
    } else {
      assert g.nodes[n].requestors[0].Parent?;
      EveryNodeIsSettled(g, s, Top(g, n).node);
    }
  }

  /** Every run that cannot go on has asked each node exactly once, for an answer if and only if left-to-right
      evaluation needs it, and each node so asked has sent exactly its short-circuit value and the others nothing. */
  lemma EndedRunsAreComplete(g: Graph, s: State, n: nat)
    requires Forest(g) && Reachable(g, s) && AtEnd(g, s) && n < |g.nodes|
    ensures Fits(g, s)
    ensures s.nodes[n].received == [Needed(g, n)]
    ensures s.nodes[n].sent == if Needed(g, n) then [Eval(g, n)] else []
  {
    ReachableInv(g, s);
    EveryNodeIsSettled(g, s, n);
    assert PointOk(g, s, NONE, n);
  }

  lemma RootIsNeeded(g: Graph, k: nat)
    requires Forest(g) && k < |g.roots|
    ensures Needed(g, g.roots[k])
  {
    assert Start in g.nodes[g.roots[k]].requestors;
  }

  lemma RootHasCalled(g: Graph, s: State, k: nat)
    requires Forest(g) && Inv(g, s, NONE) && AtEnd(g, s) && k < |g.roots|
    ensures g.roots[k] < |s.nodes| && s.nodes[g.roots[k]].told == 1
  {
    RootIsNeeded(g, k);
    EveryNodeIsSettled(g, s, g.roots[k]);
    assert PointOk(g, s, NONE, g.roots[k]);
  }

  lemma {:induction false} AllRootsFinished(g: Graph, s: State, k: nat)
    requires Forest(g) && Inv(g, s, NONE) && AtEnd(g, s) && k <= |g.roots|
    ensures FinishedRoots(g, s, k) == k
  {
    hide AtEnd, Inv, Forest, WellFormed;
    if k > 0 {
      AllRootsFinished(g, s, k - 1);
      RootHasCalled(g, s, k - 1);
    }
  }

  /** The start node then has been called back once by every root, which has sent the value of its tree. */
  lemma EndedRunsFinishEveryRoot(g: Graph, s: State)
    requires Forest(g) && Reachable(g, s) && AtEnd(g, s)
    ensures Fits(g, s) && s.finished == |g.roots|
    ensures forall k :: 0 <= k < |g.roots| ==> s.nodes[g.roots[k]].sent == [Eval(g, g.roots[k])]
  {
    assert Fits(g, s) && s.finished == |g.roots| by {
      ReachableInv(g, s);
      AllRootsFinished(g, s, |g.roots|);
    }
    forall k | 0 <= k < |g.roots| ensures s.nodes[g.roots[k]].sent == [Eval(g, g.roots[k])] {
      RootIsNeeded(g, k);
      EndedRunsAreComplete(g, s, g.roots[k]);
    }
  }
}
