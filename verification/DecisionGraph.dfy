/**
  Decision nodes: requests travel down to the leaves, decisions travel up by callbacks that re-enter nodes, and a node
  may decide before both its children have.  Nodes are numbered so that children come before their parents, the order
  in which they can be built.  The leaves decide in any order, one at a time, each decision propagating to the end.
 */
module DecisionGraph {
  /** ControlFlowStatus */
  datatype Status = NotStarted | Go | Skip | Exception

  datatype RunStatus = Idle | InProgress | Completed | WillNotRun | ShouldRun

  datatype Requestor = Start | Parent(node: nat)

  /** A leaf with the decision it will make, or a composite. */
  datatype Shape = Leaf(verdict: Status) | And(left: nat, right: nat) | Or(left: nat, right: nat)

  datatype Node = Node(shape: Shape, requestors: seq<Requestor>)

  /** `roots` is the list of nodes given to the start node. */
  datatype Graph = Graph(nodes: seq<Node>, roots: seq<nat>)

  datatype NodeState = NodeState(
    run: RunStatus,
    willNotRun: nat,
    left: Status,
    right: Status,
    count: nat,             // decisionsFromComposites_
    // history
    received: seq<bool>,    // calls of requestDecisionAsync: true for REQUEST_DECISION
    sent: seq<Status>,      // decisions sent
    told: nat,              // requestors called back so far
    heard: seq<Callback>)   // calls of decisionFromNodeAsync

  /** The child that calls, and where the composite is when it does. */
  datatype Callback = Callback(from: nat, at: RunStatus)

  const FRESH := NodeState(Idle, 0, NotStarted, NotStarted, 0, [], [], 0, [])

  /** `finished` is finishedLeafNodes_ and `started` counts the requests made by startAsync. */
  datatype State = State(nodes: seq<NodeState>, finished: nat, started: nat)

  function Init(g: Graph): State {
    State(seq(|g.nodes|, i => FRESH), 0, 0)
  }

  // ----- And and Or -----

  function FullDecision(x: Shape, left: Status, right: Status): Status
    requires !x.Leaf?
  {
    if left.Exception? || right.Exception? then Exception
    else match x
      case And(_, _) => if left.Go? && right.Go? then Go else Skip
      case Or(_, _) => if left.Go? || right.Go? then Go else Skip
  }

  function ShortCircuit(x: Shape, decision: Status): Status
    requires !x.Leaf?
  {
    if decision.Exception? then Exception
    else match x
      case And(_, _) => if decision.Skip? then Skip else NotStarted
      case Or(_, _) => if decision.Go? then Go else NotStarted
  }

  // ----- Graphs -----

  /** How often the composite m appears among the first t requestors of a node. */
  function Calls(requestors: seq<Requestor>, m: nat, t: nat): nat
    requires t <= |requestors|
  {
    if t == 0 then 0 else Calls(requestors, m, t - 1) + if requestors[t - 1] == Parent(m) then 1 else 0
  }

  function Times(x: Shape, child: nat): nat {
    if x.Leaf? then 0 else (if x.left == child then 1 else 0) + (if x.right == child then 1 else 0)
  }

  /** Children come first, and the requestors of a node are its parents, once per edge, and the start node. */
  ghost predicate WellFormed(g: Graph) {
    && (forall n :: 0 <= n < |g.nodes| && !g.nodes[n].shape.Leaf? ==>
          g.nodes[n].shape.left < n && g.nodes[n].shape.right < n)
    && (forall n :: 0 <= n < |g.nodes| && g.nodes[n].shape.Leaf? ==> !g.nodes[n].shape.verdict.NotStarted?)
    && (forall n, i :: 0 <= n < |g.nodes| && 0 <= i < |g.nodes[n].requestors| && g.nodes[n].requestors[i].Parent? ==>
          var p := g.nodes[n].requestors[i].node;
          n < p < |g.nodes| && !g.nodes[p].shape.Leaf? && (g.nodes[p].shape.left == n || g.nodes[p].shape.right == n))
    && (forall n, m {:trigger Calls(g.nodes[n].requestors, m, |g.nodes[n].requestors|)} ::
          0 <= n < |g.nodes| && 0 <= m < |g.nodes| ==>
          Calls(g.nodes[n].requestors, m, |g.nodes[n].requestors|) == Times(g.nodes[m].shape, n))
    && (forall k :: 0 <= k < |g.roots| ==> g.roots[k] < |g.nodes| && Start in g.nodes[g.roots[k]].requestors)
  }

  predicate Fits(g: Graph, s: State) {
    |s.nodes| == |g.nodes|
  }

  function Set(s: State, n: nat, x: NodeState): State
    requires n < |s.nodes|
  {
    s.(nodes := s.nodes[n := x])
  }

  // ----- The callbacks -----

  /** requestDecisionAsync followed by makeDecisionAsync_. */
  function Request(g: Graph, s: State, n: nat, want: bool): (s': State)
    requires WellFormed(g) && Fits(g, s) && n < |g.nodes|
    ensures Fits(g, s')
    decreases n
  {
    var x := s.nodes[n].(received := s.nodes[n].received + [want]);
    if x.run != Idle then Set(s, n, x)
    else if want then MakeDecision(g, Set(s, n, x.(run := ShouldRun)), n, true)
    else
      var x' := x.(willNotRun := x.willNotRun + 1);
      if x'.willNotRun == |g.nodes[n].requestors| then MakeDecision(g, Set(s, n, x'.(run := WillNotRun)), n, false)
      else Set(s, n, x')
  }

  /** A leaf that is wanted has a task waiting in its group; a composite asks its left child, or tells both that no
      request will come. */
  function MakeDecision(g: Graph, s: State, n: nat, want: bool): (s': State)
    requires WellFormed(g) && Fits(g, s) && n < |g.nodes|
    ensures Fits(g, s')
    decreases n, 0
  {
    var x := g.nodes[n].shape;
    if x.Leaf? then s
    else
      var s1 := Request(g, Set(s, n, s.nodes[n].(run := InProgress)), x.left, want);
      if want then s1 else Request(g, s1, x.right, false)
  }

  /** The part of sendDecisionToRequestorsAsync_ before its loop. */
  function Decide(s: State, n: nat, d: Status): State
    requires n < |s.nodes|
  {
    var x := s.nodes[n];
    Set(s, n, x.(run := if x.run.WillNotRun? then WillNotRun else Completed, sent := x.sent + [d]))
  }

  function Send(g: Graph, s: State, n: nat, d: Status): (s': State)
    requires WellFormed(g) && Fits(g, s) && n < |g.nodes|
    ensures Fits(g, s')
    decreases |g.nodes| - n, 1, 0
  {
    CallBack(g, Decide(s, n, d), n, d, 0)
  }

  /** The loop over the requestors, from the i-th on. */
  function CallBack(g: Graph, s: State, n: nat, d: Status, i: nat): (s': State)
    requires WellFormed(g) && Fits(g, s) && n < |g.nodes| && i <= |g.nodes[n].requestors|
    ensures Fits(g, s')
    decreases |g.nodes| - n, 0, |g.nodes[n].requestors| - i
  {
    if i == |g.nodes[n].requestors| then s
    else
      var s1 := Store(g, s, n, d, i);
      var s2 := match g.nodes[n].requestors[i]
        case Start => s1
        case Parent(p) => React(g, s1, p, n);
      CallBack(g, s2, n, d, i + 1)
  }

  /** What decisionFromNodeAsync stores: at a composite, the decision and the count. */
  function Store(g: Graph, s: State, n: nat, d: Status, i: nat): (s': State)
    requires WellFormed(g) && Fits(g, s) && n < |g.nodes| && i < |g.nodes[n].requestors|
    ensures Fits(g, s')
  {
    var s1 := Set(s, n, s.nodes[n].(told := i + 1));
    match g.nodes[n].requestors[i]
    case Start => s1.(finished := s1.finished + 1)
    case Parent(p) =>
      var x := s1.nodes[p].(count := s1.nodes[p].count + 1, heard := s1.nodes[p].heard + [Callback(n, s1.nodes[p].run)]);
      Set(s1, p, if g.nodes[p].shape.left == n then x.(left := d) else x.(right := d))
  }

  /** The rest of decisionFromNodeAsync at the composite p, called back by n. */
  function React(g: Graph, s: State, p: nat, n: nat): (s': State)
    requires WellFormed(g) && Fits(g, s) && p < |g.nodes| && !g.nodes[p].shape.Leaf?
    ensures Fits(g, s')
    decreases |g.nodes| - p, 2, 0
  {
    var x, y := g.nodes[p].shape, s.nodes[p];
    if y.run != InProgress then s
    else if y.count == 2 then Send(g, s, p, FullDecision(x, y.left, y.right))
    else if x.left == n then
      if ShortCircuit(x, y.left) != NotStarted then
        Request(g, Send(g, s, p, ShortCircuit(x, y.left)), x.right, false)
      else Request(g, s, x.right, true)
    else if ShortCircuit(x, y.right) != NotStarted then Send(g, s, p, ShortCircuit(x, y.right))
    else s
  }

  // ----- Events -----

  datatype Event = RequestRoot | LeafDecides(leaf: nat)

  /** A leaf whose task is waiting to run. */
  predicate Pending(g: Graph, s: State, n: nat) {
    n < |g.nodes| && n < |s.nodes| && g.nodes[n].shape.Leaf? && s.nodes[n].run.ShouldRun?
  }

  predicate Enabled(g: Graph, s: State, e: Event) {
    match e
    case RequestRoot => s.started < |g.roots|
    case LeafDecides(n) => Pending(g, s, n)
  }

  function Apply(g: Graph, s: State, e: Event): (s': State)
    requires WellFormed(g) && Fits(g, s) && Enabled(g, s, e)
    ensures Fits(g, s')
  {
    match e
    case RequestRoot => Request(g, s.(started := s.started + 1), g.roots[s.started], true)
    case LeafDecides(n) => Send(g, s, n, g.nodes[n].shape.verdict)
  }

  ghost predicate Run(g: Graph, s: State, es: seq<Event>, s': State)
    requires WellFormed(g) && Fits(g, s)
    decreases |es|
  {
    if es == [] then s == s' else Enabled(g, s, es[0]) && Run(g, Apply(g, s, es[0]), es[1..], s')
  }

  ghost predicate Reachable(g: Graph, s: State)
    requires WellFormed(g)
  {
    exists es :: Run(g, Init(g), es, s)
  }

  /** No event is left: all roots have been requested, and no leaf has a task to run. */
  ghost predicate AtEnd(g: Graph, s: State) {
    s.started == |g.roots| && forall n :: 0 <= n < |g.nodes| ==> !Pending(g, s, n)
  }
}
