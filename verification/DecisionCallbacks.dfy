/**
  What holds at every step of every run on every graph, whatever its nodes share and whatever its leaves decide: who has
  called whom back, what a composite has stored, and whom it is waiting for.
 */
module DecisionCallbacks {
  import opened DecisionGraph
  import opened DecisionSteps

  /** How often m has been called back by its child c. */
  function Heard(g: Graph, s: State, c: nat, m: nat): nat
    requires Fits(g, s) && c < |g.nodes|
  {
    var t := s.nodes[c].told;
    if t <= |g.nodes[c].requestors| then Calls(g.nodes[c].requestors, m, t) else 0
  }

  function Said(s: State, n: nat): Status
    requires n < |s.nodes|
  {
    if s.nodes[n].sent == [] then NotStarted else s.nodes[n].sent[0]
  }

  /** All requestors have said that they will not ask. */
  predicate ToldOff(g: Graph, s: State, n: nat)
    requires Fits(g, s) && n < |g.nodes|
  {
    !s.nodes[n].run.Idle? && s.nodes[n].willNotRun >= |g.nodes[n].requestors|
  }

  /** The left child called back before anybody had asked the composite. */
  predicate LeftEarly(g: Graph, s: State, m: nat)
    requires Fits(g, s) && m < |g.nodes| && !g.nodes[m].shape.Leaf?
  {
    Callback(g.nodes[m].shape.left, Idle) in s.nodes[m].heard
  }

  ghost predicate Telling(todo: seq<Todo>, n: nat) {
    exists j :: 0 <= j < |todo| && todo[j].Tell? && todo[j].node == n
  }

  // ----- The invariant -----

  ghost predicate TaskOk(g: Graph, s: State, t: Todo)
    requires Fits(g, s) && InRange(g, t)
  {
    match t
    case Ask(who, n, want) =>
      && who in g.nodes[n].requestors
      && (who.Parent? ==> who.node < |g.nodes| && !s.nodes[who.node].run.Idle?)
    case Tell(n, d, i) => s.nodes[n].sent == [d] && s.nodes[n].told == i
  }

  ghost predicate TodoInv(g: Graph, c: Config)
    requires Proper(g, c)
  {
    && (forall j :: 0 <= j < |c.todo| ==> TaskOk(g, c.now, c.todo[j]))
    && (forall i, j :: 0 <= i < j < |c.todo| && c.todo[i].Tell? && c.todo[j].Tell? ==> c.todo[i].node != c.todo[j].node)
  }

  /** A node sends at most one decision, and calls each requestor back once with it. */
  ghost predicate SentInv(g: Graph, c: Config, m: nat)
    requires Proper(g, c) && m < |g.nodes|
  {
    var x := c.now.nodes[m];
    && |x.sent| <= 1
    && x.told <= |g.nodes[m].requestors|
    && (x.sent == [] ==> x.told == 0)
    && (x.sent != [] && x.told < |g.nodes[m].requestors| ==> Telling(c.todo, m))
    && (x.run.Completed? <==> x.sent != [])
  }

  ghost predicate RunInv(g: Graph, s: State, m: nat)
    requires Fits(g, s) && m < |g.nodes|
  {
    var x, all := s.nodes[m], |g.nodes[m].requestors|;
    && (x.run.Idle? ==> x.willNotRun == 0 || x.willNotRun < all)
    && (x.run.ShouldRun? ==> g.nodes[m].shape.Leaf? && x.willNotRun < all)
    && (x.run.WillNotRun? ==> g.nodes[m].shape.Leaf? && x.willNotRun >= all)
    && (x.run.InProgress? ==> !g.nodes[m].shape.Leaf?)
    && (x.run.Completed? && g.nodes[m].shape.Leaf? ==> x.willNotRun < all)
  }

  /** The count is the number of callbacks heard, and each stored decision is the one its child sent. */
  ghost predicate SlotsInv(g: Graph, s: State, m: nat, l: nat, r: nat)
    requires Fits(g, s) && m < |g.nodes| && l < |g.nodes| && r < |g.nodes|
  {
    var x := s.nodes[m];
    && x.count == |x.heard| == Heard(g, s, l, m) + (if l == r then 0 else Heard(g, s, r, m))
    && x.left == (if Heard(g, s, l, m) > 0 then Said(s, l) else NotStarted)
    && x.right == (if l != r && Heard(g, s, r, m) > 0 then Said(s, r) else NotStarted)
  }

  ghost predicate HasAsked(c: Config, m: nat, child: nat)
    requires child < |c.now.nodes|
  {
    !c.now.nodes[child].run.Idle? || Ask(Parent(m), child, true) in c.todo
  }

  /** A composite that is wanted waits for its left child, and when that has called back for its right one, unless the
      left one was early. */
  ghost predicate WaitInv(g: Graph, c: Config, m: nat, l: nat, r: nat)
    requires Proper(g, c) && m < |g.nodes| && l < |g.nodes| && r < |g.nodes|
  {
    c.now.nodes[m].run.InProgress? && !ToldOff(g, c.now, m) && Callback(l, Idle) !in c.now.nodes[m].heard ==>
      if Heard(g, c.now, l, m) == 0 then HasAsked(c, m, l)
      else c.now.nodes[m].count == 1 && HasAsked(c, m, r)
  }

  /** What an idle composite has heard, it has heard while idle. */
  ghost predicate IdleInv(g: Graph, s: State, m: nat)
    requires Fits(g, s) && m < |g.nodes| && !g.nodes[m].shape.Leaf? && g.nodes[m].shape.left < |g.nodes|
  {
    s.nodes[m].run.Idle? && Heard(g, s, g.nodes[m].shape.left, m) > 0 ==> LeftEarly(g, s, m)
  }

  ghost predicate NodeInv(g: Graph, c: Config, m: nat)
    requires WellFormed(g) && Proper(g, c) && m < |g.nodes|
  {
    var x := g.nodes[m].shape;
    && SentInv(g, c, m) && RunInv(g, c.now, m)
    && (!x.Leaf? ==>
          SlotsInv(g, c.now, m, x.left, x.right) && IdleInv(g, c.now, m) && WaitInv(g, c, m, x.left, x.right))
  }

  ghost predicate RootInv(g: Graph, c: Config, k: nat)
    requires WellFormed(g) && Proper(g, c) && k < |g.roots|
  {
    k < c.now.started ==> !c.now.nodes[g.roots[k]].run.Idle? || Ask(Start, g.roots[k], true) in c.todo
  }

  ghost predicate Inv(g: Graph, c: Config)
    requires WellFormed(g)
  {
    && Proper(g, c) && TodoInv(g, c) && c.now.started <= |g.roots|
    && (forall m :: 0 <= m < |g.nodes| ==> NodeInv(g, c, m))
    && (forall k :: 0 <= k < |g.roots| ==> RootInv(g, c, k))
  }

  // ----- A step that asks -----

  /** What asking changes at the node asked. */
  ghost predicate AskChanges(g: Graph, n: nat, want: bool, x: NodeState, y: NodeState)
    requires n < |g.nodes|
  {
    var leaf, all := g.nodes[n].shape.Leaf?, |g.nodes[n].requestors|;
    && y == x.(received := y.received, run := y.run, willNotRun := y.willNotRun)
    && (!x.run.Idle? ==> y.run == x.run && y.willNotRun == x.willNotRun)
    && (x.run.Idle? && want ==> y.run == (if leaf then ShouldRun else InProgress) && y.willNotRun == x.willNotRun)
    && (x.run.Idle? && !want ==>
          && y.willNotRun == x.willNotRun + 1
          && y.run == (if x.willNotRun + 1 != all then Idle else if leaf then WillNotRun else InProgress))
  }

  lemma AskEffect(g: Graph, c: Config)
    requires WellFormed(g) && Proper(g, c) && c.todo != [] && c.todo[0].Ask?
    ensures var c', n, want, rest := Step(g, c), c.todo[0].node, c.todo[0].want, c.todo[1..];
            && c'.now.started == c.now.started
            && (forall m :: 0 <= m < |g.nodes| && m != n ==> c'.now.nodes[m] == c.now.nodes[m])
            && AskChanges(g, n, want, c.now.nodes[n], c'.now.nodes[n])
            && c'.todo == Passed(g, c.now, n, want) + rest
            && (forall m :: 0 <= m < |g.nodes| ==> Heard(g, c'.now, m, n) == Heard(g, c.now, m, n))
  {
  }

  lemma StaysTodo(todo: seq<Todo>, ts: seq<Todo>, t: Todo)
    requires todo != [] && t in todo && t != todo[0]
    ensures t in ts + todo[1..]
  {
    var j :| 0 <= j < |todo| && todo[j] == t;
    assert (ts + todo[1..])[|ts| + j - 1] == t;
  }

  lemma StaysTelling(todo: seq<Todo>, ts: seq<Todo>, n: nat)
    requires todo != [] && Telling(todo, n) && !(todo[0].Tell? && todo[0].node == n)
    ensures Telling(ts + todo[1..], n)
  {
    var j :| 0 <= j < |todo| && todo[j].Tell? && todo[j].node == n;
    assert (ts + todo[1..])[|ts| + j - 1] == todo[j];
  }

  /** After asking a child that a node still has to ask, or any other, nothing asked before is forgotten. */
  lemma AskKeepsHasAsked(g: Graph, c: Config, m: nat, child: nat)
    requires WellFormed(g) && Proper(g, c) && c.todo != [] && c.todo[0].Ask? && child < |g.nodes| && HasAsked(c, m, child)
    ensures HasAsked(Step(g, c), m, child)
  {
    AskEffect(g, c);
    var t := Ask(Parent(m), child, true);
    if c.now.nodes[child].run.Idle? && t != c.todo[0] {
      StaysTodo(c.todo, Passed(g, c.now, c.todo[0].node, c.todo[0].want), t);
    }
  }

  lemma AskKeepsSent(g: Graph, c: Config, m: nat)
    requires WellFormed(g) && Proper(g, c) && c.todo != [] && c.todo[0].Ask? && m < |g.nodes| && SentInv(g, c, m)
    ensures SentInv(g, Step(g, c), m)
  {
    AskEffect(g, c);
    if Telling(c.todo, m) {
      StaysTelling(c.todo, Passed(g, c.now, c.todo[0].node, c.todo[0].want), m);
    }
  }

  lemma AskKeepsRun(g: Graph, c: Config, m: nat)
    requires WellFormed(g) && Proper(g, c) && c.todo != [] && c.todo[0].Ask? && m < |g.nodes| && RunInv(g, c.now, m)
    requires TaskOk(g, c.now, c.todo[0])
    ensures RunInv(g, Step(g, c).now, m)
  {
    AskEffect(g, c);
  }

  lemma AskKeepsSlots(g: Graph, c: Config, m: nat)
    requires WellFormed(g) && Proper(g, c) && c.todo != [] && c.todo[0].Ask? && m < |g.nodes| && !g.nodes[m].shape.Leaf?
    requires SlotsInv(g, c.now, m, g.nodes[m].shape.left, g.nodes[m].shape.right)
    ensures SlotsInv(g, Step(g, c).now, m, g.nodes[m].shape.left, g.nodes[m].shape.right)
  {
    AskEffect(g, c);
    var l, r := g.nodes[m].shape.left, g.nodes[m].shape.right;
    assert Heard(g, Step(g, c).now, l, m) == Heard(g, c.now, l, m);
    assert Heard(g, Step(g, c).now, r, m) == Heard(g, c.now, r, m);
  }

  /** A composite that is idle has been called back, if at all, early. */
  lemma AskKeepsWait(g: Graph, c: Config, m: nat)
    requires WellFormed(g) && Proper(g, c) && c.todo != [] && c.todo[0].Ask? && m < |g.nodes| && !g.nodes[m].shape.Leaf?
    requires IdleInv(g, c.now, m) && WaitInv(g, c, m, g.nodes[m].shape.left, g.nodes[m].shape.right)
    ensures WaitInv(g, Step(g, c), m, g.nodes[m].shape.left, g.nodes[m].shape.right)
  {
    AskEffect(g, c);
    var l, r, c' := g.nodes[m].shape.left, g.nodes[m].shape.right, Step(g, c);
    if c'.now.nodes[m].run.InProgress? && !ToldOff(g, c'.now, m) && Callback(l, Idle) !in c'.now.nodes[m].heard {
      if c.now.nodes[m].run.Idle? {
        assert c'.todo[0] == Ask(Parent(m), l, true);
      } else {
        if Heard(g, c.now, l, m) == 0 {
          AskKeepsHasAsked(g, c, m, l);
        } else {
          AskKeepsHasAsked(g, c, m, r);
        }
      }
    }
  }

  lemma AskKeepsNodeInv(g: Graph, c: Config, m: nat)
    requires WellFormed(g) && Proper(g, c) && c.todo != [] && c.todo[0].Ask? && m < |g.nodes| && NodeInv(g, c, m)
    requires TaskOk(g, c.now, c.todo[0])
    ensures NodeInv(g, Step(g, c), m)
  {
    hide Step, WaitInv, SlotsInv, SentInv, RunInv;
    AskKeepsSent(g, c, m);
    AskKeepsRun(g, c, m);
    if !g.nodes[m].shape.Leaf? {
      AskKeepsSlots(g, c, m);
      AskKeepsWait(g, c, m);
      AskEffect(g, c);
      assert Heard(g, Step(g, c).now, g.nodes[m].shape.left, m) == Heard(g, c.now, g.nodes[m].shape.left, m);
    }
  }

  lemma AskKeepsRootInv(g: Graph, c: Config, k: nat)
    requires WellFormed(g) && Proper(g, c) && c.todo != [] && c.todo[0].Ask? && k < |g.roots| && RootInv(g, c, k)
    ensures RootInv(g, Step(g, c), k)
  {
    AskEffect(g, c);
    var t := Ask(Start, g.roots[k], true);
    if t in c.todo && t != c.todo[0] {
      StaysTodo(c.todo, Passed(g, c.now, c.todo[0].node, c.todo[0].want), t);
    }
  }

  lemma {:induction false} CalledIsIn(requestors: seq<Requestor>, m: nat, t: nat)
    requires t <= |requestors| && Calls(requestors, m, t) > 0
    ensures Parent(m) in requestors
  {
    if requestors[t - 1] != Parent(m) {
      CalledIsIn(requestors, m, t - 1);
    }
  }

  /** A composite is among the requestors of its children. */
  lemma ParentIsRequestor(g: Graph, m: nat)
    requires WellFormed(g) && m < |g.nodes| && !g.nodes[m].shape.Leaf?
    ensures Parent(m) in g.nodes[g.nodes[m].shape.left].requestors
    ensures Parent(m) in g.nodes[g.nodes[m].shape.right].requestors
  {
    var l, r := g.nodes[m].shape.left, g.nodes[m].shape.right;
    assert Calls(g.nodes[l].requestors, m, |g.nodes[l].requestors|) == Times(g.nodes[m].shape, l);
    assert Calls(g.nodes[r].requestors, m, |g.nodes[r].requestors|) == Times(g.nodes[m].shape, r);
    CalledIsIn(g.nodes[l].requestors, m, |g.nodes[l].requestors|);
    CalledIsIn(g.nodes[r].requestors, m, |g.nodes[r].requestors|);
  }

  lemma AskKeepsTaskOk(g: Graph, c: Config, t: Todo)
    requires WellFormed(g) && Proper(g, c) && c.todo != [] && c.todo[0].Ask? && InRange(g, t) && TaskOk(g, c.now, t)
    ensures TaskOk(g, Step(g, c).now, t)
  {
    AskEffect(g, c);
  }

  lemma PassedAreOk(g: Graph, c: Config, j: nat)
    requires WellFormed(g) && Proper(g, c) && c.todo != [] && c.todo[0].Ask?
    requires j < |Passed(g, c.now, c.todo[0].node, c.todo[0].want)|
    ensures TaskOk(g, Step(g, c).now, Passed(g, c.now, c.todo[0].node, c.todo[0].want)[j])
  {
    AskEffect(g, c);
    ParentIsRequestor(g, c.todo[0].node);
  }

  lemma AskKeepsTodoInv(g: Graph, c: Config)
    requires WellFormed(g) && Proper(g, c) && c.todo != [] && c.todo[0].Ask? && TodoInv(g, c)
    ensures TodoInv(g, Step(g, c))
  {
    var c', ts := Step(g, c), Passed(g, c.now, c.todo[0].node, c.todo[0].want);
    assert c'.todo == ts + c.todo[1..];
    assert forall j :: 0 <= j < |ts| ==> ts[j].Ask?;
    forall j | 0 <= j < |c'.todo| ensures TaskOk(g, c'.now, c'.todo[j]) {
      if j < |ts| {
        PassedAreOk(g, c, j);
      } else {
        assert c'.todo[j] == c.todo[1 + j - |ts|];
        AskKeepsTaskOk(g, c, c'.todo[j]);
      }
    }
    forall i, j | 0 <= i < j < |c'.todo| && c'.todo[i].Tell? && c'.todo[j].Tell? ensures c'.todo[i].node != c'.todo[j].node {
      assert c'.todo[i] == c.todo[1 + i - |ts|] && c'.todo[j] == c.todo[1 + j - |ts|];
    }
  }

  lemma AskKeepsInv(g: Graph, c: Config)
    requires WellFormed(g) && Inv(g, c) && c.todo != [] && c.todo[0].Ask?
    ensures Inv(g, Step(g, c))
  {
    AskKeepsTodoInv(g, c);
    assert TaskOk(g, c.now, c.todo[0]);
    hide NodeInv, RootInv, TodoInv, WellFormed;
    forall m | 0 <= m < |g.nodes| ensures NodeInv(g, Step(g, c), m) {
      AskKeepsNodeInv(g, c, m);
    }
    forall k | 0 <= k < |g.roots| ensures RootInv(g, Step(g, c), k) {
      AskKeepsRootInv(g, c, k);
    }
    AskEffect(g, c);
  }

  // ----- A step that calls back -----

  /** What the composite p notes when its child n calls back with d. */
  function Noted(g: Graph, x: NodeState, p: nat, n: nat, d: Status): NodeState
    requires p < |g.nodes| && !g.nodes[p].shape.Leaf?
  {
    x.(count := x.count + 1, heard := x.heard + [Callback(n, x.run)],
       left := if g.nodes[p].shape.left == n then d else x.left,
       right := if g.nodes[p].shape.left == n then x.right else d)
  }

  /** The composite after such a callback. */
  function Called(g: Graph, x: NodeState, p: nat, n: nat, d: Status): NodeState
    requires p < |g.nodes| && !g.nodes[p].shape.Leaf?
  {
    var x1 := Noted(g, x, p, n, d);
    var e := Reply(g.nodes[p].shape, x1, n);
    if e == NotStarted then x1 else x1.(run := Completed, sent := x1.sent + [e])
  }

  ghost predicate AtTell(g: Graph, c: Config)
    requires WellFormed(g)
  {
    && Proper(g, c) && c.todo != [] && c.todo[0].Tell? && c.todo[0].next < |g.nodes[c.todo[0].node].requestors|
    && TaskOk(g, c.now, c.todo[0])
  }

  function Callee(g: Graph, c: Config): Requestor
    requires WellFormed(g) && AtTell(g, c)
  {
    g.nodes[c.todo[0].node].requestors[c.todo[0].next]
  }

  lemma CalleeIsParent(g: Graph, c: Config)
    requires WellFormed(g) && AtTell(g, c) && Callee(g, c).Parent?
    ensures var n, p := c.todo[0].node, Callee(g, c).node;
            n < p < |g.nodes| && !g.nodes[p].shape.Leaf? && (g.nodes[p].shape.left == n || g.nodes[p].shape.right == n)
  {
  }

  lemma TellEffect(g: Graph, c: Config)
    requires WellFormed(g) && AtTell(g, c)
    ensures var c', n, d, i, who := Step(g, c), c.todo[0].node, c.todo[0].decision, c.todo[0].next, Callee(g, c);
            && c'.now.started == c.now.started
            && c'.now.nodes[n] == c.now.nodes[n].(told := i + 1)
            && (forall m :: 0 <= m < |g.nodes| && m != n && who != Parent(m) ==> c'.now.nodes[m] == c.now.nodes[m])
            && (who.Parent? ==> who.node < |g.nodes| && !g.nodes[who.node].shape.Leaf?
                                && c'.now.nodes[who.node] == Called(g, c.now.nodes[who.node], who.node, n, d))
  {
    if Callee(g, c).Parent? {
      CalleeIsParent(g, c);
    }
  }

  lemma TellHeard(g: Graph, c: Config, a: nat, b: nat)
    requires WellFormed(g) && AtTell(g, c) && a < |g.nodes|
    ensures Heard(g, Step(g, c).now, a, b)
         == Heard(g, c.now, a, b) + if a == c.todo[0].node && Callee(g, c) == Parent(b) then 1 else 0
  {
    TellEffect(g, c);
    hide Step, WellFormed;
  }

  /** The calls made next, on top of the rest of the loop and of what was there. */
  function Next(g: Graph, c: Config): seq<Todo>
    requires WellFormed(g) && AtTell(g, c)
  {
    var n, d, i := c.todo[0].node, c.todo[0].decision, c.todo[0].next;
    match Callee(g, c)
    case Start => [Tell(n, d, i + 1)]
    case Parent(p) => Spread(g, Store(g, c.now, n, d, i), p, n) + [Tell(n, d, i + 1)]
  }

  lemma TellTodo(g: Graph, c: Config)
    requires WellFormed(g) && AtTell(g, c)
    ensures Step(g, c).todo == Next(g, c) + c.todo[1..]
    ensures Telling(Step(g, c).todo, c.todo[0].node)
  {
    var ts := Next(g, c);
    assert (ts + c.todo[1..])[|ts| - 1] == ts[|ts| - 1];
  }

  lemma TellKeepsHasAsked(g: Graph, c: Config, m: nat, child: nat)
    requires WellFormed(g) && AtTell(g, c) && child < |g.nodes| && HasAsked(c, m, child)
    ensures HasAsked(Step(g, c), m, child)
  {
    TellEffect(g, c);
    TellTodo(g, c);
    var t := Ask(Parent(m), child, true);
    if c.now.nodes[child].run.Idle? {
      StaysTodo(c.todo, Next(g, c), t);
    }
  }

  /** What a node has sent never changes once it has sent. */
  lemma TellKeepsSaid(g: Graph, c: Config, a: nat, b: nat)
    requires WellFormed(g) && AtTell(g, c) && a < |g.nodes| && SentInv(g, c, a) && Heard(g, c.now, a, b) > 0
    ensures Said(Step(g, c).now, a) == Said(c.now, a)
  {
    TellEffect(g, c);
    assert c.now.nodes[a].told > 0;
  }

  lemma TellKeepsSent(g: Graph, c: Config, m: nat)
    requires WellFormed(g) && AtTell(g, c) && m < |g.nodes| && SentInv(g, c, m) && SentInv(g, c, c.todo[0].node)
    ensures SentInv(g, Step(g, c), m)
  {
    TellEffect(g, c);
    TellTodo(g, c);
    var x, ts := c.now.nodes[m], Next(g, c);
    if m != c.todo[0].node {
      if Telling(c.todo, m) {
        StaysTelling(c.todo, ts, m);
      }
      if Callee(g, c) == Parent(m) && x.sent == [] && Step(g, c).now.nodes[m].sent != [] {
        assert ts[0].Tell? && ts[0].node == m;
        assert (ts + c.todo[1..])[0] == ts[0];
      }
    }
  }

  lemma TellKeepsRun(g: Graph, c: Config, m: nat)
    requires WellFormed(g) && AtTell(g, c) && m < |g.nodes| && RunInv(g, c.now, m)
    ensures RunInv(g, Step(g, c).now, m)
  {
    TellEffect(g, c);
  }

  lemma TellKeepsSlots(g: Graph, c: Config, m: nat)
    requires WellFormed(g) && AtTell(g, c) && m < |g.nodes| && !g.nodes[m].shape.Leaf?
    requires SlotsInv(g, c.now, m, g.nodes[m].shape.left, g.nodes[m].shape.right)
    requires SentInv(g, c, g.nodes[m].shape.left) && SentInv(g, c, g.nodes[m].shape.right)
    ensures SlotsInv(g, Step(g, c).now, m, g.nodes[m].shape.left, g.nodes[m].shape.right)
  {
    var l, r := g.nodes[m].shape.left, g.nodes[m].shape.right;
    TellEffect(g, c);
    TellHeard(g, c, l, m);
    TellHeard(g, c, r, m);
    if Heard(g, c.now, l, m) > 0 { TellKeepsSaid(g, c, l, m); }
    if Heard(g, c.now, r, m) > 0 { TellKeepsSaid(g, c, r, m); }
    if Callee(g, c) == Parent(m) {
      CalleeIsParent(g, c);
      assert Said(Step(g, c).now, c.todo[0].node) == c.todo[0].decision;
    }
    hide Step, Heard, Said, WellFormed;
  }

  lemma TellKeepsIdle(g: Graph, c: Config, m: nat)
    requires WellFormed(g) && AtTell(g, c) && m < |g.nodes| && !g.nodes[m].shape.Leaf? && IdleInv(g, c.now, m)
    ensures IdleInv(g, Step(g, c).now, m)
  {
    TellEffect(g, c);
    TellHeard(g, c, g.nodes[m].shape.left, m);
    if Callee(g, c) == Parent(m) {
      CalleeIsParent(g, c);
    }
  }

  lemma {:induction false} CallsMonotone(requestors: seq<Requestor>, m: nat, t: nat, u: nat)
    requires t <= u <= |requestors|
    ensures Calls(requestors, m, t) <= Calls(requestors, m, u)
    decreases u
  {
    if t < u {
      CallsMonotone(requestors, m, t, u - 1);
    }
  }

  /** A child calls each parent back at most once per edge. */
  lemma HeardAtMost(g: Graph, s: State, a: nat, m: nat)
    requires WellFormed(g) && Fits(g, s) && a < |g.nodes| && m < |g.nodes|
    ensures Heard(g, s, a, m) <= Times(g.nodes[m].shape, a)
  {
    var t := s.nodes[a].told;
    if t <= |g.nodes[a].requestors| {
      CallsMonotone(g.nodes[a].requestors, m, t, |g.nodes[a].requestors|);
    }
  }

  /** A composite that hears its left child and does not decide asks its right child. */
  lemma LeftCallAsksRight(g: Graph, c: Config, m: nat)
    requires WellFormed(g) && AtTell(g, c) && m < |g.nodes| && Callee(g, c) == Parent(m) && !g.nodes[m].shape.Leaf?
    requires g.nodes[m].shape.left == c.todo[0].node && Step(g, c).now.nodes[m].run.InProgress?
    ensures Ask(Parent(m), g.nodes[m].shape.right, true) in Step(g, c).todo
    ensures Step(g, c).now.nodes[m].count != 2
  {
    TellEffect(g, c);
    TellTodo(g, c);
    CalleeIsParent(g, c);
    var ts := Next(g, c);
    assert ts[0] == Ask(Parent(m), g.nodes[m].shape.right, true);
    assert (ts + c.todo[1..])[0] == ts[0];
  }

  lemma CalleeKeepsWait(g: Graph, c: Config, m: nat)
    requires WellFormed(g) && AtTell(g, c) && m < |g.nodes| && Callee(g, c) == Parent(m) && !g.nodes[m].shape.Leaf?
    requires SlotsInv(g, c.now, m, g.nodes[m].shape.left, g.nodes[m].shape.right)
    requires WaitInv(g, c, m, g.nodes[m].shape.left, g.nodes[m].shape.right)
    ensures WaitInv(g, Step(g, c), m, g.nodes[m].shape.left, g.nodes[m].shape.right)
  {
    var l, r, c', n := g.nodes[m].shape.left, g.nodes[m].shape.right, Step(g, c), c.todo[0].node;
    var x, y := c.now.nodes[m], c'.now.nodes[m];
    TellEffect(g, c);
    CalleeIsParent(g, c);
    TellHeard(g, c, l, m);
    HeardAtMost(g, c'.now, l, m);
    HeardAtMost(g, c'.now, r, m);
    if y.run.InProgress? && !ToldOff(g, c'.now, m) && Callback(l, Idle) !in y.heard {
      assert y.heard == x.heard + [Callback(n, x.run)];
      assert x.run.InProgress? && Callback(l, Idle) !in x.heard;
      if n == l {
        LeftCallAsksRight(g, c, m);
      } else {
        TellKeepsHasAsked(g, c, m, if Heard(g, c.now, l, m) == 0 then l else r);
      }
    }
    hide Step, WellFormed, Heard;
  }

  lemma TellKeepsWait(g: Graph, c: Config, m: nat)
    requires WellFormed(g) && AtTell(g, c) && m < |g.nodes| && Callee(g, c) != Parent(m) && !g.nodes[m].shape.Leaf?
    requires WaitInv(g, c, m, g.nodes[m].shape.left, g.nodes[m].shape.right)
    ensures WaitInv(g, Step(g, c), m, g.nodes[m].shape.left, g.nodes[m].shape.right)
  {
    var l, r := g.nodes[m].shape.left, g.nodes[m].shape.right;
    TellEffect(g, c);
    TellHeard(g, c, l, m);
    if HasAsked(c, m, l) { TellKeepsHasAsked(g, c, m, l); }
    if HasAsked(c, m, r) { TellKeepsHasAsked(g, c, m, r); }
    hide Step, WellFormed, Heard;
  }

  lemma TellKeepsNodeInv(g: Graph, c: Config, m: nat)
    requires WellFormed(g) && AtTell(g, c) && m < |g.nodes| && forall a :: 0 <= a < |g.nodes| ==> NodeInv(g, c, a)
    ensures NodeInv(g, Step(g, c), m)
  {
    assert NodeInv(g, c, m) && NodeInv(g, c, c.todo[0].node);
    var x := g.nodes[m].shape;
    if !x.Leaf? {
      assert NodeInv(g, c, x.left) && NodeInv(g, c, x.right);
    }
    hide Step, WaitInv, SlotsInv, SentInv, RunInv, IdleInv;
    TellKeepsSent(g, c, m);
    TellKeepsRun(g, c, m);
    if !x.Leaf? {
      TellKeepsSlots(g, c, m);
      TellKeepsIdle(g, c, m);
      if Callee(g, c) == Parent(m) {
        CalleeKeepsWait(g, c, m);
      } else {
        TellKeepsWait(g, c, m);
      }
    }
  }

  lemma TellKeepsRootInv(g: Graph, c: Config, k: nat)
    requires WellFormed(g) && AtTell(g, c) && k < |g.roots| && RootInv(g, c, k)
    ensures RootInv(g, Step(g, c), k)
  {
    TellEffect(g, c);
    TellTodo(g, c);
    var t := Ask(Start, g.roots[k], true);
    if t in c.todo {
      StaysTodo(c.todo, Next(g, c), t);
    }
  }

  lemma TellKeepsTaskOk(g: Graph, c: Config, t: Todo)
    requires WellFormed(g) && AtTell(g, c) && InRange(g, t) && TaskOk(g, c.now, t)
    requires t.Tell? ==> t.node != c.todo[0].node
    requires Callee(g, c).Parent? ==> Callee(g, c).node < |g.nodes| && SentInv(g, c, Callee(g, c).node)
    ensures TaskOk(g, Step(g, c).now, t)
  {
    TellEffect(g, c);
  }

  lemma NextIsOk(g: Graph, c: Config, j: nat)
    requires WellFormed(g) && AtTell(g, c) && j < |Next(g, c)|
    requires Callee(g, c).Parent? ==> Callee(g, c).node < |g.nodes| && SentInv(g, c, Callee(g, c).node)
    ensures InRange(g, Next(g, c)[j]) && TaskOk(g, Step(g, c).now, Next(g, c)[j])
    ensures Next(g, c)[j].Tell? ==>
              || (j == |Next(g, c)| - 1 && Next(g, c)[j].node == c.todo[0].node)
              || (j == 0 && Callee(g, c) == Parent(Next(g, c)[j].node) && c.now.nodes[Next(g, c)[j].node].sent == [])
  {
    TellEffect(g, c);
    if Callee(g, c).Parent? {
      ParentIsRequestor(g, Callee(g, c).node);
    }
  }

  lemma OldTaskIsOk(g: Graph, c: Config, j: nat)
    requires WellFormed(g) && AtTell(g, c) && TodoInv(g, c) && 0 < j < |c.todo|
    requires Callee(g, c).Parent? ==> Callee(g, c).node < |g.nodes| && SentInv(g, c, Callee(g, c).node)
    ensures TaskOk(g, Step(g, c).now, c.todo[j])
  {
    TellKeepsTaskOk(g, c, c.todo[j]);
  }

  /** No two loops over the requestors of one node. */
  lemma TellKeepsDistinct(g: Graph, c: Config, i: nat, j: nat)
    requires WellFormed(g) && AtTell(g, c) && TodoInv(g, c) && i < j < |Step(g, c).todo|
    requires Callee(g, c).Parent? ==> Callee(g, c).node < |g.nodes| && SentInv(g, c, Callee(g, c).node)
    requires Step(g, c).todo[i].Tell? && Step(g, c).todo[j].Tell?
    ensures Step(g, c).todo[i].node != Step(g, c).todo[j].node
  {
    TellTodo(g, c);
    var ts, c' := Next(g, c), Step(g, c);
    hide Step, Next;
    if i < |ts| {
      NextIsOk(g, c, i);
      assert c'.todo[i] == ts[i];
    } else {
      assert c'.todo[i] == c.todo[1 + i - |ts|];
    }
    if j < |ts| {
      NextIsOk(g, c, j);
      assert c'.todo[j] == ts[j];
    } else {
      assert c'.todo[j] == c.todo[1 + j - |ts|];
      assert TaskOk(g, c.now, c'.todo[j]);
    }
  }

  lemma TellKeepsTodoInv(g: Graph, c: Config)
    requires WellFormed(g) && AtTell(g, c) && TodoInv(g, c)
    requires Callee(g, c).Parent? ==> Callee(g, c).node < |g.nodes| && SentInv(g, c, Callee(g, c).node)
    ensures TodoInv(g, Step(g, c))
  {
    TellTodo(g, c);
    var ts, c' := Next(g, c), Step(g, c);
    forall j | 0 <= j < |c'.todo| ensures TaskOk(g, c'.now, c'.todo[j]) {
      if j < |ts| {
        NextIsOk(g, c, j);
        assert c'.todo[j] == ts[j];
      } else {
        assert c'.todo[j] == c.todo[1 + j - |ts|];
        OldTaskIsOk(g, c, 1 + j - |ts|);
      }
    }
    forall i, j | 0 <= i < j < |c'.todo| && c'.todo[i].Tell? && c'.todo[j].Tell? ensures c'.todo[i].node != c'.todo[j].node {
      TellKeepsDistinct(g, c, i, j);
    }
  }

  lemma TellKeepsInv(g: Graph, c: Config)
    requires WellFormed(g) && Inv(g, c) && AtTell(g, c)
    ensures Inv(g, Step(g, c))
  {
    if Callee(g, c).Parent? {
      CalleeIsParent(g, c);
      assert NodeInv(g, c, Callee(g, c).node);
    }
    hide NodeInv, RootInv, TodoInv, WellFormed;
    TellKeepsTodoInv(g, c);
    forall m | 0 <= m < |g.nodes| ensures NodeInv(g, Step(g, c), m) {
      TellKeepsNodeInv(g, c, m);
    }
    forall k | 0 <= k < |g.roots| ensures RootInv(g, Step(g, c), k) {
      TellKeepsRootInv(g, c, k);
    }
    TellEffect(g, c);
  }

  // ----- A step that ends a loop -----

  lemma EndKeepsNodeInv(g: Graph, c: Config, m: nat)
    requires WellFormed(g) && Proper(g, c) && c.todo != [] && c.todo[0].Tell? && m < |g.nodes| && NodeInv(g, c, m)
    requires c.todo[0].next == |g.nodes[c.todo[0].node].requestors| && TaskOk(g, c.now, c.todo[0])
    ensures NodeInv(g, Step(g, c), m)
  {
    var c' := Step(g, c);
    assert c'.now == c.now && c'.todo == [] + c.todo[1..];
    if m != c.todo[0].node && Telling(c.todo, m) {
      StaysTelling(c.todo, [], m);
    }
    forall a, b {:trigger Ask(Parent(a), b, true)} | Ask(Parent(a), b, true) in c.todo ensures Ask(Parent(a), b, true) in c'.todo {
      StaysTodo(c.todo, [], Ask(Parent(a), b, true));
    }
    hide Step, WellFormed;
  }

  lemma EndKeepsInv(g: Graph, c: Config)
    requires WellFormed(g) && Inv(g, c) && c.todo != [] && c.todo[0].Tell?
    requires c.todo[0].next == |g.nodes[c.todo[0].node].requestors|
    ensures Inv(g, Step(g, c))
  {
    var c' := Step(g, c);
    assert c'.now == c.now && c'.todo == [] + c.todo[1..];
    assert forall j :: 0 <= j < |c'.todo| ==> c'.todo[j] == c.todo[j + 1];
    assert TaskOk(g, c.now, c.todo[0]) && TodoInv(g, c');
    forall k | 0 <= k < |g.roots| ensures RootInv(g, c', k) {
      assert RootInv(g, c, k);
      if Ask(Start, g.roots[k], true) in c.todo {
        StaysTodo(c.todo, [], Ask(Start, g.roots[k], true));
      }
    }
    hide NodeInv, WellFormed, RootInv, Step, TaskOk;
    forall m | 0 <= m < |g.nodes| ensures NodeInv(g, c', m) {
      EndKeepsNodeInv(g, c, m);
    }
  }

  lemma StepKeepsInv(g: Graph, c: Config)
    requires WellFormed(g) && Inv(g, c) && c.todo != []
    ensures Inv(g, Step(g, c))
  {
    assert TaskOk(g, c.now, c.todo[0]) && InRange(g, c.todo[0]);
    hide Inv, Step;
    if c.todo[0].Ask? {
      AskKeepsInv(g, c);
    } else if c.todo[0].next < |g.nodes[c.todo[0].node].requestors| {
      TellKeepsInv(g, c);
    } else {
      EndKeepsInv(g, c);
    }
  }

  // ----- Whole runs -----

  lemma BeginRootKeepsInv(g: Graph, s: State)
    requires WellFormed(g) && Inv(g, Config(s, [])) && Enabled(g, s, RequestRoot)
    ensures Inv(g, Begin(g, s, RequestRoot))
  {
    var c, c' := Config(s, []), Begin(g, s, RequestRoot);
    assert c'.todo[0] == Ask(Start, g.roots[s.started], true);
    forall m | 0 <= m < |g.nodes| ensures NodeInv(g, c', m) {
      assert NodeInv(g, c, m);
      if !g.nodes[m].shape.Leaf? {
        var l, r := g.nodes[m].shape.left, g.nodes[m].shape.right;
        assert Heard(g, c'.now, l, m) == Heard(g, s, l, m) && Heard(g, c'.now, r, m) == Heard(g, s, r, m);
      }
    }
    forall k | 0 <= k < |g.roots| ensures RootInv(g, c', k) {
      assert RootInv(g, c, k);
    }
  }

  lemma LeafSendsAt(g: Graph, s: State, n: nat, m: nat)
    requires WellFormed(g) && Fits(g, s) && Pending(g, s, n) && m < |g.nodes|
    requires NodeInv(g, Config(s, []), n) && NodeInv(g, Config(s, []), m)
    ensures NodeInv(g, Begin(g, s, LeafDecides(n)), m)
  {
    var c' := Begin(g, s, LeafDecides(n));
    assert c'.todo[0].Tell? && c'.todo[0].node == n;
    if !g.nodes[m].shape.Leaf? {
      var l, r := g.nodes[m].shape.left, g.nodes[m].shape.right;
      assert Heard(g, c'.now, l, m) == Heard(g, s, l, m) && Heard(g, c'.now, r, m) == Heard(g, s, r, m);
      hide WellFormed;
    }
  }

  lemma BeginLeafKeepsInv(g: Graph, s: State, n: nat)
    requires WellFormed(g) && Inv(g, Config(s, [])) && Enabled(g, s, LeafDecides(n))
    ensures Inv(g, Begin(g, s, LeafDecides(n)))
  {
    var c, c' := Config(s, []), Begin(g, s, LeafDecides(n));
    assert NodeInv(g, c, n);
    assert TodoInv(g, c');
    forall k | 0 <= k < |g.roots| ensures RootInv(g, c', k) {
      assert RootInv(g, c, k);
    }
    hide NodeInv, RootInv, WellFormed;
    forall m | 0 <= m < |g.nodes| ensures NodeInv(g, c', m) {
      LeafSendsAt(g, s, n, m);
    }
  }

  lemma InitInv(g: Graph)
    requires WellFormed(g)
    ensures Inv(g, Config(Init(g), []))
  {
    var c := Config(Init(g), []);
    forall m | 0 <= m < |g.nodes| ensures NodeInv(g, c, m) {
      assert c.now.nodes[m] == FRESH;
      if !g.nodes[m].shape.Leaf? {
        assert Heard(g, Init(g), g.nodes[m].shape.left, m) == 0;
        assert Heard(g, Init(g), g.nodes[m].shape.right, m) == 0;
      }
    }
  }

  lemma InvIsStable(g: Graph)
    requires WellFormed(g)
    ensures Stable(g, c => Inv(g, c)) && StableAtBegin(g, c => Inv(g, c))
  {
    hide Inv, Step, Begin;
    forall c {:trigger Step(g, c)} | Proper(g, c) && Inv(g, c) && c.todo != [] ensures Inv(g, Step(g, c)) {
      StepKeepsInv(g, c);
    }
    forall s, e {:trigger Begin(g, s, e)} | Fits(g, s) && Inv(g, Config(s, [])) && Enabled(g, s, e)
      ensures Inv(g, Begin(g, s, e))
    {
      match e
      case RequestRoot => BeginRootKeepsInv(g, s);
      case LeafDecides(n) => BeginLeafKeepsInv(g, s, n);
    }
  }

  lemma ReachableInv(g: Graph, s: State)
    requires WellFormed(g) && Reachable(g, s)
    ensures Inv(g, Config(s, []))
  {
    var es :| Run(g, Init(g), es, s);
    InitInv(g);
    InvIsStable(g);
    RunBySteps(g, c => Inv(g, c), Init(g), es, s);
  }

  /** On every graph, with any sharing, any leaf decisions and any order of them: a node sends at most one decision, and
      calls each requestor back at most once for each time it is listed, with all calls made once the event is over. */
  lemma OneDecisionEach(g: Graph, s: State, n: nat)
    requires WellFormed(g) && Reachable(g, s) && n < |g.nodes|
    ensures |s.nodes| == |g.nodes| && |s.nodes[n].sent| <= 1
    ensures s.nodes[n].told == if s.nodes[n].sent == [] then 0 else |g.nodes[n].requestors|
  {
    ReachableInv(g, s);
    assert NodeInv(g, Config(s, []), n);
  }

  // ----- Requests alone -----

  /** The two states differ in requests only. */
  ghost predicate SameDecisions(s: State, s': State) {
    && |s'.nodes| == |s.nodes|
    && forall m :: 0 <= m < |s.nodes| ==>
         && s'.nodes[m].left == s.nodes[m].left && s'.nodes[m].right == s.nodes[m].right
         && s'.nodes[m].count == s.nodes[m].count && s'.nodes[m].sent == s.nodes[m].sent
         && s'.nodes[m].told == s.nodes[m].told
         && (s'.nodes[m].run.Completed? <==> s.nodes[m].run.Completed?)
  }

  lemma {:induction false} RequestSameDecisions(g: Graph, s: State, n: nat, want: bool)
    requires WellFormed(g) && Fits(g, s) && n < |g.nodes|
    ensures SameDecisions(s, Request(g, s, n, want))
    ensures forall m :: 0 <= m < |g.nodes| && g.nodes[m].shape.Leaf? && !s.nodes[m].run.InProgress? ==>
              !Request(g, s, n, want).nodes[m].run.InProgress?
    decreases n
  {
    var x := s.nodes[n].(received := s.nodes[n].received + [want]);
    var shape := g.nodes[n].shape;
    if x.run == Idle && !shape.Leaf? {
      if want {
        var s1 := Set(Set(s, n, x.(run := ShouldRun)), n, x.(run := InProgress));
        RequestSameDecisions(g, s1, shape.left, true);
      } else {
        var x' := x.(willNotRun := x.willNotRun + 1);
        if x'.willNotRun == |g.nodes[n].requestors| {
          var s1 := Set(Set(s, n, x'.(run := WillNotRun)), n, x'.(run := InProgress));
          RequestSameDecisions(g, s1, shape.left, false);
          RequestSameDecisions(g, Request(g, s1, shape.left, false), shape.right, false);
        }
      }
    }
  }
}
