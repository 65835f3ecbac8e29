/**
  Who answers.  With sharing a composite can be left waiting for nobody; here is when, and a class of shared graphs on
  which every run ends with an answer from every root.
 */
module DecisionAnswers {
  import opened DecisionGraph
  import opened DecisionSteps
  import opened DecisionCallbacks
  import opened DecisionSoundness

  // ----- Why a node has not answered -----

  /** The child a composite waits for. */
  function Awaited(g: Graph, s: State, m: nat): nat
    requires WellFormed(g) && Fits(g, s) && m < |g.nodes| && !g.nodes[m].shape.Leaf?
  {
    if Heard(g, s, g.nodes[m].shape.left, m) == 0 then g.nodes[m].shape.left else g.nodes[m].shape.right
  }

  /** A composite whose left child was early, or that waits for a child told that nobody will ask. */
  ghost predicate Stuck(g: Graph, s: State, m: nat)
    requires WellFormed(g) && Fits(g, s) && m < |g.nodes|
  {
    && !g.nodes[m].shape.Leaf? && s.nodes[m].run.InProgress? && !ToldOff(g, s, m)
    && (LeftEarly(g, s, m) || (ToldOff(g, s, Awaited(g, s, m)) && s.nodes[Awaited(g, s, m)].sent == []))
  }

  /** Node n is m, or waits for a child that waits for m. */
  ghost predicate WaitsFor(g: Graph, s: State, n: nat, m: nat)
    requires WellFormed(g) && Fits(g, s) && n < |g.nodes|
    decreases n
  {
    n == m || (!g.nodes[n].shape.Leaf? && WaitsFor(g, s, Awaited(g, s, n), m))
  }

  /** A child that has sent its decision has called every parent back once an event is over. */
  lemma SentIsHeard(g: Graph, s: State, n: nat, child: nat)
    requires WellFormed(g) && Inv(g, Config(s, [])) && n < |g.nodes| && child < |g.nodes| && s.nodes[child].sent != []
    ensures Heard(g, s, child, n) == Times(g.nodes[n].shape, child)
  {
    assert NodeInv(g, Config(s, []), child);
    assert s.nodes[child].told == |g.nodes[child].requestors|;
    assert Calls(g.nodes[child].requestors, n, |g.nodes[child].requestors|) == Times(g.nodes[n].shape, child);
  }

  lemma AwaitedIsAsked(g: Graph, s: State, n: nat)
    requires WellFormed(g) && Inv(g, Config(s, [])) && n < |g.nodes| && !g.nodes[n].shape.Leaf?
    requires s.nodes[n].run.InProgress? && !ToldOff(g, s, n) && !LeftEarly(g, s, n)
    ensures !s.nodes[Awaited(g, s, n)].run.Idle? && s.nodes[Awaited(g, s, n)].sent == []
  {
    assert NodeInv(g, Config(s, []), n);
    if s.nodes[Awaited(g, s, n)].sent != [] {
      SentIsHeard(g, s, n, Awaited(g, s, n));
    }
  }

  /** On every graph, when a run is at its end and a node that was asked has sent nothing, the chain of those it waits
      for leads to a composite that is stuck. */
  lemma {:induction false} SilentMeansStuck(g: Graph, s: State, n: nat) returns (m: nat)
    requires WellFormed(g) && Reachable(g, s) && AtEnd(g, s) && n < |g.nodes| && Fits(g, s)
    requires !s.nodes[n].run.Idle? && !ToldOff(g, s, n) && s.nodes[n].sent == []
    ensures m <= n && WaitsFor(g, s, n, m) && Stuck(g, s, m)
    decreases n
  {
    ReachableInv(g, s);
    assert NodeInv(g, Config(s, []), n) && !Pending(g, s, n);
    m := n;
    if !LeftEarly(g, s, n) {
      AwaitedIsAsked(g, s, n);
      if !ToldOff(g, s, Awaited(g, s, n)) {
        m := SilentMeansStuck(g, s, Awaited(g, s, n));
      }
    }
  }

  lemma RootIsAsked(g: Graph, s: State, k: nat)
    requires WellFormed(g) && Reachable(g, s) && AtEnd(g, s) && k < |g.roots|
    ensures Fits(g, s) && !s.nodes[g.roots[k]].run.Idle?
  {
    ReachableInv(g, s);
    assert RootInv(g, Config(s, []), k);
  }

  // ----- Graphs shared on the right -----

  /** A node such that it and all nodes below it have one requestor each. */
  predicate Tree(g: Graph, n: nat)
    requires WellFormed(g) && n < |g.nodes|
  {
    var x := g.nodes[n].shape;
    |g.nodes[n].requestors| == 1 && (x.Leaf? || (Tree(g, x.left) && Tree(g, x.right)))
  }

  /** Only right children are shared, and what is to the left of a shared one is a tree. */
  ghost predicate SharedOnTheRight(g: Graph) {
    && WellFormed(g)
    && forall p :: 0 <= p < |g.nodes| && !g.nodes[p].shape.Leaf? ==>
         && |g.nodes[g.nodes[p].shape.left].requestors| == 1
         && (|g.nodes[g.nodes[p].shape.right].requestors| > 1 ==> Tree(g, g.nodes[p].shape.left))
  }

  /** The node has or may have told a child that it will not ask. */
  predicate SaidNo(g: Graph, s: State, m: nat)
    requires Fits(g, s) && m < |g.nodes|
  {
    ToldOff(g, s, m) || s.nodes[m].sent != []
  }

  predicate Owns(g: Graph, m: nat, child: nat)
    requires child < |g.nodes|
  {
    g.nodes[child].requestors == [Parent(m)]
  }

  /** The i-th requestor of a node accounts for having told it that it will not ask. */
  predicate Counted(g: Graph, c: Config, child: nat, i: nat)
    requires Proper(g, c) && child < |g.nodes| && i < |g.nodes[child].requestors|
  {
    var who, all := g.nodes[child].requestors[i], |g.nodes[child].requestors|;
    who.Parent? && who.node < |g.nodes| && SaidNo(g, c.now, who.node) && (all == 1 || Ask(who, child, false) !in c.todo)
  }

  function Nos(g: Graph, c: Config, child: nat, t: nat): nat
    requires Proper(g, c) && child < |g.nodes| && t <= |g.nodes[child].requestors|
  {
    if t == 0 then 0 else Nos(g, c, child, t - 1) + if Counted(g, c, child, t - 1) then 1 else 0
  }

  // ----- Its invariant -----

  ghost predicate NoAskBelow(g: Graph, c: Config, i: nat, j: nat)
    requires Proper(g, c) && i < j < |c.todo|
  {
    c.todo[j].Ask? && c.todo[j].who.Parent? ==>
      && (c.todo[i].Tell? ==> c.todo[j].who.node < |g.nodes| && c.now.nodes[c.todo[j].who.node].sent != [])
      && (c.todo[i].Ask? && c.todo[i].who == c.todo[j].who ==> c.todo[i].node != c.todo[j].node)
  }

  ghost predicate NoOk(g: Graph, c: Config, t: Todo)
    requires Proper(g, c)
  {
    t.Ask? && !t.want ==> t.who.Parent? && t.who.node < |g.nodes| && SaidNo(g, c.now, t.who.node)
  }

  ghost predicate TodoInv2(g: Graph, c: Config)
    requires Proper(g, c)
  {
    && (forall i, j :: 0 <= i < j < |c.todo| ==> NoAskBelow(g, c, i, j))
    && (forall j :: 0 <= j < |c.todo| ==> NoOk(g, c, c.todo[j]))
  }

  /** A node with a single requestor is not touched before that is asked, and told off as soon as that is. */
  ghost predicate OwnOk(g: Graph, c: Config, n: nat, m: nat)
    requires Proper(g, c) && n < |g.nodes| && m < |g.nodes|
  {
    && (c.now.nodes[m].run.Idle? ==> c.now.nodes[n].run.Idle? && c.now.nodes[n].willNotRun == 0)
    && (ToldOff(g, c.now, m) ==>
          || ToldOff(g, c.now, n)
          || (c.now.nodes[n].run.Idle? && Ask(Parent(m), n, false) in c.todo && Ask(Parent(m), n, true) !in c.todo))
  }

  ghost predicate OwnInv(g: Graph, c: Config, n: nat)
    requires Proper(g, c) && n < |g.nodes|
  {
    forall m :: 0 <= m < |g.nodes| && Owns(g, m, n) ==> OwnOk(g, c, n, m)
  }

  ghost predicate AnswerInv(g: Graph, c: Config, n: nat)
    requires WellFormed(g) && Proper(g, c) && n < |g.nodes|
  {
    && OwnInv(g, c, n)
    && c.now.nodes[n].willNotRun <= Nos(g, c, n, |g.nodes[n].requestors|)
    && (Tree(g, n) && ToldOff(g, c.now, n) ==> c.now.nodes[n].sent == [])
    && (!g.nodes[n].shape.Leaf? ==> !LeftEarly(g, c.now, n))
  }

  ghost predicate RightInv(g: Graph, c: Config) {
    SharedOnTheRight(g) && Inv(g, c) && TodoInv2(g, c) && forall n :: 0 <= n < |g.nodes| ==> AnswerInv(g, c, n)
  }

  // ----- Facts about the graph -----

  lemma {:induction false} CallsAtMost(requestors: seq<Requestor>, m: nat, t: nat)
    requires t <= |requestors|
    ensures Calls(requestors, m, t) <= t
  {
    if t > 0 {
      CallsAtMost(requestors, m, t - 1);
    }
  }

  /** A left child belongs to its parent, and the right child is another node. */
  lemma LeftIsOwn(g: Graph, p: nat)
    requires SharedOnTheRight(g) && p < |g.nodes| && !g.nodes[p].shape.Leaf?
    ensures Owns(g, p, g.nodes[p].shape.left) && g.nodes[p].shape.left != g.nodes[p].shape.right
  {
    ParentIsRequestor(g, p);
    var l := g.nodes[p].shape.left;
    assert g.nodes[l].requestors == [Parent(p)];
    assert Calls(g.nodes[l].requestors, p, |g.nodes[l].requestors|) == Times(g.nodes[p].shape, l);
    CallsAtMost(g.nodes[l].requestors, p, |g.nodes[l].requestors|);
  }

  lemma {:induction false} NosGrow(g: Graph, c: Config, c': Config, child: nat, t: nat)
    requires Proper(g, c) && Proper(g, c') && child < |g.nodes| && t <= |g.nodes[child].requestors|
    requires forall i :: 0 <= i < t && Counted(g, c, child, i) ==> Counted(g, c', child, i)
    ensures Nos(g, c, child, t) <= Nos(g, c', child, t)
    ensures forall i :: 0 <= i < t && !Counted(g, c, child, i) && Counted(g, c', child, i) ==>
              Nos(g, c, child, t) < Nos(g, c', child, t)
  {
    if t > 0 {
      NosGrow(g, c, c', child, t - 1);
    }
  }

  lemma {:induction false} NosAtMost(g: Graph, c: Config, child: nat, t: nat)
    requires Proper(g, c) && child < |g.nodes| && t <= |g.nodes[child].requestors|
    ensures Nos(g, c, child, t) <= t
    ensures forall i :: 0 <= i < t && !Counted(g, c, child, i) ==> Nos(g, c, child, t) < t
  {
    if t > 0 {
      NosAtMost(g, c, child, t - 1);
    }
  }

  // ----- What only grows -----

  ghost predicate GrowsAt(g: Graph, s: State, s': State, m: nat)
    requires Fits(g, s) && Fits(g, s') && m < |g.nodes|
  {
    var x, y := s.nodes[m], s'.nodes[m];
    && x.willNotRun <= y.willNotRun
    && (!x.run.Idle? ==> !y.run.Idle? && y.willNotRun == x.willNotRun)
    && (x.sent != [] ==> y.sent == x.sent)
    && (ToldOff(g, s, m) ==> ToldOff(g, s', m))
    && (SaidNo(g, s, m) ==> SaidNo(g, s', m))
  }

  lemma StepGrows(g: Graph, c: Config, m: nat)
    requires WellFormed(g) && Inv(g, c) && c.todo != [] && m < |g.nodes|
    ensures GrowsAt(g, c.now, Step(g, c).now, m)
  {
    assert TaskOk(g, c.now, c.todo[0]) && InRange(g, c.todo[0]) && NodeInv(g, c, m);
    if c.todo[0].Ask? {
      AskEffect(g, c);
    } else if c.todo[0].next < |g.nodes[c.todo[0].node].requestors| {
      TellEffect(g, c);
    }
  }

  // ----- Asking -----

  /** The node asked is the one whose requests are passed on, and it was idle. */
  lemma PassedBy(g: Graph, c: Config, t: Todo)
    requires SharedOnTheRight(g) && Inv(g, c) && c.todo != [] && c.todo[0].Ask?
    requires t in Passed(g, c.now, c.todo[0].node, c.todo[0].want)
    ensures var n, want := c.todo[0].node, c.todo[0].want;
            && t.Ask? && t.who == Parent(n) && t.want == want && t.node < n
            && !g.nodes[n].shape.Leaf? && (t.node == g.nodes[n].shape.left || t.node == g.nodes[n].shape.right)
            && c.now.nodes[n].run.Idle? && c.now.nodes[n].sent == []
            && (want ==> t.node == g.nodes[n].shape.left)
            && (!want ==> ToldOff(g, Step(g, c).now, n))
  {
    AskEffect(g, c);
    assert NodeInv(g, c, c.todo[0].node);
  }

  /** Nobody asks for a node that is idle itself. */
  lemma IdleDoesNotAsk(g: Graph, c: Config, t: Todo)
    requires WellFormed(g) && Inv(g, c) && t in c.todo && t.Ask? && t.who.Parent?
    ensures t.who.node < |g.nodes| && !c.now.nodes[t.who.node].run.Idle?
  {
    var j :| 0 <= j < |c.todo| && c.todo[j] == t;
    assert TaskOk(g, c.now, c.todo[j]);
  }

  lemma AskKeepsBelow(g: Graph, c: Config, i: nat, j: nat)
    requires RightInv(g, c) && c.todo != [] && c.todo[0].Ask? && i < j < |Step(g, c).todo|
    ensures NoAskBelow(g, Step(g, c), i, j)
  {
    var c', ts := Step(g, c), Passed(g, c.now, c.todo[0].node, c.todo[0].want);
    AskEffect(g, c);
    if j >= |ts| {
      AskKeepsBelowOld(g, c, i, j);
    } else {
      assert ts[i] in ts && ts[j] in ts;
      PassedBy(g, c, ts[i]);
      PassedBy(g, c, ts[j]);
      LeftIsOwn(g, c.todo[0].node);
    }
    hide Step, Passed, RightInv, WellFormed, Inv;
  }

  lemma BelowStays(g: Graph, c: Config, c': Config, i0: nat, j0: nat, i: nat, j: nat)
    requires Proper(g, c) && Proper(g, c') && i0 < j0 < |c.todo| && i < j < |c'.todo|
    requires c'.todo[i] == c.todo[i0] && c'.todo[j] == c.todo[j0] && NoAskBelow(g, c, i0, j0)
    requires forall m :: 0 <= m < |g.nodes| ==> c'.now.nodes[m].sent == c.now.nodes[m].sent
    ensures NoAskBelow(g, c', i, j)
  {
  }

  /** A request further down the stack was there before. */
  lemma AskKeepsBelowOld(g: Graph, c: Config, i: nat, j: nat)
    requires RightInv(g, c) && c.todo != [] && c.todo[0].Ask? && i < j < |Step(g, c).todo|
    requires j >= |Passed(g, c.now, c.todo[0].node, c.todo[0].want)|
    ensures NoAskBelow(g, Step(g, c), i, j)
  {
    var c', ts := Step(g, c), Passed(g, c.now, c.todo[0].node, c.todo[0].want);
    AskEffect(g, c);
    var j0 := 1 + j - |ts|;
    assert c'.todo[j] == c.todo[j0];
    if i >= |ts| {
      var i0 := 1 + i - |ts|;
      assert c'.todo[i] == c.todo[i0] && NoAskBelow(g, c, i0, j0);
      hide Step, Passed, WellFormed, RightInv, Inv, NoAskBelow;
      BelowStays(g, c, c', i0, j0, i, j);
    } else if c.todo[j0].Ask? && c.todo[j0].who.Parent? {
      assert c'.todo[i] == ts[i] && ts[i] in ts;
      IdleDoesNotAsk(g, c, c.todo[j0]);
      PassedBy(g, c, ts[i]);
      hide Step, Passed, WellFormed, RightInv, Inv;
    }
  }

  lemma AskKeepsNoOk(g: Graph, c: Config, j: nat)
    requires RightInv(g, c) && c.todo != [] && c.todo[0].Ask? && j < |Step(g, c).todo|
    ensures NoOk(g, Step(g, c), Step(g, c).todo[j])
  {
    var c', ts := Step(g, c), Passed(g, c.now, c.todo[0].node, c.todo[0].want);
    AskEffect(g, c);
    if j < |ts| {
      assert ts[j] in ts;
      PassedBy(g, c, ts[j]);
    } else {
      assert c'.todo[j] == c.todo[1 + j - |ts|];
      assert NoOk(g, c, c'.todo[j]);
      if c'.todo[j].Ask? && !c'.todo[j].want { StepGrows(g, c, c'.todo[j].who.node); }
    }
  }

  lemma AskTodo(g: Graph, c: Config, t: Todo)
    requires SharedOnTheRight(g) && Inv(g, c) && c.todo != [] && c.todo[0].Ask?
    ensures t in Step(g, c).todo <==> t in Passed(g, c.now, c.todo[0].node, c.todo[0].want) || t in c.todo[1..]
  {
    AskEffect(g, c);
  }

  /** A node that is told off tells both children. */
  lemma ToldOffPasses(g: Graph, c: Config, m: nat)
    requires WellFormed(g) && Inv(g, c) && c.todo != [] && c.todo[0].Ask? && m < |g.nodes| && !g.nodes[m].shape.Leaf?
    requires ToldOff(g, Step(g, c).now, m) && !ToldOff(g, c.now, m)
    ensures c.now.nodes[m].run.Idle? && c.todo[0].node == m && !c.todo[0].want
    ensures var ts := Passed(g, c.now, m, false);
            && Ask(Parent(m), g.nodes[m].shape.left, false) in ts && Ask(Parent(m), g.nodes[m].shape.right, false) in ts
  {
    AskEffect(g, c);
    assert NodeInv(g, c, m) && TaskOk(g, c.now, c.todo[0]);
    var ts := Passed(g, c.now, m, false);
    assert ts[0] == Ask(Parent(m), g.nodes[m].shape.left, false) && ts[1] == Ask(Parent(m), g.nodes[m].shape.right, false);
  }

  lemma NewlyToldOff(g: Graph, c: Config, n: nat, m: nat)
    requires SharedOnTheRight(g) && Inv(g, c) && c.todo != [] && c.todo[0].Ask? && n < |g.nodes| && m < |g.nodes|
    requires Owns(g, m, n) && OwnOk(g, c, n, m) && ToldOff(g, Step(g, c).now, m) && !ToldOff(g, c.now, m)
    ensures OwnOk(g, Step(g, c), n, m)
  {
    var no, yes := Ask(Parent(m), n, false), Ask(Parent(m), n, true);
    OwnedIsChild(g, m, n);
    ToldOffPasses(g, c, m);
    AskTodo(g, c, no);
    AskTodo(g, c, yes);
    if yes in c.todo[1..] { IdleDoesNotAsk(g, c, yes); }
    if yes in Passed(g, c.now, m, false) { PassedBy(g, c, yes); }
    AskEffect(g, c);
  }

  lemma AskKeepsOwn(g: Graph, c: Config, n: nat, m: nat)
    requires SharedOnTheRight(g) && Inv(g, c) && c.todo != [] && c.todo[0].Ask? && n < |g.nodes| && m < |g.nodes|
    requires Owns(g, m, n) && OwnOk(g, c, n, m)
    ensures OwnOk(g, Step(g, c), n, m)
  {
    var c', head, no, yes := Step(g, c), c.todo[0], Ask(Parent(m), n, false), Ask(Parent(m), n, true);
    AskEffect(g, c);
    assert TaskOk(g, c.now, head) && NodeInv(g, c, n);
    assert head.node == n ==> head.who == Parent(m);
    if ToldOff(g, c'.now, m) && !ToldOff(g, c.now, m) {
      NewlyToldOff(g, c, n, m);
    } else if ToldOff(g, c.now, m) && !ToldOff(g, c.now, n) && head.node != n {
      AskTodo(g, c, no);
      AskTodo(g, c, yes);
      assert no != head && no in c.todo[1..];
      if yes in Passed(g, c.now, head.node, head.want) { PassedBy(g, c, yes); }
    } else if ToldOff(g, c.now, m) && !ToldOff(g, c.now, n) {
      assert head == no;
    }
  }

  lemma OwnedIsChild(g: Graph, m: nat, n: nat)
    requires WellFormed(g) && m < |g.nodes| && n < |g.nodes| && Owns(g, m, n)
    ensures n < m && !g.nodes[m].shape.Leaf? && (g.nodes[m].shape.left == n || g.nodes[m].shape.right == n)
  {
    assert g.nodes[n].requestors[0] == Parent(m);
  }

  lemma {:induction false} NosPositive(g: Graph, c: Config, child: nat, i: nat, t: nat)
    requires Proper(g, c) && child < |g.nodes| && i < t <= |g.nodes[child].requestors| && Counted(g, c, child, i)
    ensures Nos(g, c, child, t) > 0
    decreases t
  {
    if i < t - 1 {
      NosPositive(g, c, child, i, t - 1);
    }
  }

  lemma AskKeepsCounted(g: Graph, c: Config, child: nat, i: nat)
    requires SharedOnTheRight(g) && Inv(g, c) && c.todo != [] && c.todo[0].Ask? && child < |g.nodes|
    requires i < |g.nodes[child].requestors| && Counted(g, c, child, i)
    ensures Counted(g, Step(g, c), child, i)
  {
    var who := g.nodes[child].requestors[i];
    StepGrows(g, c, who.node);
    AskTodo(g, c, Ask(who, child, false));
    if Ask(who, child, false) in Passed(g, c.now, c.todo[0].node, c.todo[0].want) {
      PassedBy(g, c, Ask(who, child, false));
    }
  }

  /** The requestor that has just said no is counted from then on. */
  lemma AskerIsCounted(g: Graph, c: Config) returns (i: nat)
    requires SharedOnTheRight(g) && Inv(g, c) && TodoInv2(g, c) && c.todo != [] && c.todo[0].Ask? && !c.todo[0].want
    ensures i < |g.nodes[c.todo[0].node].requestors| && Counted(g, Step(g, c), c.todo[0].node, i)
    ensures |g.nodes[c.todo[0].node].requestors| > 1 ==> !Counted(g, c, c.todo[0].node, i)
  {
    var head, c' := c.todo[0], Step(g, c);
    assert TaskOk(g, c.now, head) && NoOk(g, c, head);
    i :| 0 <= i < |g.nodes[head.node].requestors| && g.nodes[head.node].requestors[i] == head.who;
    StepGrows(g, c, head.who.node);
    AskTodo(g, c, head);
    if head in Passed(g, c.now, head.node, false) {
      PassedBy(g, c, head);
    }
    forall j | 0 <= j < |c.todo[1..]| ensures c.todo[1..][j] != head {
      assert NoAskBelow(g, c, 0, j + 1);
    }
    assert head in c.todo;
  }

  lemma AskKeepsNos(g: Graph, c: Config, n: nat)
    requires SharedOnTheRight(g) && Inv(g, c) && TodoInv2(g, c) && c.todo != [] && c.todo[0].Ask? && n < |g.nodes|
    requires c.now.nodes[n].willNotRun <= Nos(g, c, n, |g.nodes[n].requestors|)
    ensures Step(g, c).now.nodes[n].willNotRun <= Nos(g, Step(g, c), n, |g.nodes[n].requestors|)
  {
    var c', all := Step(g, c), |g.nodes[n].requestors|;
    AskEffect(g, c);
    assert NodeInv(g, c, n);
    forall i | 0 <= i < all && Counted(g, c, n, i) ensures Counted(g, c', n, i) {
      AskKeepsCounted(g, c, n, i);
    }
    NosGrow(g, c, c', n, all);
    if c'.now.nodes[n].willNotRun != c.now.nodes[n].willNotRun {
      var i := AskerIsCounted(g, c);
      NosPositive(g, c', n, i, all);
    }
  }

  lemma AskKeepsAnswerInv(g: Graph, c: Config, n: nat)
    requires RightInv(g, c) && c.todo != [] && c.todo[0].Ask? && n < |g.nodes|
    ensures AnswerInv(g, Step(g, c), n)
  {
    assert AnswerInv(g, c, n) && NodeInv(g, c, n);
    assert Proper(g, c) && TodoInv2(g, c) && Inv(g, c) && SharedOnTheRight(g);
    AskEffect(g, c);
    AskKeepsNos(g, c, n);
    forall m | 0 <= m < |g.nodes| && Owns(g, m, n) ensures OwnOk(g, Step(g, c), n, m) {
      assert OwnOk(g, c, n, m);
      AskKeepsOwn(g, c, n, m);
    }
    hide Step, Nos, OwnOk, SharedOnTheRight, WellFormed, TodoInv2;
  }

  lemma AskKeepsRightInv(g: Graph, c: Config)
    requires RightInv(g, c) && c.todo != [] && c.todo[0].Ask?
    ensures RightInv(g, Step(g, c))
  {
    StepKeepsInv(g, c);
    forall i, j | 0 <= i < j < |Step(g, c).todo| ensures NoAskBelow(g, Step(g, c), i, j) {
      AskKeepsBelow(g, c, i, j);
    }
    forall j | 0 <= j < |Step(g, c).todo| ensures NoOk(g, Step(g, c), Step(g, c).todo[j]) {
      AskKeepsNoOk(g, c, j);
    }
    forall n | 0 <= n < |g.nodes| ensures AnswerInv(g, Step(g, c), n) {
      AskKeepsAnswerInv(g, c, n);
    }
  }

  // ----- Calling back -----

  lemma NextAsks(g: Graph, c: Config, t: Todo)
    requires RightInv(g, c) && AtTell(g, c) && t in Next(g, c) && t.Ask?
    ensures Callee(g, c).Parent? && Callee(g, c).node < |g.nodes| && t.who == Callee(g, c)
    ensures var p := Callee(g, c).node;
            && !g.nodes[p].shape.Leaf? && t.node == g.nodes[p].shape.right && g.nodes[p].shape.left == c.todo[0].node
            && c.now.nodes[p].run.InProgress? && c.now.nodes[p].sent == []
            && (!t.want ==> Step(g, c).now.nodes[p].sent != [])
  {
    TellEffect(g, c);
    assert NodeInv(g, c, Callee(g, c).node);
  }

  /** Everybody with a request to make has sent a decision when a callback is next. */
  lemma AskersHaveSent(g: Graph, c: Config, t: Todo)
    requires RightInv(g, c) && AtTell(g, c) && t in c.todo && t.Ask? && t.who.Parent?
    ensures t.who.node < |g.nodes| && c.now.nodes[t.who.node].sent != []
    ensures t in c.todo[1..]
  {
    var j :| 0 <= j < |c.todo| && c.todo[j] == t;
    assert NoAskBelow(g, c, 0, j);
    assert c.todo[1..][j - 1] == t;
  }

  lemma TellTodoSet(g: Graph, c: Config, t: Todo)
    requires WellFormed(g) && AtTell(g, c)
    ensures t in Step(g, c).todo <==> t in Next(g, c) || t in c.todo[1..]
  {
    TellTodo(g, c);
  }

  lemma TellKeepsBelow(g: Graph, c: Config, i: nat, j: nat)
    requires RightInv(g, c) && AtTell(g, c) && i < j < |Step(g, c).todo|
    ensures NoAskBelow(g, Step(g, c), i, j)
  {
    var c', ts := Step(g, c), Next(g, c);
    TellTodo(g, c);
    if c'.todo[j].Ask? && c'.todo[j].who.Parent? {
      if j >= |ts| {
        TellKeepsBelowOld(g, c, i, j);
      } else {
        assert ts[j] in ts && c'.todo[j] == ts[j] && c'.todo[i] == ts[i];
        NextAsks(g, c, ts[j]);
      }
    }
    hide Step, RightInv, WellFormed, Inv;
  }

  lemma TellKeepsBelowOld(g: Graph, c: Config, i: nat, j: nat)
    requires RightInv(g, c) && AtTell(g, c) && i < j < |Step(g, c).todo| && j >= |Next(g, c)|
    requires Step(g, c).todo[j].Ask? && Step(g, c).todo[j].who.Parent?
    ensures NoAskBelow(g, Step(g, c), i, j)
  {
    var c', ts := Step(g, c), Next(g, c);
    TellTodo(g, c);
    var j0 := 1 + j - |ts|;
    assert c'.todo[j] == c.todo[j0] && c.todo[j0] in c.todo;
    AskersHaveSent(g, c, c.todo[j0]);
    StepGrows(g, c, c.todo[j0].who.node);
    if i >= |ts| {
      assert c'.todo[i] == c.todo[1 + i - |ts|];
      assert NoAskBelow(g, c, 1 + i - |ts|, j0);
    } else if ts[i].Ask? {
      assert ts[i] in ts && c'.todo[i] == ts[i];
      NextAsks(g, c, ts[i]);
    }
    hide Step, RightInv, WellFormed, Inv;
  }

  lemma TellKeepsNoOk(g: Graph, c: Config, j: nat)
    requires RightInv(g, c) && AtTell(g, c) && j < |Step(g, c).todo|
    ensures NoOk(g, Step(g, c), Step(g, c).todo[j])
  {
    var c', ts := Step(g, c), Next(g, c);
    TellTodo(g, c);
    if j < |ts| {
      assert c'.todo[j] == ts[j] && ts[j] in ts;
      if ts[j].Ask? { NextAsks(g, c, ts[j]); }
    } else {
      assert c'.todo[j] == c.todo[1 + j - |ts|];
      assert NoOk(g, c, c'.todo[j]);
      if c'.todo[j].Ask? && !c'.todo[j].want { StepGrows(g, c, c'.todo[j].who.node); }
    }
  }

  lemma TellKeepsOwn(g: Graph, c: Config, n: nat, m: nat)
    requires RightInv(g, c) && AtTell(g, c) && n < |g.nodes| && m < |g.nodes| && Owns(g, m, n) && OwnOk(g, c, n, m)
    ensures OwnOk(g, Step(g, c), n, m)
  {
    var no, yes := Ask(Parent(m), n, false), Ask(Parent(m), n, true);
    TellEffect(g, c);
    if ToldOff(g, c.now, m) && !ToldOff(g, c.now, n) {
      TellTodoSet(g, c, no);
      TellTodoSet(g, c, yes);
      AskersHaveSent(g, c, no);
      if yes in Next(g, c) { NextAsks(g, c, yes); }
      assert yes in c.todo[1..] ==> yes in c.todo;
    }
    hide Next, RightInv, WellFormed;
  }

  /** The node of a tree below one that is told off does not call back. */
  lemma CallerIsWanted(g: Graph, c: Config)
    requires RightInv(g, c) && AtTell(g, c) && Callee(g, c).Parent? && Callee(g, c).node < |g.nodes|
    requires c.now.nodes[Callee(g, c).node].sent == [] && Owns(g, Callee(g, c).node, c.todo[0].node)
    ensures Tree(g, c.todo[0].node) ==> !ToldOff(g, c.now, Callee(g, c).node)
    ensures !c.now.nodes[Callee(g, c).node].run.Idle?
  {
    var n, p := c.todo[0].node, Callee(g, c).node;
    assert AnswerInv(g, c, n) && OwnOk(g, c, n, p) && NodeInv(g, c, n);
    var no := Ask(Parent(p), n, false);
    if no in c.todo {
      AskersHaveSent(g, c, no);
    }
  }

  lemma TellKeepsCounted(g: Graph, c: Config, child: nat, i: nat)
    requires RightInv(g, c) && AtTell(g, c) && child < |g.nodes| && i < |g.nodes[child].requestors| && Counted(g, c, child, i)
    ensures Counted(g, Step(g, c), child, i)
  {
    var who := g.nodes[child].requestors[i];
    StepGrows(g, c, who.node);
    var no := Ask(who, child, false);
    TellTodoSet(g, c, no);
    if |g.nodes[child].requestors| > 1 && no in Next(g, c) {
      NextAsks(g, c, no);
      LeftIsOwn(g, who.node);
      CallerIsWanted(g, c);
    }
    hide Next, RightInv, WellFormed, Step;
  }

  lemma TellKeepsSilence(g: Graph, c: Config, n: nat)
    requires RightInv(g, c) && AtTell(g, c) && n < |g.nodes| && Tree(g, n) && ToldOff(g, Step(g, c).now, n)
    ensures Step(g, c).now.nodes[n].sent == []
  {
    TellEffect(g, c);
    assert AnswerInv(g, c, n);
    if Callee(g, c) == Parent(n) {
      CalleeIsParent(g, c);
      ParentIsRequestor(g, n);
      assert Owns(g, n, c.todo[0].node);
      CallerIsWanted(g, c);
    }
  }

  lemma TellKeepsOnTime(g: Graph, c: Config, p: nat)
    requires RightInv(g, c) && AtTell(g, c) && p < |g.nodes| && !g.nodes[p].shape.Leaf?
    ensures !LeftEarly(g, Step(g, c).now, p)
  {
    TellEffect(g, c);
    assert AnswerInv(g, c, p) && NodeInv(g, c, p);
    if Callee(g, c) == Parent(p) && g.nodes[p].shape.left == c.todo[0].node && c.now.nodes[p].run.Idle? {
      LeftIsOwn(g, p);
      CallerIsWanted(g, c);
    }
  }

  lemma TellKeepsAnswerInv(g: Graph, c: Config, n: nat)
    requires RightInv(g, c) && AtTell(g, c) && n < |g.nodes|
    ensures AnswerInv(g, Step(g, c), n)
  {
    var c', all := Step(g, c), |g.nodes[n].requestors|;
    assert AnswerInv(g, c, n);
    TellEffect(g, c);
    hide Nos, RightInv, WellFormed, Step;
    forall i | 0 <= i < all && Counted(g, c, n, i) ensures Counted(g, c', n, i) {
      TellKeepsCounted(g, c, n, i);
    }
    NosGrow(g, c, c', n, all);
    forall m | 0 <= m < |g.nodes| && Owns(g, m, n) ensures OwnOk(g, c', n, m) {
      assert OwnOk(g, c, n, m);
      TellKeepsOwn(g, c, n, m);
    }
    if Tree(g, n) && ToldOff(g, c'.now, n) { TellKeepsSilence(g, c, n); }
    if !g.nodes[n].shape.Leaf? { TellKeepsOnTime(g, c, n); }
  }

  lemma TellKeepsRightInv(g: Graph, c: Config)
    requires RightInv(g, c) && AtTell(g, c)
    ensures RightInv(g, Step(g, c))
  {
    StepKeepsInv(g, c);
    forall i, j | 0 <= i < j < |Step(g, c).todo| ensures NoAskBelow(g, Step(g, c), i, j) {
      TellKeepsBelow(g, c, i, j);
    }
    forall j | 0 <= j < |Step(g, c).todo| ensures NoOk(g, Step(g, c), Step(g, c).todo[j]) {
      TellKeepsNoOk(g, c, j);
    }
    forall n | 0 <= n < |g.nodes| ensures AnswerInv(g, Step(g, c), n) {
      TellKeepsAnswerInv(g, c, n);
    }
  }

  lemma EndKeepsRightInv(g: Graph, c: Config)
    requires RightInv(g, c) && c.todo != [] && c.todo[0].Tell?
    requires c.todo[0].next == |g.nodes[c.todo[0].node].requestors|
    ensures RightInv(g, Step(g, c))
  {
    StepKeepsInv(g, c);
    var c' := Step(g, c);
    assert c'.now == c.now && c'.todo == c.todo[1..];
    forall t: Todo | t.Ask? ensures t in c'.todo <==> t in c.todo {
      if t in c.todo {
        var j :| 0 <= j < |c.todo| && c.todo[j] == t;
        assert c'.todo[j - 1] == t;
      }
    }
    forall i, j | 0 <= i < j < |c'.todo| ensures NoAskBelow(g, c', i, j) {
      assert NoAskBelow(g, c, i + 1, j + 1);
    }
    forall j | 0 <= j < |c'.todo| ensures NoOk(g, c', c'.todo[j]) {
      assert NoOk(g, c, c.todo[j + 1]);
    }
    hide Step, WellFormed, Inv, TodoInv2;
    forall n | 0 <= n < |g.nodes| ensures AnswerInv(g, c', n) {
      assert AnswerInv(g, c, n);
      forall i | 0 <= i < |g.nodes[n].requestors| && Counted(g, c, n, i) ensures Counted(g, c', n, i) {
      }
      NosGrow(g, c, c', n, |g.nodes[n].requestors|);
    }
  }

  lemma StepKeepsRightInv(g: Graph, c: Config)
    requires RightInv(g, c) && c.todo != []
    ensures RightInv(g, Step(g, c))
  {
    assert TaskOk(g, c.now, c.todo[0]) && InRange(g, c.todo[0]);
    hide RightInv, Step;
    if c.todo[0].Ask? {
      AskKeepsRightInv(g, c);
    } else if c.todo[0].next < |g.nodes[c.todo[0].node].requestors| {
      TellKeepsRightInv(g, c);
    } else {
      EndKeepsRightInv(g, c);
    }
  }

  // ----- Runs -----

  lemma BeginKeepsRightInv(g: Graph, s: State, e: Event)
    requires RightInv(g, Config(s, [])) && Enabled(g, s, e)
    ensures RightInv(g, Begin(g, s, e))
  {
    var c, c' := Config(s, []), Begin(g, s, e);
    assert Inv(g, c') by { InvIsStable(g); }
    forall n | 0 <= n < |g.nodes| ensures AnswerInv(g, c', n) {
      assert AnswerInv(g, c, n) && NodeInv(g, c, n);
      forall i | 0 <= i < |g.nodes[n].requestors| && Counted(g, c, n, i) ensures Counted(g, c', n, i) {
      }
      NosGrow(g, c, c', n, |g.nodes[n].requestors|);
    }
  }

  lemma InitRightInv(g: Graph)
    requires SharedOnTheRight(g)
    ensures RightInv(g, Config(Init(g), []))
  {
    InitInv(g);
    var c := Config(Init(g), []);
    forall n | 0 <= n < |g.nodes| ensures AnswerInv(g, c, n) {
      assert c.now.nodes[n] == FRESH;
    }
  }

  lemma ReachableRightInv(g: Graph, s: State)
    requires SharedOnTheRight(g) && Reachable(g, s)
    ensures RightInv(g, Config(s, []))
  {
    var es :| Run(g, Init(g), es, s);
    InitRightInv(g);
    hide RightInv, Step, Begin;
    var P := (c: Config) => RightInv(g, c);
    forall c {:trigger Step(g, c)} | Proper(g, c) && P(c) && c.todo != [] ensures P(Step(g, c)) {
      StepKeepsRightInv(g, c);
    }
    forall s, e {:trigger Begin(g, s, e)} | Fits(g, s) && P(Config(s, [])) && Enabled(g, s, e) ensures P(Begin(g, s, e)) {
      BeginKeepsRightInv(g, s, e);
    }
    RunBySteps(g, P, Init(g), es, s);
  }

  /** A node that somebody who has not said no could still ask has not been told off. */
  lemma NotToldOff(g: Graph, s: State, n: nat, i: nat)
    requires RightInv(g, Config(s, [])) && n < |g.nodes| && i < |g.nodes[n].requestors|
    requires var who := g.nodes[n].requestors[i]; who.Parent? ==> who.node < |g.nodes| && !SaidNo(g, s, who.node)
    ensures !ToldOff(g, s, n)
  {
    assert AnswerInv(g, Config(s, []), n);
    NosAtMost(g, Config(s, []), n, |g.nodes[n].requestors|);
    assert !Counted(g, Config(s, []), n, i);
  }

  lemma NobodyIsStuck(g: Graph, s: State, m: nat)
    requires RightInv(g, Config(s, [])) && m < |g.nodes| && s.nodes[m].sent == []
    ensures !Stuck(g, s, m)
  {
    assert AnswerInv(g, Config(s, []), m);
    if !g.nodes[m].shape.Leaf? && s.nodes[m].run.InProgress? && !ToldOff(g, s, m) {
      ParentIsRequestor(g, m);
      var a := Awaited(g, s, m);
      var i :| 0 <= i < |g.nodes[a].requestors| && g.nodes[a].requestors[i] == Parent(m);
      NotToldOff(g, s, a, i);
    }
  }

  /** When only right children are shared and what is to the left of a shared one is a tree, every run that cannot go
      on has got an answer from every node that was asked, the roots among them: one decision each, the meaning of the
      node unless a leaf failed. */
  lemma EndedRunsAnswer(g: Graph, s: State, n: nat)
    requires SharedOnTheRight(g) && Reachable(g, s) && AtEnd(g, s) && n < |g.nodes|
    ensures Fits(g, s)
    ensures n in g.roots ==> !s.nodes[n].run.Idle? && !ToldOff(g, s, n)
    ensures !s.nodes[n].run.Idle? && !ToldOff(g, s, n) ==> |s.nodes[n].sent| == 1
    ensures NoExceptions(g) && s.nodes[n].sent != [] ==> s.nodes[n].sent == [Meaning(g, n)]
  {
    ReachableRightInv(g, s);
    OneDecisionEach(g, s, n);
    if n in g.roots {
      var k :| 0 <= k < |g.roots| && g.roots[k] == n;
      RootIsAsked(g, s, k);
      var i :| 0 <= i < |g.nodes[n].requestors| && g.nodes[n].requestors[i] == Start;
      NotToldOff(g, s, n, i);
    }
    if !s.nodes[n].run.Idle? && !ToldOff(g, s, n) && s.nodes[n].sent == [] {
      var m := SilentMeansStuck(g, s, n);
      StuckIsSilent(g, s, m);
      NobodyIsStuck(g, s, m);
    }
    if NoExceptions(g) {
      forall p | 0 <= p < |g.nodes| && g.nodes[p].shape.And? ensures g.nodes[p].shape.left != g.nodes[p].shape.right {
        LeftIsOwn(g, p);
      }
      DecisionsAreMeanings(g, s, n);
    }
  }

  lemma StuckIsSilent(g: Graph, s: State, m: nat)
    requires WellFormed(g) && Inv(g, Config(s, [])) && m < |g.nodes| && Stuck(g, s, m)
    ensures s.nodes[m].sent == []
  {
    assert NodeInv(g, Config(s, []), m);
  }
}
