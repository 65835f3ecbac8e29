/**
  Composites that hear their left child too early, on any graph: they depend on their right child calling by itself, and
  stay silent when it belongs to them alone.
 */
module DecisionSilence {
  import opened DecisionGraph
  import opened DecisionSteps
  import opened DecisionCallbacks
  import opened DecisionEnds

  // ----- Waiting for the right child -----

  predicate TwoChildren(g: Graph, m: nat) {
    m < |g.nodes| && !g.nodes[m].shape.Leaf? && g.nodes[m].shape.left != g.nodes[m].shape.right
  }

  /** In progress, with the left child's callback behind it and the right one's ahead. */
  predicate HalfWay(g: Graph, s: State, m: nat)
    requires WellFormed(g) && Fits(g, s) && TwoChildren(g, m)
  {
    && s.nodes[m].run.InProgress? && Heard(g, s, g.nodes[m].shape.left, m) == 1
    && Heard(g, s, g.nodes[m].shape.right, m) == 0
  }

  /** Still half way, or decided by the right child's callback. */
  ghost predicate FromHalfWay(g: Graph, c: Config, m: nat)
    requires WellFormed(g) && TwoChildren(g, m)
  {
    && Inv(g, c)
    && (HalfWay(g, c.now, m) || (c.now.nodes[m].run.Completed? && Heard(g, c.now, g.nodes[m].shape.right, m) == 1))
  }

  lemma StepFromHalfWay(g: Graph, c: Config, m: nat)
    requires WellFormed(g) && TwoChildren(g, m) && FromHalfWay(g, c, m) && c.todo != []
    ensures FromHalfWay(g, Step(g, c), m)
  {
    var l, r, c' := g.nodes[m].shape.left, g.nodes[m].shape.right, Step(g, c);
    StepKeepsInv(g, c);
    assert TaskOk(g, c.now, c.todo[0]) && InRange(g, c.todo[0]) && NodeInv(g, c, m) && NodeInv(g, c', m);
    HeardAtMost(g, c'.now, l, m);
    HeardAtMost(g, c'.now, r, m);
    if c.todo[0].Ask? {
      AskEffect(g, c);
      assert Heard(g, c'.now, l, m) == Heard(g, c.now, l, m) && Heard(g, c'.now, r, m) == Heard(g, c.now, r, m);
    } else if c.todo[0].next < |g.nodes[c.todo[0].node].requestors| {
      TellEffect(g, c);
      TellHeard(g, c, l, m);
      TellHeard(g, c, r, m);
      if Callee(g, c) == Parent(m) { CalleeIsParent(g, c); }
    }
    hide Step, WellFormed, Heard, Inv;
  }

  lemma BeginFromHalfWay(g: Graph, s: State, e: Event, m: nat)
    requires WellFormed(g) && TwoChildren(g, m) && FromHalfWay(g, Config(s, []), m) && Enabled(g, s, e)
    ensures FromHalfWay(g, Begin(g, s, e), m)
  {
    var l, r, c' := g.nodes[m].shape.left, g.nodes[m].shape.right, Begin(g, s, e);
    assert Inv(g, c') by { InvIsStable(g); }
    assert Heard(g, c'.now, l, m) == Heard(g, s, l, m) && Heard(g, c'.now, r, m) == Heard(g, s, r, m);
  }

  /** On every graph, from every state in which a composite is half way, whatever happens next: it has answered if and
      only if its right child has called it back. */
  lemma AnswersWhenRightCalls(g: Graph, s: State, es: seq<Event>, s': State, m: nat)
    requires WellFormed(g) && Reachable(g, s) && Fits(g, s) && TwoChildren(g, m) && HalfWay(g, s, m) && Run(g, s, es, s')
    ensures Fits(g, s')
    ensures s'.nodes[m].sent != [] <==> Heard(g, s', g.nodes[m].shape.right, m) == 1
  {
    ReachableInv(g, s);
    var P := (c: Config) => FromHalfWay(g, c, m);
    assert P(Config(s, []));
    hide FromHalfWay, Step, Begin;
    forall c {:trigger Step(g, c)} | Proper(g, c) && P(c) && c.todo != [] ensures P(Step(g, c)) {
      StepFromHalfWay(g, c, m);
    }
    forall s, e {:trigger Begin(g, s, e)} | Fits(g, s) && P(Config(s, [])) && Enabled(g, s, e) ensures P(Begin(g, s, e)) {
      BeginFromHalfWay(g, s, e, m);
    }
    RunBySteps(g, P, s, es, s');
    HalfWayOrAnswered(g, s', m);
  }

  lemma HalfWayOrAnswered(g: Graph, s: State, m: nat)
    requires WellFormed(g) && TwoChildren(g, m) && FromHalfWay(g, Config(s, []), m)
    ensures s.nodes[m].sent != [] <==> Heard(g, s, g.nodes[m].shape.right, m) == 1
  {
    assert NodeInv(g, Config(s, []), m);
  }

  // ----- A right child of one's own -----

  predicate RightIsOwn(g: Graph, m: nat) {
    TwoChildren(g, m) && g.nodes[m].shape.right < |g.nodes| && g.nodes[g.nodes[m].shape.right].requestors == [Parent(m)]
  }

  predicate Untouched(c: Config, n: nat)
    requires n < |c.now.nodes|
  {
    c.now.nodes[n].run.Idle? && forall j :: 0 <= j < |c.todo| && c.todo[j].Ask? ==> c.todo[j].node != n
  }

  ghost predicate EarlyInv(g: Graph, c: Config, m: nat)
    requires WellFormed(g) && RightIsOwn(g, m)
  {
    var r := g.nodes[m].shape.right;
    && Inv(g, c)
    && (c.now.nodes[m].run.Idle? ==> c.now.nodes[r].run.Idle?)
    && (LeftEarly(g, c.now, m) ==> Heard(g, c.now, g.nodes[m].shape.left, m) == 1)
    && (LeftEarly(g, c.now, m) && !ToldOff(g, c.now, m) ==> c.now.nodes[m].sent == [] && Untouched(c, r))
  }

  lemma OnlyOwnerAsks(g: Graph, c: Config, m: nat, j: nat)
    requires WellFormed(g) && RightIsOwn(g, m) && Inv(g, c) && j < |c.todo|
    ensures c.todo[j].Ask? && c.todo[j].node == g.nodes[m].shape.right ==> c.todo[j].who == Parent(m) && !c.now.nodes[m].run.Idle?
  {
    assert TaskOk(g, c.now, c.todo[j]);
  }

  lemma AskKeepsEarly(g: Graph, c: Config, m: nat)
    requires WellFormed(g) && RightIsOwn(g, m) && EarlyInv(g, c, m) && c.todo != [] && c.todo[0].Ask?
    ensures EarlyInv(g, Step(g, c), m)
  {
    var l, r, c', ts := g.nodes[m].shape.left, g.nodes[m].shape.right, Step(g, c), Passed(g, c.now, c.todo[0].node, c.todo[0].want);
    StepKeepsInv(g, c);
    AskEffect(g, c);
    OnlyOwnerAsks(g, c, m, 0);
    assert Heard(g, c'.now, l, m) == Heard(g, c.now, l, m);
    if LeftEarly(g, c'.now, m) && !ToldOff(g, c'.now, m) {
      assert NodeInv(g, c', m) && !ToldOff(g, c.now, m) && c.todo[0].node != r;
      forall j | 0 <= j < |c'.todo| && c'.todo[j].Ask? ensures c'.todo[j].node != r {
        if j < |ts| {
          OnlyOwnerAsks(g, c', m, j);
          assert c'.todo[j] == ts[j];
        } else {
          assert c'.todo[j] == c.todo[1 + j - |ts|];
        }
      }
    }
  }

  lemma TellKeepsUntouched(g: Graph, c: Config, m: nat)
    requires WellFormed(g) && RightIsOwn(g, m) && Inv(g, c) && AtTell(g, c) && Untouched(c, g.nodes[m].shape.right)
    requires Callee(g, c) == Parent(m) ==> !c.now.nodes[m].run.InProgress?
    ensures Untouched(Step(g, c), g.nodes[m].shape.right)
  {
    var r, c', ts := g.nodes[m].shape.right, Step(g, c), Next(g, c);
    TellEffect(g, c);
    TellTodo(g, c);
    StepKeepsInv(g, c);
    assert NodeInv(g, c, r);
    hide Step, Next, Inv, WellFormed;
    forall j | 0 <= j < |c'.todo| && c'.todo[j].Ask? ensures c'.todo[j].node != r {
      if j < |ts| {
        OnlyOwnerAsks(g, c', m, j);
        assert c'.todo[j] == ts[j];
      } else {
        assert c'.todo[j] == c.todo[1 + j - |ts|];
      }
    }
  }

  /** Nobody asks for an idle composite's own right child. */
  lemma IdleMeansUntouched(g: Graph, c: Config, m: nat)
    requires WellFormed(g) && RightIsOwn(g, m) && EarlyInv(g, c, m) && c.now.nodes[m].run.Idle?
    ensures Untouched(c, g.nodes[m].shape.right) && c.now.nodes[m].sent == []
  {
    assert NodeInv(g, c, m);
    forall j | 0 <= j < |c.todo| && c.todo[j].Ask? ensures c.todo[j].node != g.nodes[m].shape.right {
      OnlyOwnerAsks(g, c, m, j);
    }
  }

  lemma TellKeepsEarly(g: Graph, c: Config, m: nat)
    requires WellFormed(g) && RightIsOwn(g, m) && EarlyInv(g, c, m) && AtTell(g, c)
    ensures EarlyInv(g, Step(g, c), m)
  {
    var l, r, c' := g.nodes[m].shape.left, g.nodes[m].shape.right, Step(g, c);
    StepKeepsInv(g, c);
    TellEffect(g, c);
    TellHeard(g, c, l, m);
    HeardAtMost(g, c'.now, l, m);
    assert NodeInv(g, c, m) && NodeInv(g, c, r) && TaskOk(g, c.now, c.todo[0]);
    if c.now.nodes[m].run.Idle? { IdleMeansUntouched(g, c, m); }
    if Callee(g, c) == Parent(m) {
      CalleeIsParent(g, c);
      assert c'.now.nodes[m].heard == c.now.nodes[m].heard + [Callback(c.todo[0].node, c.now.nodes[m].run)];
    }
    if LeftEarly(g, c'.now, m) && !ToldOff(g, c'.now, m) {
      assert !ToldOff(g, c.now, m) && Untouched(c, r);
      if Callee(g, c) == Parent(m) {
        assert c.todo[0].node == l;
        assert !c.now.nodes[m].run.InProgress?;
      }
      TellKeepsUntouched(g, c, m);
    }
    hide Step, Heard, WellFormed, Inv;
  }

  lemma StepKeepsEarly(g: Graph, c: Config, m: nat)
    requires WellFormed(g) && RightIsOwn(g, m) && EarlyInv(g, c, m) && c.todo != []
    ensures EarlyInv(g, Step(g, c), m)
  {
    assert TaskOk(g, c.now, c.todo[0]) && InRange(g, c.todo[0]);
    if c.todo[0].Ask? {
      AskKeepsEarly(g, c, m);
    } else if c.todo[0].next < |g.nodes[c.todo[0].node].requestors| {
      TellKeepsEarly(g, c, m);
    } else {
      StepKeepsInv(g, c);
      assert Heard(g, Step(g, c).now, g.nodes[m].shape.left, m) == Heard(g, c.now, g.nodes[m].shape.left, m);
    }
  }

  lemma BeginKeepsEarly(g: Graph, s: State, e: Event, m: nat)
    requires WellFormed(g) && RightIsOwn(g, m) && EarlyInv(g, Config(s, []), m) && Enabled(g, s, e)
    ensures EarlyInv(g, Begin(g, s, e), m)
  {
    var c' := Begin(g, s, e);
    assert Inv(g, c') by { InvIsStable(g); }
    assert Heard(g, c'.now, g.nodes[m].shape.left, m) == Heard(g, s, g.nodes[m].shape.left, m);
    assert NodeInv(g, Config(s, []), m);
    if c'.todo[0].Ask? {
      OnlyOwnerAsks(g, c', m, 0);
      assert Start in g.nodes[g.roots[s.started]].requestors;
    }
  }

  lemma ReachableEarly(g: Graph, s: State, m: nat)
    requires WellFormed(g) && RightIsOwn(g, m) && Reachable(g, s)
    ensures EarlyInv(g, Config(s, []), m)
  {
    var es :| Run(g, Init(g), es, s);
    InitInv(g);
    assert EarlyInv(g, Config(Init(g), []), m);
    var P := (c: Config) => EarlyInv(g, c, m);
    hide EarlyInv, Step, Begin;
    forall c {:trigger Step(g, c)} | Proper(g, c) && P(c) && c.todo != [] ensures P(Step(g, c)) {
      StepKeepsEarly(g, c, m);
    }
    forall s, e {:trigger Begin(g, s, e)} | Fits(g, s) && P(Config(s, [])) && Enabled(g, s, e) ensures P(Begin(g, s, e)) {
      BeginKeepsEarly(g, s, e, m);
    }
    RunBySteps(g, P, Init(g), es, s);
  }

  /** A composite that has its right child to itself and hears its left child before it is asked never answers, and never
      asks its right child, whatever happens later. */
  lemma EarlyMeansSilent(g: Graph, s: State, m: nat)
    requires WellFormed(g) && RightIsOwn(g, m) && Reachable(g, s) && Fits(g, s) && LeftEarly(g, s, m) && !ToldOff(g, s, m)
    ensures s.nodes[m].sent == [] && s.nodes[g.nodes[m].shape.right].run.Idle?
  {
    ReachableEarly(g, s, m);
  }

  // ----- A root requested after its left child -----

  /** Requests of the first k roots, with no leaf deciding yet: nobody is told anything but to decide. */
  ghost predicate OnlyAsking(g: Graph, c: Config)
    requires WellFormed(g)
  {
    && Inv(g, c)
    && (forall m :: 0 <= m < |g.nodes| ==> c.now.nodes[m].sent == [] && c.now.nodes[m].willNotRun == 0)
    && (forall j :: 0 <= j < |c.todo| ==> c.todo[j].Ask? && c.todo[j].want)
  }

  lemma StepOnlyAsks(g: Graph, c: Config)
    requires WellFormed(g) && OnlyAsking(g, c) && c.todo != []
    ensures OnlyAsking(g, Step(g, c))
  {
    StepKeepsInv(g, c);
    AskEffect(g, c);
    var ts, c' := Passed(g, c.now, c.todo[0].node, c.todo[0].want), Step(g, c);
    forall j | 0 <= j < |c'.todo| ensures c'.todo[j].Ask? && c'.todo[j].want {
      if j >= |ts| {
        assert c'.todo[j] == c.todo[1 + j - |ts|];
      }
    }
  }

  lemma RequestOnlyAsks(g: Graph, s: State)
    requires WellFormed(g) && OnlyAsking(g, Config(s, [])) && Enabled(g, s, RequestRoot)
    ensures OnlyAsking(g, Config(Apply(g, s, RequestRoot), [])) && Apply(g, s, RequestRoot).started == s.started + 1
  {
    BeginRootKeepsInv(g, s);
    EventKeeps(g, s, RequestRoot);
    assert OnlyAsking(g, Begin(g, s, RequestRoot));
    var P := (c: Config) => OnlyAsking(g, c);
    hide OnlyAsking, Step;
    forall c {:trigger Step(g, c)} | Proper(g, c) && P(c) && c.todo != [] ensures P(Step(g, c)) {
      StepOnlyAsks(g, c);
    }
    EventBySteps(g, P, s, RequestRoot);
  }

  lemma {:induction false} RequestRoots(g: Graph, k: nat) returns (es: seq<Event>, s: State)
    requires WellFormed(g) && k <= |g.roots|
    ensures Run(g, Init(g), es, s) && OnlyAsking(g, Config(s, [])) && s.started == k
  {
    if k == 0 {
      InitInv(g);
      es, s := [], Init(g);
    } else {
      var s0;
      es, s0 := RequestRoots(g, k - 1);
      RequestOnlyAsks(g, s0);
      s := Apply(g, s0, RequestRoot);
      assert Run(g, s, [], s);
      assert [RequestRoot][1..] == [];
      assert Run(g, s0, [RequestRoot], s);
      RunJoins(g, Init(g), es, s0, [RequestRoot], s);
      es := es + [RequestRoot];
    }
  }

  /** A node that only the start node asks is not touched before its turn, and never told off. */
  ghost predicate RootOnlyInv(g: Graph, c: Config, p: nat)
    requires WellFormed(g) && p < |g.nodes|
  {
    && Inv(g, c) && c.now.nodes[p].willNotRun == 0
    && (!c.now.nodes[p].run.Idle? ==> p in g.roots[..c.now.started])
    && (forall j :: 0 <= j < |c.todo| && c.todo[j].Ask? && c.todo[j].who.Start? ==>
          c.todo[j].want && c.todo[j].node in g.roots[..c.now.started])
  }

  lemma StepKeepsRootOnly(g: Graph, c: Config, p: nat)
    requires WellFormed(g) && p < |g.nodes| && g.nodes[p].requestors == [Start] && RootOnlyInv(g, c, p) && c.todo != []
    ensures RootOnlyInv(g, Step(g, c), p)
  {
    var c' := Step(g, c);
    StepKeepsInv(g, c);
    assert TaskOk(g, c.now, c.todo[0]) && InRange(g, c.todo[0]);
    if c.todo[0].Ask? {
      AskEffect(g, c);
      NoNewStarts(g, c, Passed(g, c.now, c.todo[0].node, c.todo[0].want));
    } else if c.todo[0].next < |g.nodes[c.todo[0].node].requestors| {
      TellEffect(g, c);
      TellTodo(g, c);
      NoNewStarts(g, c, Next(g, c));
    } else {
      assert c'.todo == [] + c.todo[1..];
      NoNewStarts(g, c, []);
    }
  }

  lemma NoNewStarts(g: Graph, c: Config, ts: seq<Todo>)
    requires c.now.started <= |g.roots|
    requires c.todo != [] && forall j :: 0 <= j < |ts| && ts[j].Ask? ==> ts[j].who.Parent?
    requires forall j :: 0 <= j < |c.todo| && c.todo[j].Ask? && c.todo[j].who.Start? ==>
               c.todo[j].want && c.todo[j].node in g.roots[..c.now.started]
    ensures forall j :: 0 <= j < |ts + c.todo[1..]| && (ts + c.todo[1..])[j].Ask? && (ts + c.todo[1..])[j].who.Start? ==>
               (ts + c.todo[1..])[j].want && (ts + c.todo[1..])[j].node in g.roots[..c.now.started]
  {
    forall j | 0 <= j < |ts + c.todo[1..]| && (ts + c.todo[1..])[j].Ask? && (ts + c.todo[1..])[j].who.Start?
      ensures (ts + c.todo[1..])[j].want && (ts + c.todo[1..])[j].node in g.roots[..c.now.started]
    {
      assert (ts + c.todo[1..])[j] == c.todo[1 + j - |ts|];
    }
  }

  lemma BeginKeepsRootOnly(g: Graph, s: State, e: Event, p: nat)
    requires WellFormed(g) && p < |g.nodes| && RootOnlyInv(g, Config(s, []), p) && Enabled(g, s, e)
    ensures RootOnlyInv(g, Begin(g, s, e), p)
  {
    assert Inv(g, Begin(g, s, e)) by { InvIsStable(g); }
    if e.RequestRoot? {
      assert g.roots[..s.started + 1] == g.roots[..s.started] + [g.roots[s.started]];
    } else {
      assert NodeInv(g, Config(s, []), e.leaf);
    }
  }

  lemma ReachableRootOnly(g: Graph, s: State, p: nat)
    requires WellFormed(g) && p < |g.nodes| && g.nodes[p].requestors == [Start] && Reachable(g, s)
    ensures RootOnlyInv(g, Config(s, []), p)
  {
    var es :| Run(g, Init(g), es, s);
    InitInv(g);
    var P := (c: Config) => RootOnlyInv(g, c, p);
    assert P(Config(Init(g), []));
    hide RootOnlyInv, Step, Begin;
    forall c {:trigger Step(g, c)} | Proper(g, c) && P(c) && c.todo != [] ensures P(Step(g, c)) {
      StepKeepsRootOnly(g, c, p);
    }
    forall s, e {:trigger Begin(g, s, e)} | Fits(g, s) && P(Config(s, [])) && Enabled(g, s, e) ensures P(Begin(g, s, e)) {
      BeginKeepsRootOnly(g, s, e, p);
    }
    RunBySteps(g, P, Init(g), es, s);
  }

  /** What has been heard stays heard. */
  lemma EarlyStays(g: Graph, s: State, es: seq<Event>, s': State, m: nat)
    requires WellFormed(g) && TwoChildren(g, m) && Inv(g, Config(s, [])) && LeftEarly(g, s, m) && Run(g, s, es, s')
    ensures Fits(g, s') && LeftEarly(g, s', m)
  {
    var P := (c: Config) => Inv(g, c) && LeftEarly(g, c.now, m);
    forall c {:trigger Step(g, c)} | Proper(g, c) && P(c) && c.todo != [] ensures P(Step(g, c)) {
      StepKeepsInv(g, c);
      assert TaskOk(g, c.now, c.todo[0]) && InRange(g, c.todo[0]);
      if c.todo[0].Ask? {
        AskEffect(g, c);
      } else if c.todo[0].next < |g.nodes[c.todo[0].node].requestors| {
        TellEffect(g, c);
      }
    }
    InvIsStable(g);
    RunBySteps(g, P, s, es, s');
  }

  /** The order of the roots decides: when the start node requests a leaf before the composite whose left child it is,
      and that composite has its right child to itself, there is a run to the end in which it never answers. */
  lemma RootAfterItsLeftChild(g: Graph, j: nat, k: nat) returns (es: seq<Event>, s: State)
    requires WellFormed(g) && j < k < |g.roots| && RightIsOwn(g, g.roots[k])
    requires g.nodes[g.roots[k]].shape.left == g.roots[j] && g.nodes[g.roots[j]].shape.Leaf?
    requires g.nodes[g.roots[k]].requestors == [Start] && g.roots[k] !in g.roots[..k]
    ensures Run(g, Init(g), es, s) && AtEnd(g, s)
    ensures Fits(g, s) && !s.nodes[g.roots[k]].run.Idle? && s.nodes[g.roots[k]].sent == []
  {
    var l, p := g.roots[j], g.roots[k];
    var es1, s1 := RequestRoots(g, k);
    assert RootInv(g, Config(s1, []), j) && NodeInv(g, Config(s1, []), l);
    assert Start in g.nodes[l].requestors;
    assert Pending(g, s1, l);
    var s2 := Apply(g, s1, LeafDecides(l));
    EventUsesUp(g, s1, LeafDecides(l));
    EventKeeps(g, s1, LeafDecides(l));
    assert Run(g, s2, [], s2);
    assert [LeafDecides(l)][1..] == [];
    assert Run(g, s1, [LeafDecides(l)], s2);
    RunJoins(g, Init(g), es1, s1, [LeafDecides(l)], s2);
    LeafWasEarly(g, s2, l, p, k);
    var es2;
    es2, s := RunCanEnd(g, s2);
    RunJoins(g, Init(g), es1 + [LeafDecides(l)], s2, es2, s);
    EarlyStays(g, s2, es2, s, p);
    es := es1 + [LeafDecides(l)] + es2;
    ReachableRootOnly(g, s, p);
    EarlyMeansSilent(g, s, p);
    assert RootInv(g, Config(s, []), k);
  }

  lemma LeafWasEarly(g: Graph, s: State, l: nat, p: nat, k: nat)
    requires WellFormed(g) && Reachable(g, s) && Fits(g, s) && TwoChildren(g, p) && g.nodes[p].shape.left == l
    requires s.nodes[l].sent != [] && k <= |g.roots| && s.started == k && p !in g.roots[..k] && g.nodes[p].requestors == [Start]
    ensures Inv(g, Config(s, [])) && LeftEarly(g, s, p)
  {
    ReachableRootOnly(g, s, p);
    assert NodeInv(g, Config(s, []), p) && NodeInv(g, Config(s, []), l);
    assert s.nodes[l].told == |g.nodes[l].requestors|;
    assert Calls(g.nodes[l].requestors, p, |g.nodes[l].requestors|) == Times(g.nodes[p].shape, l);
  }
}
