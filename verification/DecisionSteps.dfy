/**
  The callbacks of decision nodes one call at a time.  The nested calls become a stack of calls still to be made, and
  what every single step keeps is kept by whole events and whole runs.
 */
module DecisionSteps {
  import opened DecisionGraph

  /** A request still to be made, or the rest of a loop over requestors. */
  datatype Todo =
    | Ask(who: Requestor, node: nat, want: bool)
    | Tell(node: nat, decision: Status, next: nat)

  /** The first of the calls to be made is the innermost. */
  datatype Config = Config(now: State, todo: seq<Todo>)

  predicate InRange(g: Graph, t: Todo) {
    t.node < |g.nodes| && (t.Tell? ==> t.next <= |g.nodes[t.node].requestors|)
  }

  predicate Proper(g: Graph, c: Config) {
    Fits(g, c.now) && forall j :: 0 <= j < |c.todo| ==> InRange(g, c.todo[j])
  }

  // ----- A request -----

  function Asked(g: Graph, s: State, n: nat, want: bool): (s': State)
    requires Fits(g, s) && n < |g.nodes|
    ensures Fits(g, s')
  {
    var x, leaf := s.nodes[n].(received := s.nodes[n].received + [want]), g.nodes[n].shape.Leaf?;
    Set(s, n,
        if x.run != Idle then x
        else if want then x.(run := if leaf then ShouldRun else InProgress)
        else if x.willNotRun + 1 == |g.nodes[n].requestors| then
          x.(willNotRun := x.willNotRun + 1, run := if leaf then WillNotRun else InProgress)
        else x.(willNotRun := x.willNotRun + 1))
  }

  function Passed(g: Graph, s: State, n: nat, want: bool): (ts: seq<Todo>)
    requires WellFormed(g) && Fits(g, s) && n < |g.nodes|
    ensures forall j :: 0 <= j < |ts| ==> InRange(g, ts[j])
  {
    var x, shape := s.nodes[n], g.nodes[n].shape;
    if x.run != Idle || shape.Leaf? then []
    else if want then [Ask(Parent(n), shape.left, true)]
    else if x.willNotRun + 1 == |g.nodes[n].requestors| then
      [Ask(Parent(n), shape.left, false), Ask(Parent(n), shape.right, false)]
    else []
  }

  // ----- A callback -----

  /** What a composite, just called back by n, decides; NotStarted if it does not decide now. */
  function Reply(x: Shape, y: NodeState, n: nat): Status
    requires !x.Leaf?
  {
    if y.run != InProgress then NotStarted
    else if y.count == 2 then FullDecision(x, y.left, y.right)
    else ShortCircuit(x, if x.left == n then y.left else y.right)
  }

  function Replied(g: Graph, s: State, p: nat, n: nat): (s': State)
    requires Fits(g, s) && p < |g.nodes| && !g.nodes[p].shape.Leaf?
    ensures Fits(g, s')
  {
    var d := Reply(g.nodes[p].shape, s.nodes[p], n);
    if d == NotStarted then s else Decide(s, p, d)
  }

  function Spread(g: Graph, s: State, p: nat, n: nat): (ts: seq<Todo>)
    requires WellFormed(g) && Fits(g, s) && p < |g.nodes| && !g.nodes[p].shape.Leaf?
    ensures forall j :: 0 <= j < |ts| ==> InRange(g, ts[j])
  {
    var x, y, d := g.nodes[p].shape, s.nodes[p], Reply(g.nodes[p].shape, s.nodes[p], n);
    if y.run != InProgress then []
    else if y.count == 2 then [Tell(p, d, 0)]
    else if x.left == n then
      if d != NotStarted then [Tell(p, d, 0), Ask(Parent(p), x.right, false)] else [Ask(Parent(p), x.right, true)]
    else if d != NotStarted then [Tell(p, d, 0)]
    else []
  }

  // ----- Steps -----

  function Step(g: Graph, c: Config): (c': Config)
    requires WellFormed(g) && Proper(g, c) && c.todo != []
    ensures Proper(g, c')
  {
    var s, rest := c.now, c.todo[1..];
    match c.todo[0]
    case Ask(_, n, want) => Config(Asked(g, s, n, want), Passed(g, s, n, want) + rest)
    case Tell(n, d, i) =>
      if i == |g.nodes[n].requestors| then Config(s, rest)
      else
        var s1 := Store(g, s, n, d, i);
        match g.nodes[n].requestors[i]
        case Start => Config(s1, [Tell(n, d, i + 1)] + rest)
        case Parent(p) => Config(Replied(g, s1, p, n), Spread(g, s1, p, n) + ([Tell(n, d, i + 1)] + rest))
  }

  /** Every step keeps P. */
  ghost predicate Stable(g: Graph, P: Config -> bool)
    requires WellFormed(g)
  {
    forall c {:trigger Step(g, c)} :: Proper(g, c) && P(c) && c.todo != [] ==> P(Step(g, c))
  }

  /** A request is what it does at its node followed by the requests it passes on. */
  lemma RequestPasses(g: Graph, s: State, n: nat, want: bool)
    requires WellFormed(g) && Fits(g, s) && n < |g.nodes|
    ensures var s1, ts, x := Asked(g, s, n, want), Passed(g, s, n, want), g.nodes[n].shape;
            && (ts == [] ==> Request(g, s, n, want) == s1)
            && (ts != [] ==> !x.Leaf?)
            && (ts != [] && want ==>
                  ts == [Ask(Parent(n), x.left, true)] && Request(g, s, n, want) == Request(g, s1, x.left, true))
            && (ts != [] && !want ==>
                  && ts == [Ask(Parent(n), x.left, false), Ask(Parent(n), x.right, false)]
                  && Request(g, s, n, want) == Request(g, Request(g, s1, x.left, false), x.right, false))
  {
    var x := s.nodes[n].(received := s.nodes[n].received + [want]);
    if x.run == Idle && !g.nodes[n].shape.Leaf? {
      if want {
        assert Set(Set(s, n, x.(run := ShouldRun)), n, x.(run := InProgress)) == Asked(g, s, n, want);
      } else if x.willNotRun + 1 == |g.nodes[n].requestors| {
        var x' := x.(willNotRun := x.willNotRun + 1);
        assert Set(Set(s, n, x'.(run := WillNotRun)), n, x'.(run := InProgress)) == Asked(g, s, n, want);
      }
    }
  }

  lemma FirstAsks(g: Graph, s: State, who: Requestor, n: nat, want: bool, rest: seq<Todo>)
    requires WellFormed(g) && Proper(g, Config(s, [Ask(who, n, want)] + rest))
    ensures Proper(g, Config(s, rest)) && n < |g.nodes|
    ensures Step(g, Config(s, [Ask(who, n, want)] + rest)) == Config(Asked(g, s, n, want), Passed(g, s, n, want) + rest)
  {
    var todo := [Ask(who, n, want)] + rest;
    assert todo[0] == Ask(who, n, want) && todo[1..] == rest;
    assert forall j :: 0 <= j < |rest| ==> rest[j] == todo[j + 1];
  }

  /** The nested calls of a request do what the steps do. */
  lemma {:induction false} RequestBySteps(g: Graph, P: Config -> bool, s: State, who: Requestor, n: nat, want: bool, rest: seq<Todo>)
    requires WellFormed(g) && Stable(g, P) && n < |g.nodes|
    requires Proper(g, Config(s, [Ask(who, n, want)] + rest)) && P(Config(s, [Ask(who, n, want)] + rest))
    ensures Proper(g, Config(Request(g, s, n, want), rest)) && P(Config(Request(g, s, n, want), rest))
    decreases n
  {
    var s1, ts, x := Asked(g, s, n, want), Passed(g, s, n, want), g.nodes[n].shape;
    FirstAsks(g, s, who, n, want, rest);
    assert P(Step(g, Config(s, [Ask(who, n, want)] + rest)));
    RequestPasses(g, s, n, want);
    hide Request, Asked, Passed, Step, Stable;
    if ts == [] {
      assert ts + rest == rest;
    } else if want {
      RequestBySteps(g, P, s1, Parent(n), x.left, true, rest);
    } else {
      assert ts + rest == [Ask(Parent(n), x.left, false)] + ([Ask(Parent(n), x.right, false)] + rest);
      RequestBySteps(g, P, s1, Parent(n), x.left, false, [Ask(Parent(n), x.right, false)] + rest);
      RequestBySteps(g, P, Request(g, s1, x.left, false), Parent(n), x.right, false, rest);
    }
  }

  /** So do the nested calls of a loop over the requestors. */
  lemma {:induction false} CallBackBySteps(g: Graph, P: Config -> bool, s: State, n: nat, d: Status, i: nat, rest: seq<Todo>)
    requires WellFormed(g) && Stable(g, P) && n < |g.nodes| && i <= |g.nodes[n].requestors|
    requires Proper(g, Config(s, [Tell(n, d, i)] + rest)) && P(Config(s, [Tell(n, d, i)] + rest))
    ensures Proper(g, Config(CallBack(g, s, n, d, i), rest)) && P(Config(CallBack(g, s, n, d, i), rest))
    decreases |g.nodes| - n, 0, |g.nodes[n].requestors| - i
  {
    var c := Config(s, [Tell(n, d, i)] + rest);
    var c1 := Step(g, c);
    assert P(c1);
    assert c.todo[1..] == rest;
    assert forall j :: 0 <= j < |rest| ==> rest[j] == c.todo[j + 1];
    if i < |g.nodes[n].requestors| {
      var s1, rest1 := Store(g, s, n, d, i), [Tell(n, d, i + 1)] + rest;
      match g.nodes[n].requestors[i] {
        case Start => CallBackBySteps(g, P, s1, n, d, i + 1, rest);
        case Parent(p) =>
          ReactBySteps(g, P, s1, p, n, rest1);
          CallBackBySteps(g, P, React(g, s1, p, n), n, d, i + 1, rest);
      }
    }
  }

  lemma {:induction false} ReactBySteps(g: Graph, P: Config -> bool, s: State, p: nat, n: nat, rest: seq<Todo>)
    requires WellFormed(g) && Stable(g, P) && p < |g.nodes| && !g.nodes[p].shape.Leaf?
    requires Proper(g, Config(s, rest))
    requires P(Config(Replied(g, s, p, n), Spread(g, s, p, n) + rest))
    ensures Proper(g, Config(React(g, s, p, n), rest)) && P(Config(React(g, s, p, n), rest))
    decreases |g.nodes| - p, 2, 0
  {
    var x, y, d := g.nodes[p].shape, s.nodes[p], Reply(g.nodes[p].shape, s.nodes[p], n);
    if y.run != InProgress {
      assert Spread(g, s, p, n) + rest == rest;
    } else if d != NotStarted {
      var s1 := Decide(s, p, d);
      if y.count != 2 && x.left == n {
        var rest1 := [Ask(Parent(p), x.right, false)] + rest;
        assert Spread(g, s, p, n) + rest == [Tell(p, d, 0)] + rest1;
        CallBackBySteps(g, P, s1, p, d, 0, rest1);
        RequestBySteps(g, P, Send(g, s, p, d), Parent(p), x.right, false, rest);
      } else {
        assert Spread(g, s, p, n) + rest == [Tell(p, d, 0)] + rest;
        CallBackBySteps(g, P, s1, p, d, 0, rest);
      }
    } else if x.left == n {
      assert Spread(g, s, p, n) + rest == [Ask(Parent(p), x.right, true)] + rest;
      RequestBySteps(g, P, s, Parent(p), x.right, true, rest);
    } else {
      assert Spread(g, s, p, n) + rest == rest;
    }
  }

  // ----- Events and runs -----

  /** An event with its first call still to be made. */
  function Begin(g: Graph, s: State, e: Event): (c: Config)
    requires WellFormed(g) && Fits(g, s) && Enabled(g, s, e)
    ensures Proper(g, c)
  {
    match e
    case RequestRoot => Config(s.(started := s.started + 1), [Ask(Start, g.roots[s.started], true)])
    case LeafDecides(n) => var d := g.nodes[n].shape.verdict; Config(Decide(s, n, d), [Tell(n, d, 0)])
  }

  /** Beginning an event keeps P. */
  ghost predicate StableAtBegin(g: Graph, P: Config -> bool)
    requires WellFormed(g)
  {
    forall s, e {:trigger Begin(g, s, e)} :: Fits(g, s) && P(Config(s, [])) && Enabled(g, s, e) ==> P(Begin(g, s, e))
  }

  lemma EventBySteps(g: Graph, P: Config -> bool, s: State, e: Event)
    requires WellFormed(g) && Fits(g, s) && Enabled(g, s, e) && Stable(g, P) && P(Begin(g, s, e))
    ensures P(Config(Apply(g, s, e), []))
  {
    var c := Begin(g, s, e);
    match e
    case RequestRoot =>
      assert c.todo == [Ask(Start, g.roots[s.started], true)] + [];
      RequestBySteps(g, P, c.now, Start, g.roots[s.started], true, []);
    case LeafDecides(n) =>
      assert c.todo == [Tell(n, g.nodes[n].shape.verdict, 0)] + [];
      CallBackBySteps(g, P, c.now, n, g.nodes[n].shape.verdict, 0, []);
  }

  /** What every step and every beginning keeps, every run keeps. */
  lemma {:induction false} RunBySteps(g: Graph, P: Config -> bool, s: State, es: seq<Event>, s': State)
    requires WellFormed(g) && Fits(g, s) && Stable(g, P) && StableAtBegin(g, P)
    requires P(Config(s, [])) && Run(g, s, es, s')
    ensures Fits(g, s') && P(Config(s', []))
    decreases |es|
  {
    if es != [] {
      assert P(Begin(g, s, es[0]));
      EventBySteps(g, P, s, es[0]);
      RunBySteps(g, P, Apply(g, s, es[0]), es[1..], s');
    }
  }
}
