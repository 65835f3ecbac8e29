/**
  What a decision means, on any graph, with any sharing of nodes, in any order of the leaves' decisions: what a node
  sends follows from what its children have sent, except when one node is both children of an And.
 */
module DecisionSoundness {
  import opened DecisionGraph
  import opened DecisionSteps
  import opened DecisionCallbacks

  // ----- What a composite sends, given its children -----

  /** Decisions that one child can make for the composite. */
  predicate Settles(x: Shape, d: Status) {
    d.Exception? || (x.And? && d.Skip?) || (x.Or? && d.Go?)
  }

  /** What the decisions of both children amount to. */
  function Combined(x: Shape, left: Status, right: Status): Status {
    if left.Exception? || right.Exception? then Exception
    else if x.And? then if left.Go? && right.Go? then Go else Skip
    else if left.Go? || right.Go? then Go else Skip
  }

  /** What a composite sends, by who has called it and where it was at each callback, given what its children have sent.
      When one node is both children, both callbacks count as its left child's and the right one stays undecided. */
  function Answer(x: Shape, left: Status, right: Status, heard: seq<Callback>): seq<Status>
    requires !x.Leaf?
  {
    var first := if |heard| >= 1 && heard[0].from != x.left then right else left;
    if |heard| >= 1 && heard[0].at.InProgress? && Settles(x, first) then [first]
    else if |heard| >= 2 && heard[1].at.InProgress? then [Combined(x, left, right)]
    else []
  }

  function RightSaid(s: State, x: Shape): Status
    requires !x.Leaf? && x.left < |s.nodes| && x.right < |s.nodes|
  {
    if x.left == x.right then NotStarted else Said(s, x.right)
  }

  ghost predicate SaidOk(g: Graph, s: State, m: nat)
    requires WellFormed(g) && Fits(g, s) && m < |g.nodes|
  {
    var x, y := g.nodes[m].shape, s.nodes[m];
    if x.Leaf? then y.sent == [] || y.sent == [x.verdict]
    else
      && y.sent == Answer(x, Said(s, x.left), RightSaid(s, x), y.heard)
      && (|y.heard| > 0 ==> (y.heard[0].from == x.left || y.heard[0].from == x.right) && Heard(g, s, y.heard[0].from, m) > 0)
  }

  ghost predicate SoundInv(g: Graph, c: Config)
    requires WellFormed(g)
  {
    Inv(g, c) && forall m :: 0 <= m < |g.nodes| ==> SaidOk(g, c.now, m)
  }

  lemma StepKeepsSaid(g: Graph, c: Config, m: nat)
    requires WellFormed(g) && Inv(g, c) && c.todo != [] && m < |g.nodes|
    ensures c.now.nodes[m].sent != [] ==> Step(g, c).now.nodes[m].sent == c.now.nodes[m].sent
  {
    if c.todo[0].Ask? {
      AskEffect(g, c);
    } else if c.todo[0].next < |g.nodes[c.todo[0].node].requestors| {
      TellEffect(g, c);
      assert NodeInv(g, c, m);
    }
  }

  lemma StepKeepsHeard(g: Graph, c: Config, a: nat, m: nat)
    requires WellFormed(g) && Inv(g, c) && c.todo != [] && a < |g.nodes|
    ensures Heard(g, c.now, a, m) > 0 ==> Heard(g, Step(g, c).now, a, m) > 0
  {
    assert TaskOk(g, c.now, c.todo[0]) && InRange(g, c.todo[0]);
    if c.todo[0].Ask? {
      AskEffect(g, c);
      assert Step(g, c).now.nodes[a].told == c.now.nodes[a].told;
    } else if c.todo[0].next < |g.nodes[c.todo[0].node].requestors| {
      TellHeard(g, c, a, m);
    }
  }

  /** Who has called has sent. */
  lemma CallersHaveSent(g: Graph, c: Config, m: nat)
    requires WellFormed(g) && Inv(g, c) && m < |g.nodes| && !g.nodes[m].shape.Leaf?
    ensures var x, heard := g.nodes[m].shape, c.now.nodes[m].heard;
            && (Heard(g, c.now, x.left, m) > 0 ==> c.now.nodes[x.left].sent != [])
            && (Heard(g, c.now, x.right, m) > 0 ==> c.now.nodes[x.right].sent != [])
            && (|heard| >= 2 ==> Heard(g, c.now, x.left, m) > 0 && Heard(g, c.now, x.right, m) > 0)
  {
    var x := g.nodes[m].shape;
    assert NodeInv(g, c, m) && NodeInv(g, c, x.left) && NodeInv(g, c, x.right);
    HeardAtMost(g, c.now, x.left, m);
    HeardAtMost(g, c.now, x.right, m);
  }

  /** A node that neither hears nor sends. */
  lemma OthersStaySound(g: Graph, c: Config, m: nat)
    requires WellFormed(g) && SoundInv(g, c) && c.todo != [] && m < |g.nodes|
    requires Step(g, c).now.nodes[m].sent == c.now.nodes[m].sent && Step(g, c).now.nodes[m].heard == c.now.nodes[m].heard
    ensures SaidOk(g, Step(g, c).now, m)
  {
    var x := g.nodes[m].shape;
    assert SaidOk(g, c.now, m);
    if !x.Leaf? {
      assert x.left < m && x.right < m;
      CallersHaveSent(g, c, m);
      StepKeepsSaid(g, c, x.left);
      StepKeepsSaid(g, c, x.right);
      StepKeepsHeard(g, c, x.left, m);
      StepKeepsHeard(g, c, x.right, m);
      hide Step, Inv, WellFormed, Heard;
    }
  }

  /** One more callback: a composite in progress may decide. */
  lemma OneMoreAnswer(x: Shape, y: NodeState, n: nat, heard: seq<Callback>, at: RunStatus, left: Status, right: Status)
    requires !x.Leaf? && (n == x.left || n == x.right) && |heard| <= 1 && y.count == |heard| + 1
    requires |heard| == 0 ==> (if n == x.left then y.left == left else y.right == right)
    requires |heard| == 1 ==> y.left == left && y.right == right
    requires at.InProgress? ==> y.run.InProgress? && Answer(x, left, right, heard) == []
    requires !at.InProgress? ==> !y.run.InProgress?
    ensures var d := Reply(x, y, n);
            Answer(x, left, right, heard + [Callback(n, at)]) == Answer(x, left, right, heard) + if d == NotStarted then [] else [d]
  {
  }

  lemma CalleeAnswers(g: Graph, c: Config, p: nat)
    requires WellFormed(g) && SoundInv(g, c) && AtTell(g, c) && p < |g.nodes| && Callee(g, c) == Parent(p)
    requires !g.nodes[p].shape.Leaf?
    ensures var x, c' := g.nodes[p].shape, Step(g, c);
            c'.now.nodes[p].sent == Answer(x, Said(c'.now, x.left), RightSaid(c'.now, x), c'.now.nodes[p].heard)
  {
    var x, n, c', z := g.nodes[p].shape, c.todo[0].node, Step(g, c), c.now.nodes[p];
    var y := Noted(g, z, p, n, c.todo[0].decision);
    TellEffect(g, c);
    CalleeIsParent(g, c);
    StepKeepsInv(g, c);
    TellHeard(g, c, n, p);
    HeardAtMost(g, c'.now, x.left, p);
    HeardAtMost(g, c'.now, x.right, p);
    assert NodeInv(g, c, p) && NodeInv(g, c', p) && SaidOk(g, c.now, p);
    assert Said(c'.now, x.left) == Said(c.now, x.left) && Said(c'.now, x.right) == Said(c.now, x.right);
    hide Step, WellFormed, Inv, SoundInv, Heard, Answer, Reply, Said;
    OneMoreAnswer(x, y, n, z.heard, z.run, Said(c'.now, x.left), RightSaid(c'.now, x));
  }

  /** A composite is called back. */
  lemma CalleeStaysSound(g: Graph, c: Config, p: nat)
    requires WellFormed(g) && SoundInv(g, c) && AtTell(g, c) && p < |g.nodes| && Callee(g, c) == Parent(p)
    requires !g.nodes[p].shape.Leaf?
    ensures SaidOk(g, Step(g, c).now, p)
  {
    CalleeAnswers(g, c, p);
    TellEffect(g, c);
    CalleeIsParent(g, c);
    TellHeard(g, c, c.todo[0].node, p);
    assert SaidOk(g, c.now, p);
    if |c.now.nodes[p].heard| > 0 {
      StepKeepsHeard(g, c, c.now.nodes[p].heard[0].from, p);
    }
    hide Step, WellFormed, Inv, Heard, Answer, Reply, Said;
  }

  lemma StepKeepsSound(g: Graph, c: Config)
    requires WellFormed(g) && SoundInv(g, c) && c.todo != []
    ensures SoundInv(g, Step(g, c))
  {
    StepKeepsInv(g, c);
    forall m | 0 <= m < |g.nodes| ensures SaidOk(g, Step(g, c).now, m) {
      StepAtNode(g, c, m);
    }
  }

  lemma StepAtNode(g: Graph, c: Config, m: nat)
    requires WellFormed(g) && SoundInv(g, c) && c.todo != [] && m < |g.nodes|
    ensures SaidOk(g, Step(g, c).now, m)
  {
    assert TaskOk(g, c.now, c.todo[0]) && InRange(g, c.todo[0]);
    if c.todo[0].Ask? {
      AskEffect(g, c);
      OthersStaySound(g, c, m);
    } else if c.todo[0].next == |g.nodes[c.todo[0].node].requestors| {
      OthersStaySound(g, c, m);
    } else {
      TellEffect(g, c);
      hide Step, WellFormed, Inv, SaidOk;
      if Callee(g, c) != Parent(m) {
        OthersStaySound(g, c, m);
      } else {
        CalleeStaysSound(g, c, m);
      }
    }
  }

  lemma BeginKeepsSoundAt(g: Graph, s: State, e: Event, m: nat)
    requires WellFormed(g) && Fits(g, s) && SoundInv(g, Config(s, [])) && Enabled(g, s, e) && m < |g.nodes|
    ensures SaidOk(g, Begin(g, s, e).now, m)
  {
    var s', x := Begin(g, s, e).now, g.nodes[m].shape;
    assert SaidOk(g, s, m) && NodeInv(g, Config(s, []), m);
    if e.LeafDecides? {
      assert NodeInv(g, Config(s, []), e.leaf);
    }
    if !x.Leaf? {
      CallersHaveSent(g, Config(s, []), m);
      assert forall a :: 0 <= a < |g.nodes| ==> Heard(g, s', a, m) == Heard(g, s, a, m);
      hide WellFormed, Inv, Heard;
    }
  }

  lemma BeginKeepsSound(g: Graph, s: State, e: Event)
    requires WellFormed(g) && Fits(g, s) && SoundInv(g, Config(s, [])) && Enabled(g, s, e)
    ensures SoundInv(g, Begin(g, s, e))
  {
    assert Inv(g, Begin(g, s, e)) by { InvIsStable(g); }
    forall m | 0 <= m < |g.nodes| ensures SaidOk(g, Begin(g, s, e).now, m) {
      BeginKeepsSoundAt(g, s, e, m);
    }
  }

  lemma ReachableIsSound(g: Graph, s: State)
    requires WellFormed(g) && Reachable(g, s)
    ensures SoundInv(g, Config(s, []))
  {
    var es :| Run(g, Init(g), es, s);
    assert SoundInv(g, Config(Init(g), [])) by { InitInv(g); }
    hide SoundInv, Step, Begin;
    var P := (c: Config) => SoundInv(g, c);
    forall c {:trigger Step(g, c)} | Proper(g, c) && P(c) && c.todo != [] ensures P(Step(g, c)) {
      StepKeepsSound(g, c);
    }
    forall s, e {:trigger Begin(g, s, e)} | Fits(g, s) && P(Config(s, [])) && Enabled(g, s, e) ensures P(Begin(g, s, e)) {
      BeginKeepsSound(g, s, e);
    }
    RunBySteps(g, P, Init(g), es, s);
  }

  /** Exactly what a node sends: a leaf its decision, and a composite what the callbacks it has had and the decisions of
      its children amount to, failures included.  It has had one callback from each child that called. */
  lemma DecisionsAreAnswers(g: Graph, s: State, n: nat)
    requires WellFormed(g) && Reachable(g, s) && n < |g.nodes|
    ensures Fits(g, s)
    ensures var x, y := g.nodes[n].shape, s.nodes[n];
            if x.Leaf? then y.sent == [] || y.sent == [x.verdict]
            else
              && y.sent == Answer(x, Said(s, x.left), if x.left == x.right then NotStarted else Said(s, x.right), y.heard)
              && |y.heard| == Heard(g, s, x.left, n) + (if x.left == x.right then 0 else Heard(g, s, x.right, n)) <= 2
              && (|y.heard| > 0 ==> (y.heard[0].from == x.left || y.heard[0].from == x.right)
                                    && s.nodes[y.heard[0].from].sent != [])
              && (|y.heard| == 2 ==> s.nodes[x.left].sent != [] && s.nodes[x.right].sent != [])
  {
    ReachableIsSound(g, s);
    assert SaidOk(g, s, n) && NodeInv(g, Config(s, []), n);
    var x := g.nodes[n].shape;
    if !x.Leaf? {
      CallersHaveSent(g, Config(s, []), n);
      HeardAtMost(g, s, x.left, n);
      HeardAtMost(g, s, x.right, n);
    }
  }

  /** Nothing sent is undecided. */
  lemma {:induction false} SaidIsDecision(g: Graph, s: State, n: nat)
    requires WellFormed(g) && Reachable(g, s) && Fits(g, s) && n < |g.nodes| && s.nodes[n].sent != []
    ensures s.nodes[n].sent == [Said(s, n)] && Said(s, n) != NotStarted
  {
    DecisionsAreAnswers(g, s, n);
  }

  /** A composite with two children: why it may send d. */
  predicate Follows(x: Shape, d: Status, left: Status, right: Status)
    requires !x.Leaf?
  {
    match d
    case Exception => left.Exception? || right.Exception?
    case Go => if x.And? then left.Go? && right.Go? else left.Go? || right.Go?
    case Skip => if x.And? then left.Skip? || right.Skip? else left.Skip? && right.Skip?
    case NotStarted => false
  }

  /** So every decision follows from those of the node's children, whichever way it was made. */
  lemma DecisionsFollow(g: Graph, s: State, n: nat)
    requires WellFormed(g) && Reachable(g, s) && n < |g.nodes|
    ensures Fits(g, s)
    ensures s.nodes[n].sent == [] || s.nodes[n].sent == [Said(s, n)]
    ensures var x := g.nodes[n].shape;
            s.nodes[n].sent != [] ==>
              if x.Leaf? then Said(s, n) == x.verdict
              else x.left != x.right ==> Follows(x, Said(s, n), Said(s, x.left), Said(s, x.right))
  {
    DecisionsAreAnswers(g, s, n);
    var x := g.nodes[n].shape;
    if !x.Leaf? {
      if s.nodes[x.left].sent != [] { SaidIsDecision(g, s, x.left); }
      if s.nodes[x.right].sent != [] { SaidIsDecision(g, s, x.right); }
      hide WellFormed, Reachable, Heard;
    }
  }

  /** When the two children are one node: a decision other than GO is passed on if it is passed on at all; GO makes an
      And send SKIP exactly if it is in progress at the second callback, and otherwise nothing. */
  lemma OneNodeTwice(g: Graph, s: State, n: nat)
    requires WellFormed(g) && Reachable(g, s) && n < |g.nodes| && !g.nodes[n].shape.Leaf?
    requires g.nodes[n].shape.left == g.nodes[n].shape.right
    ensures Fits(g, s)
    ensures var x, d, sent, heard := g.nodes[n].shape, Said(s, g.nodes[n].shape.left), s.nodes[n].sent, s.nodes[n].heard;
            && |heard| == Heard(g, s, x.left, n) <= 2
            && (x.Or? || d != Go ==> sent == [] || (sent == [d] && d != NotStarted))
            && (x.And? && d == Go ==> sent == if |heard| == 2 && heard[1].at.InProgress? then [Skip] else [])
  {
    DecisionsAreAnswers(g, s, n);
    var x := g.nodes[n].shape;
    if s.nodes[x.left].sent != [] { SaidIsDecision(g, s, x.left); }
  }

  // ----- Decisions without failures -----

  ghost predicate NoExceptions(g: Graph) {
    forall n :: 0 <= n < |g.nodes| && g.nodes[n].shape.Leaf? ==>
      g.nodes[n].shape.verdict.Go? || g.nodes[n].shape.verdict.Skip?
  }

  /** The boolean meaning of a node. */
  function Meaning(g: Graph, n: nat): Status
    requires WellFormed(g) && n < |g.nodes|
  {
    match g.nodes[n].shape
    case Leaf(v) => v
    case And(l, r) => if Meaning(g, l).Go? && Meaning(g, r).Go? then Go else Skip
    case Or(l, r) => if Meaning(g, l).Go? || Meaning(g, r).Go? then Go else Skip
  }

  /** An And was in progress when one node, as both its children, said GO for the second time. */
  predicate Misheard(g: Graph, s: State, n: nat)
    requires WellFormed(g) && Fits(g, s) && n < |g.nodes|
  {
    var x, heard := g.nodes[n].shape, s.nodes[n].heard;
    x.And? && x.left == x.right && Said(s, x.left) == Go && |heard| == 2 && heard[1].at.InProgress?
  }

  /** Unless an And has misheard, by whichever route a node gets there it decides for its meaning. */
  lemma {:induction false} SentIsMeaning(g: Graph, s: State, n: nat)
    requires WellFormed(g) && NoExceptions(g) && Reachable(g, s) && Fits(g, s) && n < |g.nodes|
    requires forall m :: 0 <= m < |g.nodes| ==> !Misheard(g, s, m)
    ensures s.nodes[n].sent == [] || s.nodes[n].sent == [Meaning(g, n)]
    ensures Meaning(g, n).Go? || Meaning(g, n).Skip?
  {
    DecisionsFollow(g, s, n);
    var x := g.nodes[n].shape;
    if !x.Leaf? {
      SentIsMeaning(g, s, x.left);
      SentIsMeaning(g, s, x.right);
      if x.left == x.right {
        OneNodeTwice(g, s, n);
        assert !Misheard(g, s, n);
      }
    }
  }

  /** Exactly which runs are right: every decision sent is the boolean meaning of its node if and only if no And has
      misheard. */
  lemma RightIffNothingMisheard(g: Graph, s: State)
    requires WellFormed(g) && NoExceptions(g) && Reachable(g, s)
    ensures Fits(g, s)
    ensures (forall n :: 0 <= n < |g.nodes| ==> s.nodes[n].sent == [] || s.nodes[n].sent == [Meaning(g, n)])
            <==> (forall n :: 0 <= n < |g.nodes| ==> !Misheard(g, s, n))
  {
    ReachableInv(g, s);
    if forall n :: 0 <= n < |g.nodes| ==> !Misheard(g, s, n) {
      forall n | 0 <= n < |g.nodes| ensures s.nodes[n].sent == [] || s.nodes[n].sent == [Meaning(g, n)] {
        SentIsMeaning(g, s, n);
      }
    } else {
      var n :| 0 <= n < |g.nodes| && Misheard(g, s, n);
      OneNodeTwice(g, s, n);
      var x := g.nodes[n].shape.left;
      assert s.nodes[n].sent == [Skip] && s.nodes[x].sent != [];
      if s.nodes[x].sent == [Meaning(g, x)] {
        assert Meaning(g, n) == Go;
      }
    }
  }

  /** No And has the same node as both children. */
  ghost predicate AndsHaveTwoChildren(g: Graph) {
    forall n :: 0 <= n < |g.nodes| && g.nodes[n].shape.And? ==> g.nodes[n].shape.left != g.nodes[n].shape.right
  }

  /** Where no And has one node as both children, all runs are right. */
  lemma DecisionsAreMeanings(g: Graph, s: State, n: nat)
    requires WellFormed(g) && NoExceptions(g) && AndsHaveTwoChildren(g) && Reachable(g, s) && n < |g.nodes|
    ensures Fits(g, s)
    ensures s.nodes[n].sent == [] || s.nodes[n].sent == [Meaning(g, n)]
  {
    ReachableInv(g, s);
    SentIsMeaning(g, s, n);
  }

  /** What a node decides if it decides. */
  function Verdict(g: Graph, n: nat): Status
    requires WellFormed(g) && n < |g.nodes|
  {
    match g.nodes[n].shape
    case Leaf(v) => v
    case And(l, r) => if l != r && Verdict(g, l).Go? && Verdict(g, r).Go? then Go else Skip
    case Or(l, r) => if Verdict(g, l).Go? || Verdict(g, r).Go? then Go else Skip
  }

  lemma {:induction false} DecisionsAreVerdicts(g: Graph, s: State, n: nat)
    requires WellFormed(g) && NoExceptions(g) && Reachable(g, s) && n < |g.nodes|
    ensures Fits(g, s)
    ensures s.nodes[n].sent == [] || s.nodes[n].sent == [Verdict(g, n)]
    ensures Verdict(g, n).Go? || Verdict(g, n).Skip?
  {
    DecisionsFollow(g, s, n);
    var x := g.nodes[n].shape;
    if !x.Leaf? {
      DecisionsAreVerdicts(g, s, x.left);
      DecisionsAreVerdicts(g, s, x.right);
      if x.left == x.right {
        OneNodeTwice(g, s, n);
      }
    }
  }

  /** Without failures the order of events can decide whether a node answers, but never what. */
  lemma DecisionsNeverDiffer(g: Graph, s: State, s': State, n: nat)
    requires WellFormed(g) && NoExceptions(g) && Reachable(g, s) && Reachable(g, s') && n < |g.nodes|
    ensures Fits(g, s) && Fits(g, s')
    ensures s.nodes[n].sent != [] && s'.nodes[n].sent != [] ==> s.nodes[n].sent == s'.nodes[n].sent
  {
    DecisionsAreVerdicts(g, s, n);
    DecisionsAreVerdicts(g, s', n);
  }
}
