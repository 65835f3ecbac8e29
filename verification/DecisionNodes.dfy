/**
  The decision nodes as they are written: node objects whose fields the callbacks update in place, here one object with
  the states of all nodes.  Each method does to the fields what the function of the same name says.
 */
module DecisionNodes {
  import opened DecisionGraph

  /** decisionFromNodeAsync at the composite p, called by its child n. */
  function Hear(g: Graph, s: State, p: nat, n: nat, d: Status): State
    requires WellFormed(g) && Fits(g, s) && p < |g.nodes| && !g.nodes[p].shape.Leaf?
  {
    var x := s.nodes[p].(count := s.nodes[p].count + 1, heard := s.nodes[p].heard + [Callback(n, s.nodes[p].run)]);
    React(g, Set(s, p, if g.nodes[p].shape.left == n then x.(left := d) else x.(right := d)), p, n)
  }

  /** One turn of the loop over the requestors. */
  function CallOne(g: Graph, s: State, n: nat, d: Status, i: nat): State
    requires WellFormed(g) && Fits(g, s) && n < |g.nodes| && i < |g.nodes[n].requestors|
  {
    var s1 := Set(s, n, s.nodes[n].(told := i + 1));
    match g.nodes[n].requestors[i]
    case Start => s1.(finished := s1.finished + 1)
    case Parent(p) => Hear(g, s1, p, n, d)
  }

  lemma CallBackOnce(g: Graph, s: State, n: nat, d: Status, i: nat)
    requires WellFormed(g) && Fits(g, s) && n < |g.nodes| && i < |g.nodes[n].requestors|
    ensures Fits(g, CallOne(g, s, n, d, i))
    ensures CallBack(g, s, n, d, i) == CallBack(g, CallOne(g, s, n, d, i), n, d, i + 1)
  {
  }

  lemma RequestorIsAbove(g: Graph, n: nat, i: nat)
    requires WellFormed(g) && n < |g.nodes| && i < |g.nodes[n].requestors| && g.nodes[n].requestors[i].Parent?
    ensures var p := g.nodes[n].requestors[i].node; n < p < |g.nodes| && !g.nodes[p].shape.Leaf?
  {
  }

  lemma CallBackEnds(g: Graph, s: State, n: nat, d: Status)
    requires WellFormed(g) && Fits(g, s) && n < |g.nodes|
    ensures CallBack(g, s, n, d, |g.nodes[n].requestors|) == s
  {
  }

  class Nodes {
    const g: Graph
    var nodes: seq<NodeState>
    var finishedLeafNodes: nat
    var started: nat

    predicate Valid()
      reads this
    {
      |nodes| == |g.nodes|
    }

    function Now(): State
      reads this
    {
      State(nodes, finishedLeafNodes, started)
    }

    constructor (g: Graph)
      ensures this.g == g && Valid() && Now() == Init(g)
    {
      this.g := g;
      nodes := seq(|g.nodes|, i => FRESH);
      finishedLeafNodes, started := 0, 0;
    }

    method RequestDecisionAsync(n: nat, want: bool)
      requires WellFormed(g) && Valid() && n < |g.nodes|
      modifies this
      ensures Valid() && Now() == Request(g, old(Now()), n, want)
      decreases n
    {
      ghost var s, x := Now(), nodes[n].(received := nodes[n].received + [want]);
      nodes := nodes[n := nodes[n].(received := nodes[n].received + [want])];
      assert Now() == Set(s, n, x);
      if nodes[n].run == Idle {
        if want {
          nodes := nodes[n := nodes[n].(run := ShouldRun)];
          assert Now() == Set(s, n, x.(run := ShouldRun));
          MakeDecisionAsync(n, true);
        } else {
          nodes := nodes[n := nodes[n].(willNotRun := nodes[n].willNotRun + 1)];
          assert Now() == Set(s, n, x.(willNotRun := x.willNotRun + 1));
          if nodes[n].willNotRun == |g.nodes[n].requestors| {
            nodes := nodes[n := nodes[n].(run := WillNotRun)];
            assert Now() == Set(s, n, x.(willNotRun := x.willNotRun + 1, run := WillNotRun));
            MakeDecisionAsync(n, false);
          }
        }
      }
    }

    method MakeDecisionAsync(n: nat, want: bool)
      requires WellFormed(g) && Valid() && n < |g.nodes|
      modifies this
      ensures Valid() && Now() == MakeDecision(g, old(Now()), n, want)
      decreases n, 0
    {
      var shape := g.nodes[n].shape;
      if !shape.Leaf? {
        nodes := nodes[n := nodes[n].(run := InProgress)];
        RequestDecisionAsync(shape.left, want);
        if !want {
          RequestDecisionAsync(shape.right, false);
        }
      }
    }

    method SendDecisionToRequestorsAsync(n: nat, decision: Status)
      requires WellFormed(g) && Valid() && n < |g.nodes|
      modifies this
      ensures Valid() && Now() == Send(g, old(Now()), n, decision)
      decreases |g.nodes| - n, 0
    {
      hide WellFormed, CallBack;
      if nodes[n].run != WillNotRun {
        nodes := nodes[n := nodes[n].(run := Completed)];
      }
      nodes := nodes[n := nodes[n].(sent := nodes[n].sent + [decision])];
      ghost var decided := Now();
      assert decided == Decide(old(Now()), n, decision);
      var i := 0;
      while i < |g.nodes[n].requestors|
        invariant 0 <= i <= |g.nodes[n].requestors| && Valid()
        invariant CallBack(g, decided, n, decision, 0) == CallBack(g, Now(), n, decision, i)
      {
        ghost var s := Now();
        CallBackOnce(g, s, n, decision, i);
        nodes := nodes[n := nodes[n].(told := i + 1)];
        assert Now() == Set(s, n, s.nodes[n].(told := i + 1));
        match g.nodes[n].requestors[i] {
          case Start => finishedLeafNodes := finishedLeafNodes + 1;
          case Parent(p) =>
            RequestorIsAbove(g, n, i);
            DecisionFromNodeAsync(p, n, decision);
        }
        assert Now() == CallOne(g, s, n, decision, i);
        i := i + 1;
      }
      CallBackEnds(g, Now(), n, decision);
    }

    method DecisionFromNodeAsync(p: nat, n: nat, decision: Status)
      requires WellFormed(g) && Valid() && n < p < |g.nodes| && !g.nodes[p].shape.Leaf?
      modifies this
      ensures Valid() && Now() == Hear(g, old(Now()), p, n, decision)
      decreases |g.nodes| - p, 1
    {
      var shape := g.nodes[p].shape;
      ghost var s := Now();
      ghost var x := nodes[p].(count := nodes[p].count + 1, heard := nodes[p].heard + [Callback(n, nodes[p].run)]);
      nodes := nodes[p := nodes[p].(count := nodes[p].count + 1, heard := nodes[p].heard + [Callback(n, nodes[p].run)])];
      if shape.left == n {
        nodes := nodes[p := nodes[p].(left := decision)];
      } else {
        nodes := nodes[p := nodes[p].(right := decision)];
      }
      assert Now() == Set(s, p, if shape.left == n then x.(left := decision) else x.(right := decision));
      if nodes[p].run != InProgress {
        return;
      }
      if nodes[p].count == 2 {
        SendDecisionToRequestorsAsync(p, FullDecision(shape, nodes[p].left, nodes[p].right));
      } else if shape.left == n {
        var early := ShortCircuit(shape, nodes[p].left);
        if early != NotStarted {
          SendDecisionToRequestorsAsync(p, early);
          RequestDecisionAsync(shape.right, false);
        } else {
          RequestDecisionAsync(shape.right, true);
        }
      } else {
        var early := ShortCircuit(shape, nodes[p].right);
        if early != NotStarted {
          SendDecisionToRequestorsAsync(p, early);
        }
      }
    }

    /** One turn of the loop of startAsync. */
    method RequestNextRoot()
      requires WellFormed(g) && Valid() && started < |g.roots|
      modifies this
      ensures Valid() && Now() == Apply(g, old(Now()), RequestRoot)
    {
      ghost var s := Now();
      started := started + 1;
      assert Now() == s.(started := s.started + 1);
      RequestDecisionAsync(g.roots[started - 1], true);
    }

    /** The task of a leaf that was asked for its decision. */
    method DecideLeaf(n: nat)
      requires WellFormed(g) && Valid() && Pending(g, Now(), n)
      modifies this
      ensures Valid() && Now() == Apply(g, old(Now()), LeafDecides(n))
    {
      SendDecisionToRequestorsAsync(n, g.nodes[n].shape.verdict);
    }
  }
}
