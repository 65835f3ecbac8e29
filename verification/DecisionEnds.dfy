/**
  Every run ends, on every graph: an event uses up a root to request or a node that has not decided.
 */
module DecisionEnds {
  import opened DecisionGraph
  import opened DecisionSteps
  import opened DecisionCallbacks

  /** How many of the first k nodes have sent nothing. */
  function Unsent(s: State, k: nat): nat
    requires k <= |s.nodes|
  {
    if k == 0 then 0 else Unsent(s, k - 1) + if s.nodes[k - 1].sent == [] then 1 else 0
  }

  lemma {:induction false} UnsentShrinks(s: State, s': State, n: nat, k: nat)
    requires |s'.nodes| == |s.nodes| && k <= |s.nodes| && n < |s.nodes|
    requires forall m :: 0 <= m < |s.nodes| && s.nodes[m].sent != [] ==> s'.nodes[m].sent != []
    ensures Unsent(s', k) <= Unsent(s, k)
    ensures n < k && s.nodes[n].sent == [] && s'.nodes[n].sent != [] ==> Unsent(s', k) < Unsent(s, k)
  {
    if k > 0 {
      UnsentShrinks(s, s', n, k - 1);
    }
  }

  lemma {:induction false} UnsentAtMost(s: State, k: nat)
    requires k <= |s.nodes|
    ensures Unsent(s, k) <= k
  {
    if k > 0 {
      UnsentAtMost(s, k - 1);
    }
  }

  /** What has been sent in s0 is still sent, and no root has been requested since. */
  ghost predicate Keeps(g: Graph, s0: State, c: Config)
    requires WellFormed(g) && Fits(g, s0)
  {
    && Inv(g, c) && c.now.started == s0.started
    && forall m :: 0 <= m < |g.nodes| && s0.nodes[m].sent != [] ==> c.now.nodes[m].sent == s0.nodes[m].sent
  }

  lemma StepKeeps(g: Graph, s0: State, c: Config)
    requires WellFormed(g) && Fits(g, s0) && Keeps(g, s0, c) && c.todo != []
    ensures Keeps(g, s0, Step(g, c))
  {
    StepKeepsInv(g, c);
    assert TaskOk(g, c.now, c.todo[0]) && InRange(g, c.todo[0]);
    if c.todo[0].Ask? {
      AskEffect(g, c);
    } else if c.todo[0].next < |g.nodes[c.todo[0].node].requestors| {
      TellEffect(g, c);
      if Callee(g, c).Parent? {
        assert NodeInv(g, c, Callee(g, c).node);
      }
    }
  }

  /** What an event does for the end of the run. */
  lemma EventKeeps(g: Graph, s: State, e: Event)
    requires WellFormed(g) && Inv(g, Config(s, [])) && Enabled(g, s, e)
    ensures Keeps(g, Begin(g, s, e).now, Config(Apply(g, s, e), []))
  {
    var c := Begin(g, s, e);
    assert Keeps(g, c.now, c) by { InvIsStable(g); }
    hide Keeps, Step, Begin;
    var P := (c1: Config) => Keeps(g, c.now, c1);
    forall c1 {:trigger Step(g, c1)} | Proper(g, c1) && P(c1) && c1.todo != [] ensures P(Step(g, c1)) {
      StepKeeps(g, c.now, c1);
    }
    EventBySteps(g, P, s, e);
  }

  function Left(g: Graph, s: State): int
    requires Fits(g, s)
  {
    |g.roots| - s.started + Unsent(s, |s.nodes|)
  }

  lemma EventUsesUp(g: Graph, s: State, e: Event)
    requires WellFormed(g) && Inv(g, Config(s, [])) && Enabled(g, s, e)
    ensures Inv(g, Config(Apply(g, s, e), [])) && Left(g, Apply(g, s, e)) < Left(g, s)
  {
    var s1, c := Apply(g, s, e), Begin(g, s, e);
    EventKeeps(g, s, e);
    if |s.nodes| > 0 {
      UnsentShrinks(s, s1, if e.LeafDecides? then e.leaf else 0, |s.nodes|);
    }
    if e.LeafDecides? {
      assert NodeInv(g, Config(s, []), e.leaf);
    }
  }

  lemma {:induction false} RunsEnd(g: Graph, s: State, es: seq<Event>, s': State)
    requires WellFormed(g) && Inv(g, Config(s, [])) && Run(g, s, es, s')
    ensures Inv(g, Config(s', [])) && |es| + Left(g, s') <= Left(g, s)
    decreases |es|
  {
    if es != [] {
      EventUsesUp(g, s, es[0]);
      RunsEnd(g, Apply(g, s, es[0]), es[1..], s');
    }
  }

  /** No run, on any graph, has more events than there are roots and nodes. */
  lemma EveryRunEnds(g: Graph, es: seq<Event>, s: State)
    requires WellFormed(g) && Run(g, Init(g), es, s)
    ensures |es| <= |g.roots| + |g.nodes|
  {
    InitInv(g);
    RunsEnd(g, Init(g), es, s);
    UnsentAtMost(Init(g), |g.nodes|);
  }

  lemma {:induction false} RunJoins(g: Graph, s: State, es: seq<Event>, s1: State, fs: seq<Event>, s2: State)
    requires WellFormed(g) && Fits(g, s) && Run(g, s, es, s1) && Fits(g, s1) && Run(g, s1, fs, s2)
    ensures Run(g, s, es + fs, s2)
    decreases |es|
  {
    if es == [] {
      assert es + fs == fs;
    } else {
      RunJoins(g, Apply(g, s, es[0]), es[1..], s1, fs, s2);
      assert (es + fs)[1..] == es[1..] + fs;
    }
  }

  /** Every run can be continued to its end. */
  lemma {:induction false} RunCanEnd(g: Graph, s: State) returns (es: seq<Event>, s': State)
    requires WellFormed(g) && Inv(g, Config(s, []))
    ensures Run(g, s, es, s') && AtEnd(g, s') && Inv(g, Config(s', []))
    decreases Left(g, s)
  {
    if AtEnd(g, s) {
      es, s' := [], s;
    } else {
      var e: Event;
      if s.started < |g.roots| {
        e := RequestRoot;
      } else {
        var n :| 0 <= n < |g.nodes| && Pending(g, s, n);
        e := LeafDecides(n);
      }
      EventUsesUp(g, s, e);
      var rest;
      rest, s' := RunCanEnd(g, Apply(g, s, e));
      es := [e] + rest;
      assert es[1..] == rest;
    }
  }
}
