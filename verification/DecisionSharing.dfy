/**
  Small shared graphs on which a root does not answer, or answers wrongly.
 */
module DecisionSharing {
  import opened DecisionGraph
  import opened DecisionSteps
  import opened DecisionCallbacks
  import opened DecisionSilence

  lemma CallsOfAtMostTwo(r: seq<Requestor>, m: nat)
    requires 1 <= |r| <= 2
    ensures Calls(r, m, |r|) == (if r[0] == Parent(m) then 1 else 0) + (if |r| == 2 && r[1] == Parent(m) then 1 else 0)
  {
    assert Calls(r, m, 1) == Calls(r, m, 0) + if r[0] == Parent(m) then 1 else 0;
  }

  // ----- A left child that is also a root -----

  /** And(x, z) where x is also a root of its own, requested first. */
  const SHARED := Graph([
    Node(Leaf(Go), [Start, Parent(2)]),
    Node(Leaf(Go), [Parent(2)]),
    Node(And(0, 1), [Start])], [0, 2])

  lemma SharedIsWellFormed()
    ensures WellFormed(SHARED)
  {
    forall n, m | 0 <= n < 3 && 0 <= m < 3
      ensures Calls(SHARED.nodes[n].requestors, m, |SHARED.nodes[n].requestors|) == Times(SHARED.nodes[m].shape, n)
    {
      CallsOfAtMostTwo(SHARED.nodes[n].requestors, m);
    }
    assert SHARED.nodes[0].requestors[0] == Start && SHARED.nodes[2].requestors[0] == Start;
  }

  /** Completeness does not extend to shared left children: a run can come to its end with a root that has sent nothing,
      because its left child decided before it was asked. */
  lemma SharingCanLeaveARootSilent() returns (es: seq<Event>, s: State)
    ensures WellFormed(SHARED) && Run(SHARED, Init(SHARED), es, s) && AtEnd(SHARED, s)
    ensures Fits(SHARED, s) && 2 in SHARED.roots && s.nodes[2].sent == []
  {
    SharedIsWellFormed();
    es, s := RootAfterItsLeftChild(SHARED, 0, 1);
  }

  // ----- A right child told twice -----

  /** Every left child has one requestor.  The roots are p = And(a, And(And(u, v), r)), v and r. */
  const LEFTS := Graph([
    Node(Leaf(Skip), [Parent(6)]),
    Node(Leaf(Go), [Parent(3)]),
    Node(Leaf(Skip), [Start, Parent(3)]),
    Node(And(1, 2), [Parent(5)]),
    Node(Leaf(Go), [Parent(5), Start]),
    Node(And(3, 4), [Parent(6)]),
    Node(And(0, 5), [Start])], [6, 2, 4])

  lemma LeftsRequestors(n: nat, i: nat)
    requires n < 7 && i < |LEFTS.nodes[n].requestors| && LEFTS.nodes[n].requestors[i].Parent?
    ensures var p := LEFTS.nodes[n].requestors[i].node;
            n < p < 7 && !LEFTS.nodes[p].shape.Leaf? && (LEFTS.nodes[p].shape.left == n || LEFTS.nodes[p].shape.right == n)
  {
  }

  lemma LeftsEdges(n: nat, m: nat)
    requires n < 7 && m < 7
    ensures var r := LEFTS.nodes[n].requestors; Calls(r, m, |r|) == Times(LEFTS.nodes[m].shape, n)
  {
    CallsOfAtMostTwo(LEFTS.nodes[n].requestors, m);
  }

  lemma LeftsShapes(n: nat)
    requires n < 7
    ensures var x := LEFTS.nodes[n].shape; if x.Leaf? then !x.verdict.NotStarted? else x.left < n && x.right < n
  {
  }

  lemma LeftsRoots(k: nat)
    requires k < 3
    ensures LEFTS.roots[k] < 7 && Start in LEFTS.nodes[LEFTS.roots[k]].requestors
  {
    assert LEFTS.nodes[2].requestors[0] == Start && LEFTS.nodes[4].requestors[1] == Start && LEFTS.nodes[6].requestors[0] == Start;
  }

  lemma LeftsSizes()
    ensures |LEFTS.nodes| == 7 && |LEFTS.roots| == 3
  {
  }

  lemma LeftsIsWellFormed()
    ensures WellFormed(LEFTS)
  {
    hide LEFTS, Calls, Times;
    LeftsSizes();
    forall n | 0 <= n < 7
      ensures var x := LEFTS.nodes[n].shape; if x.Leaf? then !x.verdict.NotStarted? else x.left < n && x.right < n
    {
      LeftsShapes(n);
    }
    forall k | 0 <= k < 3 ensures LEFTS.roots[k] < 7 && Start in LEFTS.nodes[LEFTS.roots[k]].requestors {
      LeftsRoots(k);
    }
    forall n, m | 0 <= n < 7 && 0 <= m < 7
      ensures Calls(LEFTS.nodes[n].requestors, m, |LEFTS.nodes[n].requestors|) == Times(LEFTS.nodes[m].shape, n)
    {
      LeftsEdges(n, m);
    }
    forall n, i | 0 <= n < 7 && 0 <= i < |LEFTS.nodes[n].requestors| && LEFTS.nodes[n].requestors[i].Parent?
      ensures var p := LEFTS.nodes[n].requestors[i].node;
              n < p < 7 && !LEFTS.nodes[p].shape.Leaf? && (LEFTS.nodes[p].shape.left == n || LEFTS.nodes[p].shape.right == n)
    {
      LeftsRequestors(n, i);
    }
  }

  lemma LeftChildrenHaveOneRequestor(p: nat)
    requires p < 7 && !LEFTS.nodes[p].shape.Leaf?
    ensures |LEFTS.nodes[LEFTS.nodes[p].shape.left].requestors| == 1
  {
  }

  // The states that the nodes go through.
  const ASKED := FRESH.(received := [true], run := ShouldRun)
  const WAITING := FRESH.(received := [true], run := InProgress)
  const UNWANTED := FRESH.(received := [false], willNotRun := 1, run := InProgress)
  const DROPPED := FRESH.(received := [false], willNotRun := 1, run := WillNotRun)
  const A_SENT := ASKED.(run := Completed, sent := [Skip], told := 1)
  const P_SENT := WAITING.(count := 1, left := Skip, heard := [Callback(0, InProgress)], run := Completed, sent := [Skip], told := 1)
  const V_ASKED := ASKED.(received := [true, false])
  const V_SENT := V_ASKED.(run := Completed, sent := [Skip], told := 2)
  const R_TOLD := FRESH.(received := [false], willNotRun := 1)
  const R_DROPPED := R_TOLD.(received := [false, false], willNotRun := 2, run := WillNotRun)
  const L_SENT := UNWANTED.(count := 1, right := Skip, heard := [Callback(2, InProgress)], run := Completed, sent := [Skip], told := 1)
  const N_SENT := UNWANTED.(count := 1, left := Skip, heard := [Callback(3, InProgress)], run := Completed, sent := [Skip], told := 1)
  const P_HEARD := P_SENT.(count := 2, right := Skip, heard := [Callback(0, InProgress), Callback(5, Completed)])

  /** The configurations of the third event, in which a decides, p sends SKIP and n and everything below are told off. */
  function ThirdEvent(): seq<Config> {
    var a, p := A_SENT.(told := 0), P_SENT.(told := 0);
    var end := Tell(0, Skip, 1);
    [ Config(State([a, FRESH, ASKED, FRESH, FRESH, FRESH, WAITING], 0, 2), [Tell(0, Skip, 0)]),
      Config(State([A_SENT, FRESH, ASKED, FRESH, FRESH, FRESH, p], 0, 2), [Tell(6, Skip, 0), Ask(Parent(6), 5, false), end]),
      Config(State([A_SENT, FRESH, ASKED, FRESH, FRESH, FRESH, P_SENT], 1, 2), [Tell(6, Skip, 1), Ask(Parent(6), 5, false), end]),
      Config(State([A_SENT, FRESH, ASKED, FRESH, FRESH, FRESH, P_SENT], 1, 2), [Ask(Parent(6), 5, false), end]),
      Config(State([A_SENT, FRESH, ASKED, FRESH, FRESH, UNWANTED, P_SENT], 1, 2),
             [Ask(Parent(5), 3, false), Ask(Parent(5), 4, false), end]),
      Config(State([A_SENT, FRESH, ASKED, UNWANTED, FRESH, UNWANTED, P_SENT], 1, 2),
             [Ask(Parent(3), 1, false), Ask(Parent(3), 2, false), Ask(Parent(5), 4, false), end]),
      Config(State([A_SENT, DROPPED, ASKED, UNWANTED, FRESH, UNWANTED, P_SENT], 1, 2),
             [Ask(Parent(3), 2, false), Ask(Parent(5), 4, false), end]),
      Config(State([A_SENT, DROPPED, V_ASKED, UNWANTED, FRESH, UNWANTED, P_SENT], 1, 2), [Ask(Parent(5), 4, false), end]),
      Config(State([A_SENT, DROPPED, V_ASKED, UNWANTED, R_TOLD, UNWANTED, P_SENT], 1, 2), [end]),
      Config(State([A_SENT, DROPPED, V_ASKED, UNWANTED, R_TOLD, UNWANTED, P_SENT], 1, 2), []) ]
  }

  /** The configurations of the fourth event, in which v decides, l and n do although nobody wants them, and r is told
      off for the second time by n. */
  function FourthEvent(): seq<Config> {
    var v, l, n, r := V_SENT, L_SENT.(told := 0), N_SENT.(told := 0), Ask(Parent(5), 4, false);
    var endV, endL := Tell(2, Skip, 2), Tell(3, Skip, 1);
    [ Config(State([A_SENT, DROPPED, v.(told := 0), UNWANTED, R_TOLD, UNWANTED, P_SENT], 1, 2), [Tell(2, Skip, 0)]),
      Config(State([A_SENT, DROPPED, v.(told := 1), UNWANTED, R_TOLD, UNWANTED, P_SENT], 2, 2), [Tell(2, Skip, 1)]),
      Config(State([A_SENT, DROPPED, v, l, R_TOLD, UNWANTED, P_SENT], 2, 2), [Tell(3, Skip, 0), endV]),
      Config(State([A_SENT, DROPPED, v, L_SENT, R_TOLD, n, P_SENT], 2, 2), [Tell(5, Skip, 0), r, endL, endV]),
      Config(State([A_SENT, DROPPED, v, L_SENT, R_TOLD, N_SENT, P_HEARD], 2, 2), [Tell(5, Skip, 1), r, endL, endV]),
      Config(State([A_SENT, DROPPED, v, L_SENT, R_TOLD, N_SENT, P_HEARD], 2, 2), [r, endL, endV]),
      Config(State([A_SENT, DROPPED, v, L_SENT, R_DROPPED, N_SENT, P_HEARD], 2, 2), [endL, endV]),
      Config(State([A_SENT, DROPPED, v, L_SENT, R_DROPPED, N_SENT, P_HEARD], 2, 2), [endV]),
      Config(State([A_SENT, DROPPED, v, L_SENT, R_DROPPED, N_SENT, P_HEARD], 2, 2), []) ]
  }

  lemma Lists<T>(x: T)
    ensures [] + [x] == [x]
  {
  }

  lemma ThirdEventRises(i: nat)
    requires i < 3
    ensures WellFormed(LEFTS) && Proper(LEFTS, ThirdEvent()[i]) && ThirdEvent()[i].todo != []
    ensures Step(LEFTS, ThirdEvent()[i]) == ThirdEvent()[i + 1]
  {
    hide WellFormed;
    LeftsIsWellFormed();
    var c, c' := ThirdEvent()[i], ThirdEvent()[i + 1];
    Lists(Callback(0, InProgress));
    Lists(Skip);
    assert Step(LEFTS, c).now.nodes == c'.now.nodes;
    assert Step(LEFTS, c).todo == c'.todo;
  }

  lemma ThirdEventFalls(i: nat)
    requires 3 <= i < 9
    ensures WellFormed(LEFTS) && Proper(LEFTS, ThirdEvent()[i]) && ThirdEvent()[i].todo != []
    ensures Step(LEFTS, ThirdEvent()[i]) == ThirdEvent()[i + 1]
  {
    hide WellFormed;
    LeftsIsWellFormed();
    var c, c' := ThirdEvent()[i], ThirdEvent()[i + 1];
    Lists(false);
    assert [true] + [false] == [true, false];
    assert Step(LEFTS, c).now.nodes == c'.now.nodes;
    assert Step(LEFTS, c).todo == c'.todo;
  }

  lemma FourthEventRises(i: nat)
    requires i < 3
    ensures WellFormed(LEFTS) && Proper(LEFTS, FourthEvent()[i]) && FourthEvent()[i].todo != []
    ensures Step(LEFTS, FourthEvent()[i]) == FourthEvent()[i + 1]
  {
    hide WellFormed;
    LeftsIsWellFormed();
    var c, c' := FourthEvent()[i], FourthEvent()[i + 1];
    Lists(Callback(2, InProgress));
    Lists(Callback(3, InProgress));
    Lists(Skip);
    assert Step(LEFTS, c).now.nodes == c'.now.nodes;
    assert Step(LEFTS, c).todo == c'.todo;
  }

  lemma FourthEventFalls(i: nat)
    requires 3 <= i < 8
    ensures WellFormed(LEFTS) && Proper(LEFTS, FourthEvent()[i]) && FourthEvent()[i].todo != []
    ensures Step(LEFTS, FourthEvent()[i]) == FourthEvent()[i + 1]
  {
    hide WellFormed;
    LeftsIsWellFormed();
    var c, c' := FourthEvent()[i], FourthEvent()[i + 1];
    assert [false] + [false] == [false, false];
    assert [Callback(0, InProgress)] + [Callback(5, Completed)] == [Callback(0, InProgress), Callback(5, Completed)];
    assert Step(LEFTS, c).now.nodes == c'.now.nodes;
    assert Step(LEFTS, c).todo == c'.todo;
  }

  /** Steps that lead from the beginning of an event to an end with nothing to do are the event. */
  lemma EventIs(g: Graph, s: State, e: Event, cs: seq<Config>)
    requires WellFormed(g) && Fits(g, s) && Enabled(g, s, e) && cs != [] && Begin(g, s, e) == cs[0]
    requires forall i :: 0 <= i < |cs| - 1 ==> Proper(g, cs[i]) && cs[i].todo != [] && Step(g, cs[i]) in cs
    requires cs[|cs| - 1].todo == []
    ensures Apply(g, s, e) == cs[|cs| - 1].now
  {
    var P := (c: Config) => c in cs;
    forall c {:trigger Step(g, c)} | Proper(g, c) && P(c) && c.todo != [] ensures P(Step(g, c)) {
      var i :| 0 <= i < |cs| && cs[i] == c;
    }
    EventBySteps(g, P, s, e);
  }

  function FirstEvent(): seq<Config> {
    [ Config(State([FRESH, FRESH, FRESH, FRESH, FRESH, FRESH, FRESH], 0, 1), [Ask(Start, 6, true)]),
      Config(State([FRESH, FRESH, FRESH, FRESH, FRESH, FRESH, WAITING], 0, 1), [Ask(Parent(6), 0, true)]),
      Config(State([ASKED, FRESH, FRESH, FRESH, FRESH, FRESH, WAITING], 0, 1), []) ]
  }

  function SecondEvent(): seq<Config> {
    [ Config(State([ASKED, FRESH, FRESH, FRESH, FRESH, FRESH, WAITING], 0, 2), [Ask(Start, 2, true)]),
      Config(State([ASKED, FRESH, ASKED, FRESH, FRESH, FRESH, WAITING], 0, 2), []) ]
  }

  function FifthEvent(): seq<Config> {
    var r := R_DROPPED;
    [ Config(State([A_SENT, DROPPED, V_SENT, L_SENT, r, N_SENT, P_HEARD], 2, 3), [Ask(Start, 4, true)]),
      Config(State([A_SENT, DROPPED, V_SENT, L_SENT, r.(received := [false, false, true]), N_SENT, P_HEARD], 2, 3), []) ]
  }

  lemma FirstEventSteps(i: nat)
    requires i < 2
    ensures WellFormed(LEFTS) && Proper(LEFTS, FirstEvent()[i]) && FirstEvent()[i].todo != []
    ensures Step(LEFTS, FirstEvent()[i]) == FirstEvent()[i + 1]
  {
    hide WellFormed;
    LeftsIsWellFormed();
    Lists(true);
    assert Step(LEFTS, FirstEvent()[i]).now.nodes == FirstEvent()[i + 1].now.nodes;
  }

  lemma FirstRoot()
    ensures WellFormed(LEFTS) && Apply(LEFTS, Init(LEFTS), RequestRoot) == FirstEvent()[2].now
  {
    LeftsIsWellFormed();
    assert Init(LEFTS).nodes == FirstEvent()[0].now.nodes;
    hide WellFormed, Step;
    forall i | 0 <= i < 2 ensures Proper(LEFTS, FirstEvent()[i]) && FirstEvent()[i].todo != [] && Step(LEFTS, FirstEvent()[i]) in FirstEvent() {
      FirstEventSteps(i);
    }
    EventIs(LEFTS, Init(LEFTS), RequestRoot, FirstEvent());
  }

  lemma SecondRoot()
    ensures WellFormed(LEFTS) && Apply(LEFTS, FirstEvent()[2].now, RequestRoot) == SecondEvent()[1].now
  {
    hide WellFormed;
    LeftsIsWellFormed();
    Lists(true);
    assert Step(LEFTS, SecondEvent()[0]).now.nodes == SecondEvent()[1].now.nodes;
    EventIs(LEFTS, FirstEvent()[2].now, RequestRoot, SecondEvent());
  }

  lemma ThirdRoot()
    ensures WellFormed(LEFTS) && Apply(LEFTS, FourthEvent()[8].now, RequestRoot) == FifthEvent()[1].now
  {
    hide WellFormed;
    LeftsIsWellFormed();
    assert [false, false] + [true] == [false, false, true];
    assert Step(LEFTS, FifthEvent()[0]).now.nodes == FifthEvent()[1].now.nodes;
    EventIs(LEFTS, FourthEvent()[8].now, RequestRoot, FifthEvent());
  }

  lemma LeafEvents()
    ensures WellFormed(LEFTS)
    ensures Apply(LEFTS, SecondEvent()[1].now, LeafDecides(0)) == ThirdEvent()[9].now
    ensures Apply(LEFTS, ThirdEvent()[9].now, LeafDecides(2)) == FourthEvent()[8].now
  {
    LeftsIsWellFormed();
    Lists(Skip);
    hide WellFormed, Step;
    forall i | 0 <= i < 9 ensures Proper(LEFTS, ThirdEvent()[i]) && ThirdEvent()[i].todo != [] && Step(LEFTS, ThirdEvent()[i]) in ThirdEvent() {
      if i < 3 { ThirdEventRises(i); } else { ThirdEventFalls(i); }
    }
    forall i | 0 <= i < 8 ensures Proper(LEFTS, FourthEvent()[i]) && FourthEvent()[i].todo != [] && Step(LEFTS, FourthEvent()[i]) in FourthEvent() {
      if i < 3 { FourthEventRises(i); } else { FourthEventFalls(i); }
    }
    assert Begin(LEFTS, SecondEvent()[1].now, LeafDecides(0)).now.nodes == ThirdEvent()[0].now.nodes;
    assert Begin(LEFTS, ThirdEvent()[9].now, LeafDecides(2)).now.nodes == FourthEvent()[0].now.nodes;
    EventIs(LEFTS, SecondEvent()[1].now, LeafDecides(0), ThirdEvent());
    EventIs(LEFTS, ThirdEvent()[9].now, LeafDecides(2), FourthEvent());
  }

  /** That every left child has one requestor does not suffice: n, told off, still decides when the shared v makes its
      left child l decide, and then tells r a second time that no request will come, so that r takes both of its
      requestors to have said so although one of them is the start node. */
  lemma OwnLeftChildrenDoNotSuffice() returns (es: seq<Event>, s: State)
    ensures WellFormed(LEFTS) && Run(LEFTS, Init(LEFTS), es, s) && AtEnd(LEFTS, s) && Fits(LEFTS, s)
    ensures forall p :: 0 <= p < |LEFTS.nodes| && !LEFTS.nodes[p].shape.Leaf? ==>
              |LEFTS.nodes[LEFTS.nodes[p].shape.left].requestors| == 1
    ensures 4 in LEFTS.roots && s.nodes[4].sent == [] && ToldOff(LEFTS, s, 4)
  {
    hide WellFormed, Apply;
    FirstRoot();
    SecondRoot();
    LeafEvents();
    ThirdRoot();
    s := FifthEvent()[1].now;
    var s1, s2, s3, s4 := FirstEvent()[2].now, SecondEvent()[1].now, ThirdEvent()[9].now, FourthEvent()[8].now;
    es := [RequestRoot, RequestRoot, LeafDecides(0), LeafDecides(2), RequestRoot];
    assert Run(LEFTS, s, [], s);
    assert Run(LEFTS, s4, es[4..], s) && Run(LEFTS, s3, es[3..], s) && Run(LEFTS, s2, es[2..], s) && Run(LEFTS, s1, es[1..], s);
    forall p | 0 <= p < 7 && !LEFTS.nodes[p].shape.Leaf? ensures |LEFTS.nodes[LEFTS.nodes[p].shape.left].requestors| == 1 {
      LeftChildrenHaveOneRequestor(p);
    }
  }

  // ----- One node on both sides of an And -----

  const TWICE := Graph([Node(Leaf(Go), [Parent(1), Parent(1)]), Node(And(0, 0), [Start])], [1])

  lemma TwiceIsWellFormed()
    ensures WellFormed(TWICE)
  {
    forall n, m | 0 <= n < 2 && 0 <= m < 2
      ensures Calls(TWICE.nodes[n].requestors, m, |TWICE.nodes[n].requestors|) == Times(TWICE.nodes[m].shape, n)
    {
      CallsOfAtMostTwo(TWICE.nodes[n].requestors, m);
    }
    assert TWICE.nodes[1].requestors[0] == Start;
  }

  function TwiceAsked(): seq<Config> {
    [ Config(State([FRESH, FRESH], 0, 1), [Ask(Start, 1, true)]),
      Config(State([FRESH, WAITING], 0, 1), [Ask(Parent(1), 0, true)]),
      Config(State([ASKED, WAITING], 0, 1), []) ]
  }

  /** The first callback makes the And ask its right child, which has decided already; the second one counts as its left
      child's again. */
  function TwiceDecides(): seq<Config> {
    var x := ASKED.(run := Completed, sent := [Go]);
    var y := WAITING.(left := Go, count := 1, heard := [Callback(0, InProgress)]);
    var z := WAITING.(left := Go, count := 2, heard := [Callback(0, InProgress), Callback(0, InProgress)], run := Completed, sent := [Skip]);
    [ Config(State([x, WAITING], 0, 1), [Tell(0, Go, 0)]),
      Config(State([x.(told := 1), y], 0, 1), [Ask(Parent(1), 0, true), Tell(0, Go, 1)]),
      Config(State([x.(told := 1, received := [true, true]), y], 0, 1), [Tell(0, Go, 1)]),
      Config(State([x.(told := 2, received := [true, true]), z], 0, 1), [Tell(1, Skip, 0), Tell(0, Go, 2)]),
      Config(State([x.(told := 2, received := [true, true]), z.(told := 1)], 1, 1), [Tell(1, Skip, 1), Tell(0, Go, 2)]),
      Config(State([x.(told := 2, received := [true, true]), z.(told := 1)], 1, 1), [Tell(0, Go, 2)]),
      Config(State([x.(told := 2, received := [true, true]), z.(told := 1)], 1, 1), []) ]
  }

  lemma TwiceAskedSteps(i: nat)
    requires i < 2
    ensures WellFormed(TWICE) && Proper(TWICE, TwiceAsked()[i]) && TwiceAsked()[i].todo != []
    ensures Step(TWICE, TwiceAsked()[i]) == TwiceAsked()[i + 1]
  {
    hide WellFormed;
    TwiceIsWellFormed();
    Lists(true);
    assert Step(TWICE, TwiceAsked()[i]).now.nodes == TwiceAsked()[i + 1].now.nodes;
  }

  lemma TwiceDecidesSteps(i: nat)
    requires i < 6
    ensures WellFormed(TWICE) && Proper(TWICE, TwiceDecides()[i]) && TwiceDecides()[i].todo != []
    ensures Step(TWICE, TwiceDecides()[i]) == TwiceDecides()[i + 1]
  {
    hide WellFormed;
    TwiceIsWellFormed();
    var c, c' := TwiceDecides()[i], TwiceDecides()[i + 1];
    Lists(Callback(0, InProgress));
    Lists(Skip);
    assert [true] + [true] == [true, true];
    assert [Callback(0, InProgress)] + [Callback(0, InProgress)] == [Callback(0, InProgress), Callback(0, InProgress)];
    assert Step(TWICE, c).now.nodes == c'.now.nodes;
    assert Step(TWICE, c).todo == c'.todo;
  }

  /** A run of an And of one node that says GO and makes it say SKIP. */
  lemma AndOfOneNodeSkips() returns (es: seq<Event>, s: State)
    ensures WellFormed(TWICE) && Run(TWICE, Init(TWICE), es, s) && AtEnd(TWICE, s)
    ensures Fits(TWICE, s) && s.nodes[0].sent == [Go] && s.nodes[1].sent == [Skip]
  {
    TwiceIsWellFormed();
    Lists(Go);
    hide WellFormed, Step, Apply;
    var s1 := TwiceAsked()[2].now;
    es, s := [RequestRoot, LeafDecides(0)], TwiceDecides()[6].now;
    forall i | 0 <= i < 2 ensures Proper(TWICE, TwiceAsked()[i]) && TwiceAsked()[i].todo != [] && Step(TWICE, TwiceAsked()[i]) in TwiceAsked() {
      TwiceAskedSteps(i);
    }
    forall i | 0 <= i < 6 ensures Proper(TWICE, TwiceDecides()[i]) && TwiceDecides()[i].todo != [] && Step(TWICE, TwiceDecides()[i]) in TwiceDecides() {
      TwiceDecidesSteps(i);
    }
    assert Init(TWICE).nodes == TwiceAsked()[0].now.nodes;
    assert Begin(TWICE, s1, LeafDecides(0)).now.nodes == TwiceDecides()[0].now.nodes;
    EventIs(TWICE, Init(TWICE), RequestRoot, TwiceAsked());
    EventIs(TWICE, s1, LeafDecides(0), TwiceDecides());
    assert Run(TWICE, s, [], s) && Run(TWICE, s1, es[1..], s);
  }
}
