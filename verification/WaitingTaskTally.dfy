/**
  The holders of a waiting task over whole runs, counted by the calls made: references taken and given back, failures
  handed in.
 */
module WaitingTaskTally {
  import opened Options
  import opened WaitingTaskProtocol

  // ----- What the calls say -----

  /** The failures handed in by the calls of a run. */
  function GivenBy(m: Move): seq<Failure> {
    match m
    case Preset(_, e) => [e]
    case DoneWaiting(_, e) => if e.Some? then [e.value] else []
    case _ => []
  }

  function GivenIn(ms: seq<Move>): seq<Failure> {
    if ms == [] then [] else GivenBy(ms[0]) + GivenIn(ms[1..])
  }

  /** References taken less references given back. */
  function TakenBy(m: Move): int {
    match m
    case Adopt(_) => 1
    case Copy(_) => 1
    case DoneWaiting(_, _) => -1
    case _ => 0
  }

  function TakenIn(ms: seq<Move>): int {
    if ms == [] then 0 else TakenBy(ms[0]) + TakenIn(ms[1..])
  }

  // ----- What the slots say -----

  /** The slot keeps its reference when it is done with what it is doing. */
  predicate Stays(x: Slot) {
    x.Live? &&
    match x.op
    case Reporting(_, r) => !r
    case Writing(_, r) => !r
    case Publishing(r) => !r
    case Releasing => false
    case Converting(_) => false
    case Idle => true
    case Reserved(_) => true
  }

  /** A failure on its way to the compare-exchange. */
  predicate Brings(x: Slot, e: Failure) {
    x.Live? && x.op.Reporting? && x.op.failure == e
  }

  datatype Quantity = References | Failures(e: Failure)

  function Amount(x: Slot, what: Quantity): nat {
    match what
    case References => if Stays(x) then 1 else 0
    case Failures(e) => if Brings(x, e) then 1 else 0
  }

  function Total(slots: seq<Slot>, what: Quantity): nat {
    if slots == [] then 0 else Total(slots[..|slots| - 1], what) + Amount(slots[|slots| - 1], what)
  }

  function Count(es: seq<Failure>, e: Failure): nat {
    if es == [] then 0 else Count(es[..|es| - 1], e) + if es[|es| - 1] == e then 1 else 0
  }

  function Reported(s: System, what: Quantity): nat {
    match what
    case References => 0
    case Failures(e) => Count(s.reports, e)
  }

  /** What a call adds to the quantity. */
  function Change(m: Move, what: Quantity): int {
    match what
    case References => TakenBy(m)
    case Failures(e) => Count(GivenBy(m), e)
  }

  lemma {:induction false} TotalUpdate(slots: seq<Slot>, i: nat, x: Slot, what: Quantity)
    requires i < |slots|
    ensures Total(slots[i := x], what) == Total(slots, what) - Amount(slots[i], what) + Amount(x, what)
  {
    var n := |slots| - 1;
    if i < n {
      assert slots[i := x][..n] == slots[..n][i := x];
      TotalUpdate(slots[..n], i, x, what);
    } else {
      assert slots[i := x][..n] == slots[..n];
    }
  }

  lemma TotalAppend(slots: seq<Slot>, x: Slot, what: Quantity)
    ensures Total(slots + [x], what) == Total(slots, what) + Amount(x, what)
  {
    assert (slots + [x])[..|slots|] == slots;
  }

  lemma CountAppend(es: seq<Failure>, x: Failure, e: Failure)
    ensures Count(es + [x], e) == Count(es, e) + if x == e then 1 else 0
  {
    assert (es + [x])[..|es|] == es;
  }

  lemma CountOne(x: Failure, e: Failure)
    ensures Count([x], e) == (if x == e then 1 else 0) && Count([], e) == 0
  {
    assert [x][..0] == [];
  }

  // ----- Every move agrees with its call -----

  ghost predicate Agrees(s: System, m: Move, what: Quantity)
    requires Enabled(s, m)
  {
    var s' := Apply(s, m);
    Total(s'.slots, what) + Reported(s', what) == Total(s.slots, what) + Reported(s, what) + Change(m, what)
  }

  lemma MoveOutAgrees(s: System, i: nat, k: Kind, what: Quantity)
    requires Enabled(s, MoveOut(i, k))
    ensures Agrees(s, MoveOut(i, k), what)
  {
    TotalUpdate(s.slots, i, Empty, what);
    TotalAppend(s.slots[i := Empty], Live(k, Idle), what);
    hide Total;
  }

  lemma SwapAgrees(s: System, i: nat, j: nat, what: Quantity)
    requires Enabled(s, Swap(i, j))
    ensures Agrees(s, Swap(i, j), what)
  {
    TotalUpdate(s.slots, i, s.slots[j], what);
    TotalUpdate(s.slots[i := s.slots[j]], j, s.slots[i], what);
    hide Total, Amount;
  }

  lemma PresetAgrees(s: System, i: nat, e: Failure, what: Quantity)
    requires Enabled(s, Preset(i, e))
    ensures Agrees(s, Preset(i, e), what)
  {
    TotalUpdate(s.slots, i, s.slots[i].(op := Reporting(e, false)), what);
    if what.Failures? { CountOne(e, what.e); }
    hide Total, Count;
  }

  lemma DoneWaitingAgrees(s: System, i: nat, e: Option<Failure>, what: Quantity)
    requires Enabled(s, DoneWaiting(i, e))
    ensures Agrees(s, DoneWaiting(i, e), what)
  {
    TotalUpdate(s.slots, i, s.slots[i].(op := if e.Some? then Reporting(e.value, true) else Releasing), what);
    if what.Failures? && e.Some? { CountOne(e.value, what.e); }
    assert what.Failures? ==> Count([], what.e) == 0;
    hide Total, Count;
  }

  lemma ConvertAgrees(s: System, i: nat, what: Quantity)
    requires Enabled(s, Convert(i))
    ensures Agrees(s, Convert(i), what)
  {
    var x := s.slots[i].(op := Converting(|s.slots|));
    TotalUpdate(s.slots, i, x, what);
    TotalAppend(s.slots[i := x], Live(Plain, Reserved(i)), what);
    assert what.Failures? ==> Count([], what.e) == 0;
    hide Total, Count;
  }

  lemma ConversionAgrees(s: System, i: nat, what: Quantity)
    requires Conversions(s) && Enabled(s, Advance(i)) && s.slots[i].op.Converting?
    ensures Agrees(s, Advance(i), what)
  {
    var j := s.slots[i].op.to;
    TotalUpdate(s.slots, i, Empty, what);
    TotalUpdate(s.slots[i := Empty], j, Live(Plain, Idle), what);
  }

  lemma StepAgrees(s: System, i: nat, what: Quantity)
    requires Enabled(s, Advance(i)) && !s.slots[i].op.Converting?
    ensures Agrees(s, Advance(i), what)
  {
    var s' := Step(s, i);
    TotalUpdate(s.slots, i, s'.slots[i], what);
    assert s'.slots == s.slots[i := s'.slots[i]];
    if what.Failures? && s.slots[i].op.Reporting? {
      CountAppend(s.reports, s.slots[i].op.failure, what.e);
    }
  }

  lemma MoveAgrees(s: System, m: Move, what: Quantity)
    requires Conversions(s) && Enabled(s, m)
    ensures Agrees(s, m, what)
  {
    match m
    case Adopt(k) => TotalAppend(s.slots, Live(k, Idle), what);
    case Copy(i) => TotalAppend(s.slots, s.slots[i], what);
    case MoveOut(i, k) => MoveOutAgrees(s, i, k, what);
    case Swap(i, j) => SwapAgrees(s, i, j, what);
    case Preset(i, e) => PresetAgrees(s, i, e, what);
    case DoneWaiting(i, e) => DoneWaitingAgrees(s, i, e, what);
    case Convert(i) => ConvertAgrees(s, i, what);
    case Advance(i) =>
      if s.slots[i].op.Converting? {
        ConversionAgrees(s, i, what);
      } else {
        StepAgrees(s, i, what);
      }
    case Execute =>
  }

  function ChangeIn(ms: seq<Move>, what: Quantity): int {
    if ms == [] then 0 else Change(ms[0], what) + ChangeIn(ms[1..], what)
  }

  lemma {:induction false} RunAgrees(s: System, ms: seq<Move>, s': System, what: Quantity)
    requires Inv(s) && Run(s, ms, s')
    ensures Inv(s')
    ensures Total(s'.slots, what) + Reported(s', what) == Total(s.slots, what) + Reported(s, what) + ChangeIn(ms, what)
    decreases |ms|
  {
    hide Counted, OneSetter, Conversions, Apply, Enabled;
    if ms != [] {
      MoveKeepsInv(s, ms[0]);
      MoveAgrees(s, ms[0], what);
      RunAgrees(Apply(s, ms[0]), ms[1..], s', what);
    }
  }

  lemma {:induction false} ReferencesInCalls(ms: seq<Move>)
    ensures ChangeIn(ms, References) == TakenIn(ms)
  {
    if ms != [] {
      ReferencesInCalls(ms[1..]);
    }
  }

  lemma {:induction false} CountBoth(a: seq<Failure>, b: seq<Failure>, e: Failure)
    ensures Count(a + b, e) == Count(a, e) + Count(b, e)
  {
    if b == [] {
      assert a + b == a;
    } else {
      CountBoth(a, b[..|b| - 1], e);
      assert (a + b)[..|a + b| - 1] == a + b[..|b| - 1];
    }
  }

  lemma {:induction false} FailuresInCalls(ms: seq<Move>, e: Failure)
    ensures ChangeIn(ms, Failures(e)) == Count(GivenIn(ms), e)
  {
    if ms != [] {
      FailuresInCalls(ms[1..], e);
      CountBoth(GivenBy(ms[0]), GivenIn(ms[1..]), e);
    }
  }

  // ----- Which slots refer to the task -----

  /** By the calls of a run: the slots that will refer to the task when nothing is under way, by kind. */
  function After(holding: seq<Option<Kind>>, m: Move): seq<Option<Kind>> {
    match m
    case Adopt(k) => holding + [Some(k)]
    case Copy(i) => if i < |holding| then holding + [holding[i]] else holding
    case MoveOut(i, k) => if i < |holding| then holding[i := None] + [Some(k)] else holding
    case Swap(i, j) => if i < |holding| && j < |holding| then holding[i := holding[j]][j := holding[i]] else holding
    case DoneWaiting(i, _) => if i < |holding| then holding[i := None] else holding
    case Convert(i) => if i < |holding| then holding[i := None] + [Some(Plain)] else holding
    case _ => holding
  }

  function HoldingFrom(holding: seq<Option<Kind>>, ms: seq<Move>): seq<Option<Kind>>
    decreases |ms|
  {
    if ms == [] then holding else HoldingFrom(After(holding, ms[0]), ms[1..])
  }

  /** The kind of a slot that keeps its reference. */
  function Keeps(x: Slot): Option<Kind> {
    if Stays(x) then Some(x.kind) else None
  }

  ghost predicate Matches(slots: seq<Slot>, holding: seq<Option<Kind>>) {
    |slots| == |holding| && forall k :: 0 <= k < |slots| ==> Keeps(slots[k]) == holding[k]
  }

  lemma MoveMatches(s: System, m: Move, holding: seq<Option<Kind>>)
    requires Conversions(s) && Enabled(s, m) && Matches(s.slots, holding)
    ensures Matches(Apply(s, m).slots, After(holding, m))
  {
    if m.Advance? {
      StepMatches(s, m.i, holding);
    }
  }

  lemma StepMatches(s: System, i: nat, holding: seq<Option<Kind>>)
    requires Conversions(s) && Enabled(s, Advance(i)) && Matches(s.slots, holding)
    ensures Matches(Step(s, i).slots, holding)
  {
    if s.slots[i].op.Converting? {
      assert s.slots[s.slots[i].op.to] == Live(Plain, Reserved(i));
    } else {
      assert Step(s, i).slots == s.slots[i := Step(s, i).slots[i]];
    }
  }

  lemma {:induction false} RunMatches(s: System, ms: seq<Move>, s': System, holding: seq<Option<Kind>>)
    requires Inv(s) && Run(s, ms, s') && Matches(s.slots, holding)
    ensures Matches(s'.slots, HoldingFrom(holding, ms))
    decreases |ms|
  {
    hide Counted, OneSetter, Conversions, Apply, Enabled, Matches, After;
    if ms != [] {
      MoveKeepsInv(s, ms[0]);
      MoveMatches(s, ms[0], holding);
      RunMatches(Apply(s, ms[0]), ms[1..], s', After(holding, ms[0]));
    }
  }

  // ----- Main results -----

  ghost predicate AtRest(s: System) {
    forall i :: 0 <= i < |s.slots| && s.slots[i].Live? ==> s.slots[i].op.Idle?
  }

  lemma {:induction false} IdleStays(slots: seq<Slot>)
    requires forall i :: 0 <= i < |slots| && slots[i].Live? ==> slots[i].op.Idle?
    ensures Total(slots, References) == LiveCount(slots) && forall e :: Total(slots, Failures(e)) == 0
  {
    if slots != [] {
      IdleStays(slots[..|slots| - 1]);
    }
  }

  /** When nothing is under way, the count is the number of references taken by the calls of the run less the number given
      back, and the task has been spawned exactly if references were taken and all of them given back. */
  lemma CountIsTheCalls(ms: seq<Move>, s: System)
    requires Run(INIT, ms, s) && AtRest(s)
    ensures s.refCount == TakenIn(ms)
    ensures s.spawned == if s.slots != [] && TakenIn(ms) == 0 then 1 else 0
  {
    RunAgrees(INIT, ms, s, References);
    ReferencesInCalls(ms);
    IdleStays(s.slots);
    assert s.refCount == LiveCount(s.slots) && (s.spawned == 0 && s.slots != [] ==> s.refCount > 0);
  }

  lemma {:induction false} CountIsPresence(es: seq<Failure>, e: Failure)
    ensures Count(es, e) > 0 <==> e in es
  {
    if es != [] {
      CountIsPresence(es[..|es| - 1], e);
      assert es == es[..|es| - 1] + [es[|es| - 1]];
    }
  }

  /** The task sees a failure exactly if one was handed in by some call, and then one of these; each of them has been
      reported as often as it was handed in. */
  lemma ExecuteSeesAGivenFailure(ms: seq<Move>, s: System)
    requires Run(INIT, ms, s) && Enabled(s, Execute)
    ensures forall e :: Count(s.reports, e) == Count(GivenIn(ms), e)
    ensures var seen := Apply(s, Execute).seen;
            if GivenIn(ms) == [] then seen == None else seen.Some? && seen.value in GivenIn(ms)
  {
    ExecuteSeesFirstFailure(s);
    IdleStays(s.slots);
    forall e ensures Count(s.reports, e) == Count(GivenIn(ms), e) {
      RunAgrees(INIT, ms, s, Failures(e));
      FailuresInCalls(ms, e);
    }
    hide Inv, Run, Total;
    if s.reports != [] { CountIsPresence(s.reports, s.reports[0]); CountIsPresence(GivenIn(ms), s.reports[0]); }
    if GivenIn(ms) != [] { CountIsPresence(s.reports, GivenIn(ms)[0]); CountIsPresence(GivenIn(ms), GivenIn(ms)[0]); }
  }

  /** When nothing is under way, exactly those slots refer to the task that do by the calls of the run: copies, moves,
      swaps, conversions and releases each affect the holders they name and no others. */
  lemma HoldersAreTheCalls(ms: seq<Move>, s: System, k: nat)
    requires Run(INIT, ms, s) && AtRest(s)
    ensures |s.slots| == |HoldingFrom([], ms)|
    ensures k < |s.slots| ==> s.slots[k] == match HoldingFrom([], ms)[k] case None => Empty case Some(kind) => Live(kind, Idle)
  {
    RunMatches(INIT, ms, s, []);
    if k < |s.slots| {
      assert Keeps(s.slots[k]) == HoldingFrom([], ms)[k];
    }
  }

  // ----- To the end -----

  function Work(x: Slot): nat {
    match x
    case Empty => 0
    case Live(_, op) =>
      match op
      case Reporting(_, _) => 4
      case Writing(_, _) => 3
      case Publishing(_) => 2
      case Releasing => 1
      case Converting(_) => 1
      case Idle => 0
      case Reserved(_) => 0
  }

  function TotalWork(slots: seq<Slot>): nat {
    if slots == [] then 0 else TotalWork(slots[..|slots| - 1]) + Work(slots[|slots| - 1])
  }

  lemma {:induction false} TotalWorkUpdate(slots: seq<Slot>, i: nat, x: Slot)
    requires i < |slots|
    ensures TotalWork(slots[i := x]) == TotalWork(slots) - Work(slots[i]) + Work(x)
  {
    var n := |slots| - 1;
    if i < n {
      assert slots[i := x][..n] == slots[..n][i := x];
      TotalWorkUpdate(slots[..n], i, x);
    } else {
      assert slots[i := x][..n] == slots[..n];
    }
  }

  /** Every access brings the calls under way nearer to their end. */
  lemma StepWorks(s: System, i: nat)
    requires Conversions(s) && Enabled(s, Advance(i))
    ensures TotalWork(Step(s, i).slots) < TotalWork(s.slots)
  {
    if s.slots[i].op.Converting? {
      var j := s.slots[i].op.to;
      TotalWorkUpdate(s.slots, i, Empty);
      TotalWorkUpdate(s.slots[i := Empty], j, Live(Plain, Idle));
    } else {
      TotalWorkUpdate(s.slots, i, Step(s, i).slots[i]);
      assert Step(s, i).slots == s.slots[i := Step(s, i).slots[i]];
    }
  }

  /** While a call is under way, an access of some call is possible. */
  lemma SomeStepIsPossible(s: System) returns (i: nat)
    requires Inv(s) && !AtRest(s)
    ensures Enabled(s, Advance(i))
  {
    i :| 0 <= i < |s.slots| && s.slots[i].Live? && !s.slots[i].op.Idle?;
    if s.slots[i].op.Reserved? {
      i := s.slots[i].op.maker;
    }
    LiveCountUpdate(s.slots, i, s.slots[i]);
  }

  ghost predicate OnlySteps(ms: seq<Move>) {
    forall k :: 0 <= k < |ms| ==> ms[k].Advance?
  }

  lemma {:induction false} StepsAreBounded(s: System, ms: seq<Move>, s': System)
    requires Inv(s) && Run(s, ms, s') && OnlySteps(ms)
    ensures Inv(s') && |ms| + TotalWork(s'.slots) <= TotalWork(s.slots)
    decreases |ms|
  {
    if ms != [] {
      MoveKeepsInv(s, ms[0]);
      StepWorks(s, ms[0].i);
      assert OnlySteps(ms[1..]) && Apply(s, ms[0]) == Step(s, ms[0].i);
      hide Counted, OneSetter, Conversions, Apply, Enabled, TotalWork;
      StepsAreBounded(Apply(s, ms[0]), ms[1..], s');
    }
  }

  lemma {:induction false} RunJoins(s: System, ms: seq<Move>, s1: System, more: seq<Move>, s': System)
    requires Run(s, ms, s1) && Run(s1, more, s')
    ensures Run(s, ms + more, s')
    decreases |ms|
  {
    hide Apply, Enabled;
    if ms == [] {
      assert ms + more == more;
    } else {
      RunJoins(Apply(s, ms[0]), ms[1..], s1, more, s');
      assert (ms + more)[1..] == ms[1..] + more;
    }
  }

  lemma {:induction false} StepsTakeNothing(ms: seq<Move>, steps: seq<Move>)
    requires OnlySteps(steps)
    ensures TakenIn(ms + steps) == TakenIn(ms)
  {
    if ms != [] {
      StepsTakeNothing(ms[1..], steps);
      assert (ms + steps)[1..] == ms[1..] + steps;
    } else if steps != [] {
      StepsTakeNothing([], steps[1..]);
      assert ms + steps == steps && [] + steps[1..] == steps[1..];
    } else {
      assert ms + steps == [];
    }
  }

  /** Once no more calls are made, every schedule of accesses ends, and then the count is that of the calls, and the task
      has been spawned exactly if all references taken have been given back. */
  lemma MaximalRunCounts(ms: seq<Move>, s: System, steps: seq<Move>, s': System)
    requires Run(INIT, ms, s) && Run(s, steps, s') && OnlySteps(steps) && (forall i :: !Enabled(s', Advance(i)))
    ensures |steps| <= TotalWork(s.slots) && AtRest(s')
    ensures s'.refCount == TakenIn(ms) && s'.spawned == if s'.slots != [] && TakenIn(ms) == 0 then 1 else 0
  {
    ReachableInv(s);
    StepsAreBounded(s, steps, s');
    if !AtRest(s') {
      var i := SomeStepIsPossible(s');
      assert false;
    }
    hide Inv, Enabled, AtRest, TotalWork;
    RunJoins(INIT, ms, s, steps, s');
    StepsTakeNothing(ms, steps);
    CountIsTheCalls(ms + steps, s');
  }
}
