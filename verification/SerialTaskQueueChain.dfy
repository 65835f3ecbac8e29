/**
  Chains of serial queues.  Queues are numbered in the order that every chain lists them in, so a chain is a
  non-empty strictly increasing sequence of queue numbers.  Chains may share queues in any way.

  Each queue is the full interleaved protocol of SerialTaskQueueProtocol.  The body of a queued task (passDownChain
  or actionToRun) moves one queue operation at a time, interleaved with everything else.
 */
module SerialTaskQueueChain {
  import opened Options
  import SQ = SerialTaskQueueProtocol

  type Chains = seq<seq<nat>>

  ghost predicate WellFormed(cs: Chains, n: nat) {
    forall c :: 0 <= c < |cs| ==>
      && cs[c] != []
      && (forall k :: 0 <= k < |cs[c]| ==> cs[c][k] < n)
      && (forall j, k :: 0 <= j < k < |cs[c]| ==> cs[c][j] < cs[c][k])
  }

  /** How far an action has come.  Positions count along the queues of its chain. */
  datatype Phase =
    | Entering               // counted as outstanding, not yet pushed to the first queue
    | At(pos: nat)           // its task for this position is queued, chosen, or running and has done nothing yet
    | Holding(pos: nat)      // its task has paused the queue at this position and is about to push to the next
    | Acting                 // the user's action is running in the last queue
    | Resuming(left: nat)    // the sentry has still to resume this many queues, last but one first
    | Left                   // no longer outstanding

  datatype Action = Action(chain: nat, group: nat, phase: Phase)

  datatype System = System(
    queues: seq<SQ.Queue>,
    actions: seq<Action>,
    outstanding: seq<nat>,
    ran: seq<nat>)           // history: the actions in the order in which they began to run

  datatype Move =
    | Call(chain: nat, group: nat)        // SerialTaskQueueChain::push, up to ++m_outstandingTasks
    | Enter(action: nat)                  // its push to the first queue
    | Body(action: nat)                   // the next queue operation of the task that carries the action
    | InQueue(queue: nat, act: nat)       // one access of the queue's own protocol

  function Init(cs: Chains, n: nat): System {
    System(seq(n, i => SQ.INIT), [], seq(|cs|, i => 0), [])
  }

  // ----- Where an action is -----

  function Last(cs: Chains, a: Action): int
    requires a.chain < |cs|
  {
    |cs[a.chain]| - 1
  }

  predicate Valid(cs: Chains, a: Action) {
    && a.chain < |cs|
    && cs[a.chain] != []
    && match a.phase
       case At(k) => k <= Last(cs, a)
       case Holding(k) => k < Last(cs, a)
       case Resuming(j) => j <= Last(cs, a)
       case _ => true
  }

  /** The action is carried by a task of some queue that has still to do something for it. */
  predicate Carried(a: Action) {
    !a.phase.Entering? && !a.phase.Left?
  }

  function Position(cs: Chains, a: Action): nat
    requires Valid(cs, a) && Carried(a)
  {
    match a.phase
    case At(k) => k
    case Holding(k) => k
    case Acting => Last(cs, a)
    case Resuming(_) => Last(cs, a)
  }

  /** The queue whose task carries the action. */
  function Home(cs: Chains, a: Action): nat
    requires Valid(cs, a) && Carried(a)
  {
    cs[a.chain][Position(cs, a)]
  }

  /** The queue's task for this action has done all it does for it. */
  predicate Ended(cs: Chains, a: Action, q: nat)
    requires Valid(cs, a)
  {
    Carried(a) ==> Home(cs, a) != q
  }

  function TaskOf(actions: seq<Action>, a: nat): SQ.Task
    requires a < |actions|
  {
    SQ.Task(a, actions[a].group)
  }

  ghost predicate RunningIn(q: SQ.Queue, a: nat) {
    exists i :: 0 <= i < |q.acts| && q.acts[i].Running? && q.acts[i].task.id == a
  }

  // ----- The moves -----

  ghost predicate Enabled(cs: Chains, s: System, m: Move) {
    match m
    case Call(c, _) => c < |cs| && c < |s.outstanding|
    case Enter(a) =>
      && a < |s.actions| && Valid(cs, s.actions[a]) && s.actions[a].phase.Entering?
      && cs[s.actions[a].chain][0] < |s.queues|
    case Body(a) =>
      && a < |s.actions| && Valid(cs, s.actions[a]) && Carried(s.actions[a])
      && Home(cs, s.actions[a]) < |s.queues| && RunningIn(s.queues[Home(cs, s.actions[a])], a)
      && BodyCanMove(cs, s, s.actions[a])
    case InQueue(q, i) =>
      && q < |s.queues| && SQ.Enabled(s.queues[q], SQ.Advance(i))
      && (s.queues[q].acts[i].Running? ==>
            var a := s.queues[q].acts[i].task.id;
            a < |s.actions| && Valid(cs, s.actions[a]) && Ended(cs, s.actions[a], q))
  }

  /** The operands exist, and a resume balances an earlier pause. */
  predicate BodyCanMove(cs: Chains, s: System, a: Action)
    requires Valid(cs, a)
  {
    match a.phase
    case Holding(k) => cs[a.chain][k + 1] < |s.queues|
    case Resuming(j) =>
      if j == 0 then a.chain < |s.outstanding| && s.outstanding[a.chain] > 0
      else cs[a.chain][j - 1] < |s.queues| && SQ.Enabled(s.queues[cs[a.chain][j - 1]], SQ.Resume)
    case _ => true
  }

  function OnQueue(s: System, q: nat, m: SQ.Move): System
    requires q < |s.queues| && SQ.Enabled(s.queues[q], m)
  {
    s.(queues := s.queues[q := SQ.Apply(s.queues[q], m)])
  }

  function ToPhase(s: System, a: nat, p: Phase): System
    requires a < |s.actions|
  {
    s.(actions := s.actions[a := s.actions[a].(phase := p)])
  }

  ghost function Apply(cs: Chains, s: System, m: Move): System
    requires Enabled(cs, s, m)
  {
    match m
    case Call(c, g) =>
      s.(actions := s.actions + [Action(c, g, Entering)], outstanding := s.outstanding[c := s.outstanding[c] + 1])
    case Enter(a) =>
      ToPhase(OnQueue(s, cs[s.actions[a].chain][0], SQ.Push(TaskOf(s.actions, a))), a, At(0))
    case Body(a) => BodyStep(cs, s, a)
    case InQueue(q, i) => OnQueue(s, q, SQ.Advance(i))
  }

  /** passDownChain and actionToRun.  The action may return or throw: its sentry does the same in both cases. */
  ghost function BodyStep(cs: Chains, s: System, a: nat): System
    requires Enabled(cs, s, Body(a))
  {
    var act := s.actions[a];
    var queues := cs[act.chain];
    match act.phase
    case At(k) =>
      if k == Last(cs, act) then ToPhase(s, a, Acting).(ran := s.ran + [a])
      else ToPhase(OnQueue(s, queues[k], SQ.Pause), a, Holding(k))
    case Holding(k) => ToPhase(OnQueue(s, queues[k + 1], SQ.Push(TaskOf(s.actions, a))), a, At(k + 1))
    case Acting => ToPhase(s, a, Resuming(Last(cs, act)))
    case Resuming(j) =>
      if j == 0 then ToPhase(s, a, Left).(outstanding := s.outstanding[act.chain := s.outstanding[act.chain] - 1])
      else ToPhase(OnQueue(s, queues[j - 1], SQ.Resume), a, Resuming(j - 1))
  }

  // ----- Counting over the actions -----

  /** How many queues at the front of its chain the action has paused and not yet resumed. */
  function Paused(cs: Chains, a: Action): nat
    requires Valid(cs, a)
  {
    match a.phase
    case At(k) => k
    case Holding(k) => k + 1
    case Acting => Last(cs, a)
    case Resuming(j) => j
    case _ => 0
  }

  predicate Pauses(cs: Chains, a: Action, q: nat)
    requires Valid(cs, a)
  {
    q in cs[a.chain][..Paused(cs, a)]
  }

  /** Operations the action still has ahead. */
  function Remaining(cs: Chains, a: Action): nat
    requires Valid(cs, a)
  {
    match a.phase
    case Entering => 3 * Last(cs, a) + 4
    case At(k) => 2 * (Last(cs, a) - k) + Last(cs, a) + 3
    case Holding(k) => 2 * (Last(cs, a) - k) + Last(cs, a) + 2
    case Acting => Last(cs, a) + 2
    case Resuming(j) => j + 1
    case Left => 0
  }

  datatype Quantity = PausesOf(queue: nat) | OutstandingOf(chain: nat) | StepsAhead

  function Amount(cs: Chains, a: Action, what: Quantity): nat {
    if !Valid(cs, a) then 0 else
    match what
    case PausesOf(q) => if Pauses(cs, a, q) then 1 else 0
    case OutstandingOf(c) => if a.chain == c && !a.phase.Left? then 1 else 0
    case StepsAhead => Remaining(cs, a)
  }

  function Total(cs: Chains, actions: seq<Action>, what: Quantity): nat {
    if actions == [] then 0
    else Total(cs, actions[..|actions| - 1], what) + Amount(cs, actions[|actions| - 1], what)
  }

  lemma {:induction false} TotalUpdate(cs: Chains, actions: seq<Action>, i: nat, a: Action, what: Quantity)
    requires i < |actions|
    ensures Total(cs, actions[i := a], what)
         == Total(cs, actions, what) - Amount(cs, actions[i], what) + Amount(cs, a, what)
    ensures Amount(cs, actions[i], what) <= Total(cs, actions, what)
  {
    var n := |actions| - 1;
    if i < n {
      assert actions[i := a][..n] == actions[..n][i := a];
      TotalUpdate(cs, actions[..n], i, a, what);
    } else {
      assert actions[i := a][..n] == actions[..n];
    }
  }

  lemma {:induction false} TotalPositive(cs: Chains, actions: seq<Action>, what: Quantity) returns (i: nat)
    requires Total(cs, actions, what) > 0
    ensures i < |actions| && Amount(cs, actions[i], what) > 0
  {
    i := |actions| - 1;
    if Amount(cs, actions[i], what) == 0 {
      i := TotalPositive(cs, actions[..i], what);
    }
  }

  lemma {:induction false} TotalZero(cs: Chains, actions: seq<Action>, what: Quantity)
    requires forall i :: 0 <= i < |actions| ==> Amount(cs, actions[i], what) == 0
    ensures Total(cs, actions, what) == 0
  {
    if actions != [] {
      TotalZero(cs, actions[..|actions| - 1], what);
    }
  }

  // ----- The invariant -----

  function Unfinished(q: SQ.Queue): seq<SQ.Task> {
    SQ.AsSeq(q.current) + q.sh.tasks
  }

  ghost predicate QueuesInv(s: System) {
    forall q :: 0 <= q < |s.queues| ==> SQ.Inv(s.queues[q])
  }

  ghost predicate Shape(cs: Chains, s: System) {
    && WellFormed(cs, |s.queues|)
    && |s.outstanding| == |cs|
    && (forall a :: 0 <= a < |s.actions| ==> Valid(cs, s.actions[a]))
    && (forall q, i :: 0 <= q < |s.queues| && 0 <= i < |s.queues[q].pushed| ==>
          && s.queues[q].pushed[i].id < |s.actions|
          && s.queues[q].pushed[i].group == s.actions[s.queues[q].pushed[i].id].group)
  }

  /** Every carried action has its task in its home queue, running there if it has begun to do anything. */
  ghost predicate Located(cs: Chains, s: System)
    requires Shape(cs, s)
  {
    forall a :: 0 <= a < |s.actions| && Carried(s.actions[a]) ==> LocatedAt(cs, s, a)
  }

  ghost predicate LocatedAt(cs: Chains, s: System, a: nat)
    requires Shape(cs, s) && a < |s.actions| && Carried(s.actions[a])
  {
    var q := s.queues[Home(cs, s.actions[a])];
    && TaskOf(s.actions, a) in Unfinished(q)
    && (s.actions[a].phase.At? || RunningIn(q, a))
  }

  /** Pause and outstanding counts are exactly what the actions account for. */
  ghost predicate Conserved(cs: Chains, s: System)
    requires Shape(cs, s)
  {
    && (forall q :: 0 <= q < |s.queues| ==> s.queues[q].sh.pauseCount == Total(cs, s.actions, PausesOf(q)))
    && (forall c :: 0 <= c < |cs| ==> s.outstanding[c] == Total(cs, s.actions, OutstandingOf(c)))
  }

  ghost predicate Inv(cs: Chains, s: System) {
    Shape(cs, s) && QueuesInv(s) && Located(cs, s) && Conserved(cs, s)
  }

  /** What one access does to the tasks of a queue. */
  lemma RunningEnds(q: SQ.Queue, i: nat)
    requires SQ.ChosenIsHeld(q) && SQ.Enabled(q, SQ.Advance(i)) && q.acts[i].Running?
    ensures var q' := SQ.Step(q, i);
            && q.current == Some(q.acts[i].task) && q'.current.None?
            && q'.finished == q.finished + [q.acts[i].task] && q'.sh.tasks == q.sh.tasks
  {
    assert SQ.HasTask(q.acts[i]);
  }

  lemma OthersFinishNothing(q: SQ.Queue, i: nat)
    requires SQ.Conserved(q) && SQ.Enabled(q, SQ.Advance(i)) && SQ.Conserved(SQ.Step(q, i)) && !q.acts[i].Running?
    ensures var q' := SQ.Step(q, i); q'.finished == q.finished && Unfinished(q') == Unfinished(q)
  {
    FinishedIsUntouched(q, i);
    SplitAfter(q.pushed, q.finished, Unfinished(q), Unfinished(SQ.Step(q, i)));
  }

  lemma AdvanceEffect(q: SQ.Queue, i: nat)
    requires SQ.Inv(q) && SQ.Enabled(q, SQ.Advance(i))
    ensures var q' := SQ.Step(q, i);
            && SQ.Inv(q') && q'.pushed == q.pushed && q'.sh.pauseCount == q.sh.pauseCount
            && (if q.acts[i].Running? then q.current == Some(q.acts[i].task) && q'.current.None?
                  && q'.finished == q.finished + [q.acts[i].task] && q'.sh.tasks == q.sh.tasks
                else q'.finished == q.finished && Unfinished(q') == Unfinished(q))
  {
    SQ.MoveKeepsInv(q, SQ.Advance(i));
    if q.acts[i].Running? {
      RunningEnds(q, i);
    } else {
      OthersFinishNothing(q, i);
    }
    hide SQ.Exclusion, SQ.ChosenIsHeld, SQ.StartedInOrder, SQ.NoLostWakeup, Unfinished;
  }

  lemma FinishedIsUntouched(q: SQ.Queue, i: nat)
    requires SQ.Enabled(q, SQ.Advance(i)) && !q.acts[i].Running?
    ensures SQ.Step(q, i).finished == q.finished && SQ.Step(q, i).pushed == q.pushed
  {
  }

  lemma SplitAfter<T>(whole: seq<T>, front: seq<T>, back: seq<T>, back': seq<T>)
    requires whole == front + back == front + back'
    ensures back == back'
  {
    assert back == whole[|front|..] == back';
  }

  lemma AdvanceLeavesRunning(q: SQ.Queue, i: nat, a: nat)
    requires SQ.Enabled(q, SQ.Advance(i)) && RunningIn(q, a) && !(q.acts[i].Running? && q.acts[i].task.id == a)
    ensures RunningIn(SQ.Step(q, i), a)
  {
    var j :| 0 <= j < |q.acts| && q.acts[j].Running? && q.acts[j].task.id == a;
    assert SQ.Step(q, i).acts[j] == q.acts[j];
  }

  /** Calls on a queue from outside leave its own activities as they are. */
  lemma CallEffect(q: SQ.Queue, m: SQ.Move)
    requires SQ.Inv(q) && SQ.Enabled(q, m) && !m.Advance?
    ensures SQ.Inv(SQ.Apply(q, m))
    ensures Unfinished(SQ.Apply(q, m)) == Unfinished(q) + (if m.Push? then [m.task] else [])
    ensures forall a :: RunningIn(q, a) ==> RunningIn(SQ.Apply(q, m), a)
  {
    var q' := SQ.Apply(q, m);
    SQ.MoveKeepsInv(q, m);
    forall a | RunningIn(q, a) ensures RunningIn(q', a) {
      var j :| 0 <= j < |q.acts| && q.acts[j].Running? && q.acts[j].task.id == a;
      assert q'.acts[j] == q.acts[j];
    }
  }

  lemma InQueueKeepsInv(cs: Chains, s: System, q: nat, i: nat)
    requires Inv(cs, s) && Enabled(cs, s, InQueue(q, i))
    ensures Inv(cs, Apply(cs, s, InQueue(q, i)))
  {
    var s' := Apply(cs, s, InQueue(q, i));
    AdvanceEffect(s.queues[q], i);
    assert Shape(cs, s');
    forall a | 0 <= a < |s'.actions| && Carried(s'.actions[a])
      ensures LocatedAt(cs, s', a)
    {
      assert LocatedAt(cs, s, a);
      if Home(cs, s.actions[a]) == q && RunningIn(s.queues[q], a) && !s.actions[a].phase.At? {
        AdvanceLeavesRunning(s.queues[q], i, a);
      }
    }
  }

  lemma CallKeepsInv(cs: Chains, s: System, c: nat, g: nat)
    requires Inv(cs, s) && Enabled(cs, s, Call(c, g))
    ensures Inv(cs, Apply(cs, s, Call(c, g)))
  {
    var s' := Apply(cs, s, Call(c, g));
    assert s'.actions[..|s.actions|] == s.actions;
    assert Shape(cs, s');
    forall a | 0 <= a < |s'.actions| && Carried(s'.actions[a])
      ensures LocatedAt(cs, s', a)
    {
      assert LocatedAt(cs, s, a);
    }
  }

  /** Being one position further accounts for one more paused queue. */
  lemma OneMorePaused(cs: Chains, n: nat, a: Action, p: Phase)
    requires WellFormed(cs, n) && Valid(cs, a) && Valid(cs, a.(phase := p))
    requires Paused(cs, a.(phase := p)) == Paused(cs, a) + 1
    ensures forall q {:trigger PausesOf(q)} ::
              Amount(cs, a.(phase := p), PausesOf(q))
              == Amount(cs, a, PausesOf(q)) + (if q == cs[a.chain][Paused(cs, a)] then 1 else 0)
  {
    var queues, k := cs[a.chain], Paused(cs, a);
    assert queues[..k + 1] == queues[..k] + [queues[k]];
    assert queues[k] !in queues[..k];
    forall q: nat {:trigger PausesOf(q)}
      ensures Amount(cs, a.(phase := p), PausesOf(q))
              == Amount(cs, a, PausesOf(q)) + (if q == queues[k] then 1 else 0)
    {
      assert q in queues[..k + 1] <==> q in queues[..k] || q == queues[k];
    }
  }

  /** A change of phase counts for exactly its own difference. */
  lemma PhaseKeepsConserved(cs: Chains, s: System, a: nat, s': System)
    requires Shape(cs, s) && Conserved(cs, s) && Shape(cs, s') && a < |s.actions|
    requires |s'.queues| == |s.queues| && |s'.actions| == |s.actions|
    requires s'.actions == s.actions[a := s'.actions[a]]
    requires forall q {:trigger PausesOf(q)} :: 0 <= q < |s.queues| ==>
               Amount(cs, s'.actions[a], PausesOf(q)) + s.queues[q].sh.pauseCount
               == Amount(cs, s.actions[a], PausesOf(q)) + s'.queues[q].sh.pauseCount
    requires forall c {:trigger OutstandingOf(c)} :: 0 <= c < |cs| ==>
               Amount(cs, s'.actions[a], OutstandingOf(c)) + s.outstanding[c]
               == Amount(cs, s.actions[a], OutstandingOf(c)) + s'.outstanding[c]
    ensures Conserved(cs, s')
  {
    forall q | 0 <= q < |s.queues| ensures s'.queues[q].sh.pauseCount == Total(cs, s'.actions, PausesOf(q)) {
      TotalUpdate(cs, s.actions, a, s'.actions[a], PausesOf(q));
    }
    forall c | 0 <= c < |cs| ensures s'.outstanding[c] == Total(cs, s'.actions, OutstandingOf(c)) {
      TotalUpdate(cs, s.actions, a, s'.actions[a], OutstandingOf(c));
    }
  }

  /** A queue call made for one action leaves every other action where it is. */
  lemma OthersStay(cs: Chains, s: System, a: nat, p: Phase, q: nat, m: SQ.Move, s': System)
    requires Shape(cs, s) && QueuesInv(s) && Located(cs, s)
    requires a < |s.actions| && q < |s.queues| && SQ.Enabled(s.queues[q], m) && !m.Advance?
    requires s' == ToPhase(OnQueue(s, q, m), a, p) && Valid(cs, s'.actions[a])
    requires m.Push? ==> m.task == TaskOf(s.actions, a)
    ensures Shape(cs, s') && QueuesInv(s')
    ensures forall b :: 0 <= b < |s'.actions| && b != a && Carried(s'.actions[b]) ==> LocatedAt(cs, s', b)
  {
    CallEffect(s.queues[q], m);
    assert Shape(cs, s') && QueuesInv(s');
    hide QueuesInv, SQ.Inv;
    forall b | 0 <= b < |s'.actions| && b != a && Carried(s'.actions[b])
      ensures LocatedAt(cs, s', b)
    {
      OtherStays(cs, s, a, p, q, m, s', b);
    }
  }

  lemma OtherStays(cs: Chains, s: System, a: nat, p: Phase, q: nat, m: SQ.Move, s': System, b: nat)
    requires Shape(cs, s) && Shape(cs, s') && QueuesInv(s) && Located(cs, s)
    requires a < |s.actions| && q < |s.queues| && SQ.Enabled(s.queues[q], m) && !m.Advance?
    requires s' == ToPhase(OnQueue(s, q, m), a, p)
    requires b < |s'.actions| && b != a && Carried(s'.actions[b])
    ensures LocatedAt(cs, s', b)
  {
    CallEffect(s.queues[q], m);
    assert LocatedAt(cs, s, b);
    hide Shape, QueuesInv, SQ.Inv, SQ.Apply, SQ.Enabled;
  }

  /** Pausing or resuming a queue leaves the action running where it is. */
  lemma ActionStays(cs: Chains, s: System, a: nat, p: Phase, q: nat, m: SQ.Move, s': System)
    requires Shape(cs, s) && Shape(cs, s') && QueuesInv(s) && Located(cs, s)
    requires a < |s.actions| && q < |s.queues| && SQ.Enabled(s.queues[q], m) && (m.Pause? || m.Resume?)
    requires s' == ToPhase(OnQueue(s, q, m), a, p) && Valid(cs, s'.actions[a])
    requires Carried(s.actions[a]) && Carried(s'.actions[a]) && Home(cs, s.actions[a]) == Home(cs, s'.actions[a])
    requires RunningIn(s.queues[Home(cs, s.actions[a])], a)
    ensures LocatedAt(cs, s', a)
  {
    CallEffect(s.queues[q], m);
    assert LocatedAt(cs, s, a);
  }

  lemma PushKeepsInv(cs: Chains, s: System, a: nat, k: nat)
    requires Inv(cs, s) && a < |s.actions| && s.actions[a].phase == (if k == 0 then Entering else Holding(k - 1))
    requires k < |cs[s.actions[a].chain]|
    ensures var q := cs[s.actions[a].chain][k];
            Inv(cs, ToPhase(OnQueue(s, q, SQ.Push(TaskOf(s.actions, a))), a, At(k)))
  {
    hide RunningIn, Conserved;
    var q := cs[s.actions[a].chain][k];
    var m := SQ.Push(TaskOf(s.actions, a));
    var s' := ToPhase(OnQueue(s, q, m), a, At(k));
    OthersStay(cs, s, a, At(k), q, m, s');
    CallEffect(s.queues[q], m);
    assert LocatedAt(cs, s', a);
    PhaseKeepsConserved(cs, s, a, s');
  }

  lemma HoldKeepsInv(cs: Chains, s: System, a: nat)
    requires Inv(cs, s) && Enabled(cs, s, Body(a)) && s.actions[a].phase.At?
    requires s.actions[a].phase.pos < Last(cs, s.actions[a])
    ensures Inv(cs, BodyStep(cs, s, a))
  {
    hide QueuesInv;
    var act := s.actions[a];
    var k := act.phase.pos;
    var s' := BodyStep(cs, s, a);
    OthersStay(cs, s, a, Holding(k), cs[act.chain][k], SQ.Pause, s');
    ActionStays(cs, s, a, Holding(k), cs[act.chain][k], SQ.Pause, s');
    OneMorePaused(cs, |s.queues|, act, Holding(k));
    PhaseKeepsConserved(cs, s, a, s');
  }

  lemma ResumeKeepsInv(cs: Chains, s: System, a: nat)
    requires Inv(cs, s) && Enabled(cs, s, Body(a)) && s.actions[a].phase.Resuming?
    requires s.actions[a].phase.left > 0
    ensures Inv(cs, BodyStep(cs, s, a))
  {
    hide SQ.Inv, Conserved;
    var act := s.actions[a];
    var j := act.phase.left - 1;
    var s' := BodyStep(cs, s, a);
    OthersStay(cs, s, a, Resuming(j), cs[act.chain][j], SQ.Resume, s');
    ActionStays(cs, s, a, Resuming(j), cs[act.chain][j], SQ.Resume, s');
    assert s'.actions[a].(phase := act.phase) == act;
    OneMorePaused(cs, |s.queues|, s'.actions[a], act.phase);
    PhaseKeepsConserved(cs, s, a, s');
  }

  lemma BodyKeepsInv(cs: Chains, s: System, a: nat)
    requires Inv(cs, s) && Enabled(cs, s, Body(a))
    ensures Inv(cs, BodyStep(cs, s, a))
  {
    hide Conserved, QueuesInv;
    var act := s.actions[a];
    match act.phase
    case At(k) =>
      if k == Last(cs, act) {
        PhaseKeepsInv(cs, s, a, Acting, s.ran + [a], BodyStep(cs, s, a));
      } else {
        HoldKeepsInv(cs, s, a);
      }
    case Holding(k) => PushKeepsInv(cs, s, a, k + 1);
    case Acting => PhaseKeepsInv(cs, s, a, Resuming(Last(cs, act)), s.ran, BodyStep(cs, s, a));
    case Resuming(j) =>
      if j == 0 {
        LeaveKeepsInv(cs, s, a);
      } else {
        ResumeKeepsInv(cs, s, a);
      }
  }

  /** A step in the last queue that calls no queue operation. */
  lemma PhaseKeepsInv(cs: Chains, s: System, a: nat, p: Phase, ran: seq<nat>, s': System)
    requires Inv(cs, s) && a < |s.actions| && s' == ToPhase(s, a, p).(ran := ran)
    requires Valid(cs, s'.actions[a]) && (p.Acting? || p.Resuming?) && Carried(s.actions[a])
    requires Home(cs, s.actions[a]) == Home(cs, s'.actions[a]) && RunningIn(s.queues[Home(cs, s.actions[a])], a)
    requires Paused(cs, s.actions[a]) == Paused(cs, s'.actions[a])
    ensures Inv(cs, s')
  {
    assert Shape(cs, s');
    forall b | 0 <= b < |s'.actions| && Carried(s'.actions[b])
      ensures LocatedAt(cs, s', b)
    {
      assert LocatedAt(cs, s, b);
    }
    PhaseKeepsConserved(cs, s, a, s');
  }

  lemma LeaveKeepsInv(cs: Chains, s: System, a: nat)
    requires Inv(cs, s) && Enabled(cs, s, Body(a)) && s.actions[a].phase == Resuming(0)
    ensures Inv(cs, BodyStep(cs, s, a))
  {
    var s' := BodyStep(cs, s, a);
    assert Shape(cs, s');
    forall b | 0 <= b < |s'.actions| && Carried(s'.actions[b])
      ensures LocatedAt(cs, s', b)
    {
      assert LocatedAt(cs, s, b);
    }
    PhaseKeepsConserved(cs, s, a, s');
  }

  lemma InitInv(cs: Chains, n: nat)
    requires WellFormed(cs, n)
    ensures Inv(cs, Init(cs, n))
  {
    var s := Init(cs, n);
    EmptyQueueIsSound();
    hide WellFormed, SQ.Inv, LocatedAt;
    assert |s.queues| == n && s.actions == [] && Shape(cs, s);
    assert QueuesInv(s) && Located(cs, s);
    hide Shape, QueuesInv, Located;
    assert Conserved(cs, s);
  }

  lemma EmptyQueueIsSound()
    ensures SQ.Inv(SQ.INIT) && SQ.INIT.pushed == [] && SQ.INIT.sh.pauseCount == 0
  {
  }

  lemma MoveKeepsInv(cs: Chains, s: System, m: Move)
    requires Inv(cs, s) && Enabled(cs, s, m)
    ensures Inv(cs, Apply(cs, s, m))
  {
    match m
    case Call(c, g) => CallKeepsInv(cs, s, c, g);
    case Enter(a) => PushKeepsInv(cs, s, a, 0);
    case Body(a) => BodyKeepsInv(cs, s, a);
    case InQueue(q, i) => InQueueKeepsInv(cs, s, q, i);
  }

  // ----- Whole runs -----

  ghost predicate Run(cs: Chains, s: System, ms: seq<Move>, s': System)
    decreases |ms|
  {
    if ms == [] then s == s' else Enabled(cs, s, ms[0]) && Run(cs, Apply(cs, s, ms[0]), ms[1..], s')
  }

  ghost predicate Reachable(cs: Chains, n: nat, s: System) {
    exists ms :: Run(cs, Init(cs, n), ms, s)
  }

  lemma {:induction false} RunKeepsInv(cs: Chains, s: System, ms: seq<Move>, s': System)
    requires Inv(cs, s) && Run(cs, s, ms, s')
    ensures Inv(cs, s') && |s'.queues| == |s.queues|
    decreases |ms|
  {
    if ms != [] {
      MoveKeepsInv(cs, s, ms[0]);
      RunKeepsInv(cs, Apply(cs, s, ms[0]), ms[1..], s');
    }
  }

  lemma ReachableInv(cs: Chains, n: nat, s: System)
    requires WellFormed(cs, n) && Reachable(cs, n, s)
    ensures Inv(cs, s) && |s.queues| == n
  {
    var ms :| Run(cs, Init(cs, n), ms, s);
    InitInv(cs, n);
    RunKeepsInv(cs, Init(cs, n), ms, s);
  }

  /** No call and no runner is in the middle of anything. */
  ghost predicate Quiescent(s: System) {
    && (forall q :: 0 <= q < |s.queues| ==> SQ.Quiescent(s.queues[q]))
    && (forall a :: 0 <= a < |s.actions| ==> !s.actions[a].phase.Entering?)
  }

  /** In a quiescent state an action still carried waits, untouched, in the FIFO of its home queue. */
  lemma CarriedWaits(cs: Chains, s: System, a: nat)
    requires Inv(cs, s) && Quiescent(s) && a < |s.actions| && Carried(s.actions[a])
    ensures s.actions[a].phase.At? && s.queues[Home(cs, s.actions[a])].sh.tasks != []
  {
    assert LocatedAt(cs, s, a);
  }

  /** Whoever keeps a queue paused in a quiescent state waits in a later queue. */
  lemma PausedMeansLaterWork(cs: Chains, s: System, q: nat) returns (r: nat)
    requires Inv(cs, s) && Quiescent(s) && q < |s.queues| && s.queues[q].sh.pauseCount > 0
    ensures q < r < |s.queues| && s.queues[r].sh.tasks != []
  {
    var a := TotalPositive(cs, s.actions, PausesOf(q));
    CarriedWaits(cs, s, a);
    var act := s.actions[a];
    r := Home(cs, act);
    var j :| 0 <= j < Paused(cs, act) && cs[act.chain][..Paused(cs, act)][j] == q;
  }

  /** The greatest non-empty queue cannot be paused, so there is none. */
  lemma {:induction false} EmptyFrom(cs: Chains, s: System, q: nat)
    requires Inv(cs, s) && Quiescent(s) && q <= |s.queues|
    ensures forall r :: q <= r < |s.queues| ==> s.queues[r].sh.tasks == []
    decreases |s.queues| - q
  {
    if q < |s.queues| {
      EmptyFrom(cs, s, q + 1);
      if s.queues[q].sh.pauseCount > 0 {
        var r := PausedMeansLaterWork(cs, s, q);
      }
    }
  }

  lemma InvAndQuiescentMeanComplete(cs: Chains, s: System)
    requires Inv(cs, s) && Quiescent(s)
    ensures forall q :: 0 <= q < |s.queues| ==> s.queues[q].sh.tasks == [] && s.queues[q].sh.pauseCount == 0
    ensures forall c :: 0 <= c < |cs| ==> s.outstanding[c] == 0
    ensures forall a :: 0 <= a < |s.actions| ==> s.actions[a].phase.Left?
  {
    EmptyFrom(cs, s, 0);
    forall a | 0 <= a < |s.actions| ensures s.actions[a].phase.Left? {
      if Carried(s.actions[a]) {
        CarriedWaits(cs, s, a);
      }
    }
    forall q | 0 <= q < |s.queues| ensures s.queues[q].sh.pauseCount == 0 {
      TotalZero(cs, s.actions, PausesOf(q));
    }
    forall c | 0 <= c < |cs| ensures s.outstanding[c] == 0 {
      TotalZero(cs, s.actions, OutstandingOf(c));
    }
  }

  /** No reachable state is stuck: when nothing is under way, every queue is empty and unpaused, nothing is
      outstanding, and every action pushed to any chain has left. */
  lemma QuiescentMeansComplete(cs: Chains, n: nat, s: System)
    requires WellFormed(cs, n) && Reachable(cs, n, s) && Quiescent(s)
    ensures |s.queues| == n && |s.outstanding| == |cs|
    ensures forall q :: 0 <= q < n ==> s.queues[q].sh.tasks == [] && s.queues[q].sh.pauseCount == 0
    ensures forall c :: 0 <= c < |cs| ==> s.outstanding[c] == 0
    ensures forall a :: 0 <= a < |s.actions| ==> s.actions[a].phase.Left?
  {
    ReachableInv(cs, n, s);
    InvAndQuiescentMeanComplete(cs, s);
  }

  /** For throwing actions too: each queue is paused exactly as often as there are actions that paused it and have
      not resumed it, and each chain's outstanding count is its number of actions that have not left. */
  lemma PausesAreAccountedFor(cs: Chains, n: nat, s: System)
    requires WellFormed(cs, n) && Reachable(cs, n, s)
    ensures |s.queues| == n && |s.outstanding| == |cs|
    ensures forall q :: 0 <= q < n ==> s.queues[q].sh.pauseCount == Total(cs, s.actions, PausesOf(q))
    ensures forall c :: 0 <= c < |cs| ==> s.outstanding[c] == Total(cs, s.actions, OutstandingOf(c))
  {
    ReachableInv(cs, n, s);
  }
}
