/**
  The user's actions over whole runs of a limited task queue: how often each one is called, and with what.
 */
module LimitedTaskQueueCalls {
  import opened Options
  import opened LimitedTaskQueue
  import SQ = SerialTaskQueueProtocol

  // ----- What can be seen to happen to an action -----

  ghost predicate IsActing(s: System, a: nat) {
    exists q: nat, i: nat :: ActingAt(s, a, q, i)
  }

  /** The action starts, a wrapper of it pauses its queue, a wrapper of it makes a Resumer for its queue. */
  datatype Event = Starts | Pauses | Hands

  /** The move is made by a wrapper of the action, in queue q. */
  ghost predicate IsFor(s: System, m: Move, a: nat)
    requires Enabled(s, m)
  {
    m.Execute? && s.queues[m.queue].acts[m.act].task.id == a
  }

  ghost predicate Happens(s: System, m: Move, a: nat, e: Event)
    requires Enabled(s, m)
  {
    var s' := Apply(s, m);
    match e
    case Starts => !IsActing(s, a) && IsActing(s', a)
    case Pauses => IsFor(s, m, a) && m.queue < |s'.queues| && s'.queues[m.queue].sh.pauseCount == s.queues[m.queue].sh.pauseCount + 1
    case Hands => IsFor(s, m, a) && s'.resumers == s.resumers + [Some(m.queue)]
  }

  ghost function Times(s: System, ms: seq<Move>, a: nat, e: Event): nat
    decreases |ms|
  {
    if ms == [] || !Enabled(s, ms[0]) then 0
    else (if Happens(s, ms[0], a, e) then 1 else 0) + Times(Apply(s, ms[0]), ms[1..], a, e)
  }

  // ----- Where an action is -----

  /** Where the wrapper of the action is, seen from the queue where it was claimed. */
  function SeenFrom(current: Option<SQ.Task>, now: Body, a: nat): Body {
    if current.Some? && current.value.id == a && now != Fresh then now else Ended
  }

  /** Where the wrapper that claimed the action is, if one has. */
  ghost function Where(s: System, a: nat): Option<Body> {
    if a >= |s.actions| || s.actions[a].winner.None? then None
    else
      var w := s.actions[a].winner.value;
      Some(if w < |s.queues| then SeenFrom(s.queues[w].current, Now(s.bodies, w), a) else Ended)
  }

  lemma ActingIsWhere(s: System, a: nat)
    requires QueuesInv(s) && ClaimInv(s)
    ensures IsActing(s, a) <==> Where(s, a) == Some(Acting)
  {
    if q: nat, i: nat :| ActingAt(s, a, q, i) {
      NowIsBodyOf(s, q, i);
      assert ClaimsAt(s.actions, q, s.queues[q], Now(s.bodies, q));
    }
    if Where(s, a) == Some(Acting) {
      var w := s.actions[a].winner.value;
      var i :| (w, i) in s.bodies && s.bodies[(w, i)] == Acting;
      OneRuns(s.queues[w], i, i);
      assert ActingAt(s, a, w, i);
    }
  }

  lemma SameWorkSameWhere(s: System, s': System, a: nat)
    requires SameWork(s, s') && s'.bodies == s.bodies
    ensures Where(s', a) == Where(s, a)
  {
  }

  lemma ResumersStayWhere(s: System, m: Move, a: nat)
    requires Inv(s) && Enabled(s, m) && (m.CopyResumer? || m.MoveResumer? || m.MoveAssign? || m.ResumeBy?)
    ensures Where(Apply(s, m), a) == Where(s, a)
  {
    var s' := Apply(s, m);
    assert SameWork(s, s') && s'.bodies == s.bodies by {
      match m
      case CopyResumer(i) => CopyKeepsPauses(s, i);
      case MoveResumer(i) =>
      case MoveAssign(i, j) => ResumedKeepsQueues(s, s.resumers[i]);
      case ResumeBy(i) => ResumedKeepsQueues(s, s.resumers[i]);
    }
    hide Inv, Apply, Enabled, Where;
    SameWorkSameWhere(s, s', a);
  }

  lemma CallsStayWhere(s: System, m: Move, a: nat)
    requires Inv(s) && Enabled(s, m) && (m.Call? || m.Spread?)
    ensures Where(Apply(s, m), a) == Where(s, a)
  {
    var s' := Apply(s, m);
    assert s'.bodies == s.bodies && |s'.queues| == |s.queues|;
    if m.Spread? {
      var n := s.actions[m.action].spread;
      SpreadQueueEffect(s.queues[n], SQ.Task(m.action, s.actions[m.action].group));
      assert forall q :: 0 <= q < |s.queues| ==> s'.queues[q].current == s.queues[q].current;
    }
    hide Inv, Enabled, SQ.Inv, Now;
  }

  lemma QueueStaysWhere(s: System, q: nat, i: nat, a: nat)
    requires Inv(s) && Enabled(s, InQueue(q, i))
    ensures Where(Apply(s, InQueue(q, i)), a) == Where(s, a)
  {
    var s' := Apply(s, InQueue(q, i));
    AdvanceEffect(s.queues[q], i);
    AdvanceKeepsQueues(s, q, i);
    assert s'.actions == s.actions && |s'.queues| == |s.queues|;
    assert forall r :: 0 <= r < |s.queues| && r != q ==> s'.queues[r] == s.queues[r];
    assert Now(s.bodies, q) != Fresh ==> exists j: nat :: RunningAt(s.queues[q], j);
    hide Inv, Enabled, Apply, SQ.Inv, Now;
  }

  // ----- The steps of a wrapper -----

  /** What comes after each place of a wrapper that has claimed its action. */
  function AfterWhere(b: Body): Body {
    match b
    case Won => Paused
    case Paused => Acting
    case _ => Ended
  }

  lemma WrapperEffect(s: System, q: nat, i: nat)
    requires Enabled(s, Execute(q, i))
    ensures var s', id, body := Apply(s, Execute(q, i)), s.queues[q].acts[i].task.id, BodyOf(s.bodies, q, i);
            if body.Fresh? && s.actions[id].winner.None? then
              && s'.actions == s.actions[id := s.actions[id].(winner := Some(q))]
              && BodyOf(s'.bodies, q, i) == if s.actions[id].pausing then Won else Acting
            else
              && s'.actions == s.actions && BodyOf(s'.bodies, q, i) == AfterWhere(body)
  {
  }

  /** The wrapper's own queue and entry are all that Where looks at. */
  lemma WhereAfter(s: System, s': System, q: nat, id: nat, body: Body, body': Body, a: nat)
    requires q < |s.queues| == |s'.queues| && id < |s.actions| && body' != Fresh
    requires forall r :: 0 <= r < |s.queues| ==> s'.queues[r].current == s.queues[r].current
    requires s.queues[q].current.Some? && s.queues[q].current.value.id == id
    requires Now(s.bodies, q) == body && Now(s'.bodies, q) == body'
    requires forall r :: 0 <= r < |s.queues| && r != q ==> Now(s'.bodies, r) == Now(s.bodies, r)
    requires !body.Ended? && (body.Fresh? || s.actions[id].winner == Some(q))
    requires if body.Fresh? && s.actions[id].winner.None? then s'.actions == s.actions[id := s.actions[id].(winner := Some(q))]
             else s'.actions == s.actions
    requires body.Fresh? && s.actions[id].winner.Some? ==> body' == Ended
    ensures Where(s', a) == if a != id || (Where(s, a).Some? && body.Fresh?) then Where(s, a) else Some(body')
    ensures a == id && !body.Fresh? ==> Where(s, a) == Some(body)
  {
    hide Now;
  }

  lemma WrapperStepsWhere(s: System, q: nat, i: nat, a: nat)
    requires Inv(s) && Enabled(s, Execute(q, i))
    ensures var s', id, body := Apply(s, Execute(q, i)), s.queues[q].acts[i].task.id, BodyOf(s.bodies, q, i);
            && (a != id || (Where(s, a).Some? && body.Fresh?) ==> Where(s', a) == Where(s, a))
            && (a == id && body.Fresh? && Where(s, a).None? ==> Where(s', a) == Some(if s.actions[a].pausing then Won else Acting))
            && (a == id && !body.Fresh? ==> Where(s, a) == Some(body) && Where(s', a) == Some(AfterWhere(body)))
  {
    var s', id, body := Apply(s, Execute(q, i)), s.queues[q].acts[i].task.id, BodyOf(s.bodies, q, i);
    BodyEffect(s, q, i);
    BodyKeepsQueues(s, q, i);
    WrapperEffect(s, q, i);
    assert ClaimsAt(s.actions, q, s.queues[q], Now(s.bodies, q));
    assert forall r :: 0 <= r < |s.queues| ==> s'.queues[r].current == s.queues[r].current;
    hide Inv, QueuesInv, SQ.Inv, Now, Apply, Enabled, BodyOf, KeepsRunning, Where;
    WhereAfter(s, s', q, id, body, BodyOf(s'.bodies, q, i), a);
    WhereNone(s, a);
  }

  lemma WhereNone(s: System, a: nat)
    ensures a < |s.actions| ==> (Where(s, a).None? <==> s.actions[a].winner.None?)
  {
  }

  // ----- Counting -----

  predicate HasHappenedAt(place: Body, pausing: bool, e: Event) {
    match e
    case Starts => place.Acting? || place.Ended?
    case Pauses => pausing && !place.Won?
    case Hands => pausing && (place.Acting? || place.Ended?)
  }

  ghost predicate HasHappened(s: System, a: nat, e: Event) {
    a < |s.actions| && Where(s, a).Some? && HasHappenedAt(Where(s, a).value, s.actions[a].pausing, e)
  }

  ghost function Once(b: bool): nat { if b then 1 else 0 }

  /** Only the wrappers of pushAndPause pause. */
  ghost predicate PausesWhenAsked(s: System, a: nat) {
    Where(s, a) == Some(Won) || Where(s, a) == Some(Paused) ==> a < |s.actions| && s.actions[a].pausing
  }

  ghost predicate CallsInv(s: System) {
    Inv(s) && forall a: nat :: PausesWhenAsked(s, a)
  }

  lemma ActionsStay(s: System, m: Move, a: nat)
    requires Enabled(s, m) && a < |s.actions|
    ensures var s' := Apply(s, m);
            && a < |s'.actions| && s'.actions[a].pausing == s.actions[a].pausing
            && s'.actions[a].group == s.actions[a].group && s'.actions[a].owner == s.actions[a].owner
  {
    if m.Execute? {
      WrapperEffect(s, m.queue, m.act);
    }
  }

  lemma OthersStayWhere(s: System, m: Move, a: nat)
    requires Inv(s) && Enabled(s, m) && !m.Execute?
    ensures Where(Apply(s, m), a) == Where(s, a)
  {
    match m
    case Call(_, _, _) => CallsStayWhere(s, m, a);
    case Spread(_) => CallsStayWhere(s, m, a);
    case InQueue(q, i) => QueueStaysWhere(s, q, i, a);
    case CopyResumer(_) => ResumersStayWhere(s, m, a);
    case MoveResumer(_) => ResumersStayWhere(s, m, a);
    case MoveAssign(_, _) => ResumersStayWhere(s, m, a);
    case ResumeBy(_) => ResumersStayWhere(s, m, a);
  }

  lemma NoneBeforeCall(s: System, a: nat)
    ensures a >= |s.actions| ==> Where(s, a).None?
  {
  }

  lemma OthersHappenNot(s: System, m: Move, a: nat, e: Event)
    requires CallsInv(s) && Enabled(s, m) && !m.Execute? && Inv(Apply(s, m))
    ensures !Happens(s, m, a, e) && (HasHappened(Apply(s, m), a, e) <==> HasHappened(s, a, e))
    ensures PausesWhenAsked(Apply(s, m), a)
  {
    OthersStayWhere(s, m, a);
    NoneBeforeCall(s, a);
    ActingIsWhere(s, a);
    ActingIsWhere(Apply(s, m), a);
    assert PausesWhenAsked(s, a);
    if a < |s.actions| { ActionsStay(s, m, a); }
    hide Inv, Where, IsActing, Apply, Enabled;
  }

  /** What can be seen to happen, by the place of the wrapper. */
  lemma WrapperShows(s: System, q: nat, i: nat, a: nat)
    requires Inv(s) && Enabled(s, Execute(q, i)) && Inv(Apply(s, Execute(q, i)))
    ensures var s', m, body := Apply(s, Execute(q, i)), Execute(q, i), BodyOf(s.bodies, q, i);
            && (Happens(s, m, a, Starts) <==> Where(s, a) != Some(Acting) && Where(s', a) == Some(Acting))
            && (Happens(s, m, a, Pauses) <==> s.queues[q].acts[i].task.id == a && body.Won?)
            && (Happens(s, m, a, Hands) <==> s.queues[q].acts[i].task.id == a && body.Paused?)
  {
    BodyPauses(s, q, i, q);
    ActingIsWhere(s, a);
    ActingIsWhere(Apply(s, Execute(q, i)), a);
    GrowsOrNot(s.resumers, Some(q));
    hide Inv, Where, IsActing, Apply, Enabled;
  }

  predicate Shows(w: Option<Body>, w': Option<Body>, own: bool, body: Body, e: Event) {
    match e
    case Starts => w != Some(Acting) && w' == Some(Acting)
    case Pauses => own && body.Won?
    case Hands => own && body.Paused?
  }

  lemma PlaceCounts(w: Option<Body>, w': Option<Body>, own: bool, body: Body, pausing: bool, e: Event)
    requires !own || (w.Some? && body.Fresh?) ==> w' == w
    requires own && body.Fresh? && w.None? ==> w' == Some(if pausing then Won else Acting)
    requires own && !body.Fresh? ==> w == Some(body) && w' == Some(AfterWhere(body)) && !body.Ended?
    requires w == Some(Won) || w == Some(Paused) ==> pausing
    ensures Once(w'.Some? && HasHappenedAt(w'.value, pausing, e))
         == Once(w.Some? && HasHappenedAt(w.value, pausing, e)) + Once(Shows(w, w', own, body, e))
    ensures w' == Some(Won) || w' == Some(Paused) ==> pausing
  {
  }

  lemma WrapperHappens(s: System, q: nat, i: nat, a: nat, e: Event)
    requires CallsInv(s) && Enabled(s, Execute(q, i)) && Inv(Apply(s, Execute(q, i)))
    ensures var s' := Apply(s, Execute(q, i));
            Once(HasHappened(s', a, e)) == Once(HasHappened(s, a, e)) + Once(Happens(s, Execute(q, i), a, e))
    ensures PausesWhenAsked(Apply(s, Execute(q, i)), a)
  {
    var s', body, id := Apply(s, Execute(q, i)), BodyOf(s.bodies, q, i), s.queues[q].acts[i].task.id;
    WrapperStepsWhere(s, q, i, a);
    WrapperShows(s, q, i, a);
    assert PausesWhenAsked(s, a) && id < |s.actions| && !body.Ended?;
    if a < |s.actions| {
      ActionsStay(s, Execute(q, i), a);
      PlaceCounts(Where(s, a), Where(s', a), a == id, body, s.actions[a].pausing, e);
    } else {
      NoneBeforeCall(s, a);
    }
    hide Inv, CallsInv, Where, Apply, Enabled, Happens, BodyOf, HasHappenedAt;
  }

  lemma GrowsOrNot<T>(xs: seq<T>, x: T)
    ensures xs + [x] != xs
  {
    assert |xs + [x]| != |xs|;
  }

  lemma MoveCounts(s: System, m: Move, a: nat, e: Event)
    requires CallsInv(s) && Enabled(s, m)
    ensures CallsInv(Apply(s, m))
    ensures Once(HasHappened(Apply(s, m), a, e)) == Once(HasHappened(s, a, e)) + Once(Happens(s, m, a, e))
  {
    MoveKeepsInv(s, m);
    hide Inv, Where, Apply, Enabled, Happens, HasHappened;
    forall b: nat ensures PausesWhenAsked(Apply(s, m), b) {
      if m.Execute? {
        WrapperHappens(s, m.queue, m.act, b, e);
      } else {
        OthersHappenNot(s, m, b, e);
      }
    }
    if m.Execute? {
      WrapperHappens(s, m.queue, m.act, a, e);
    } else {
      OthersHappenNot(s, m, a, e);
    }
  }

  lemma {:induction false} RunCounts(s: System, ms: seq<Move>, s': System, a: nat, e: Event)
    requires CallsInv(s) && Run(s, ms, s')
    ensures CallsInv(s') && Once(HasHappened(s', a, e)) == Once(HasHappened(s, a, e)) + Times(s, ms, a, e)
    decreases |ms|
  {
    if ms != [] {
      MoveCounts(s, ms[0], a, e);
      hide CallsInv, Apply, Enabled, Happens, HasHappened;
      RunCounts(Apply(s, ms[0]), ms[1..], s', a, e);
    }
  }

  lemma FromInit(n: nat, ms: seq<Move>, s: System, a: nat, e: Event)
    requires Run(Init(n), ms, s)
    ensures CallsInv(s) && Times(Init(n), ms, a, e) == Once(HasHappened(s, a, e))
  {
    InitInv(n);
    forall b: nat ensures Where(Init(n), b).None? {
      NoneBeforeCall(Init(n), b);
    }
    RunCounts(Init(n), ms, s, a, e);
  }

  // ----- Main results -----

  /** In every run, every action is started at most once; and while it is running, its queue has been paused for it and
      a Resumer made for it, once each, if it was pushed by pushAndPause, and otherwise not at all. */
  lemma StartedAtMostOnce(n: nat, ms: seq<Move>, s: System, a: nat)
    requires Run(Init(n), ms, s)
    ensures Times(Init(n), ms, a, Starts) <= 1
    ensures IsActing(s, a) ==>
              && a < |s.actions| && Times(Init(n), ms, a, Starts) == 1
              && Times(Init(n), ms, a, Pauses) == Times(Init(n), ms, a, Hands) == if s.actions[a].pausing then 1 else 0
  {
    FromInit(n, ms, s, a, Starts);
    FromInit(n, ms, s, a, Pauses);
    FromInit(n, ms, s, a, Hands);
    NoneBeforeCall(s, a);
    ActingIsWhere(s, a);
  }

  lemma WhereAtRest(s: System, a: nat)
    requires Inv(s) && Quiescent(s) && a < |s.actions|
    ensures Where(s, a) == (if a in s.claims then Some(Ended) else None)
  {
    if s.actions[a].winner.Some? {
      NobodyExecutes(s, s.actions[a].winner.value);
    }
    assert a in s.claims <==> multiset(s.claims)[a] > 0;
  }

  /** When a run has come to rest, an action has not been started exactly when its wrapper still waits in every queue,
      and then every queue is paused; otherwise it has been started once, with its pause and its Resumer if it asked for
      them. */
  lemma RestMeansStartedOrWaiting(n: nat, ms: seq<Move>, s: System, a: nat)
    requires Run(Init(n), ms, s) && Quiescent(s) && a < |s.actions|
    ensures |s.queues| == n
    ensures Times(Init(n), ms, a, Starts) == if forall q :: 0 <= q < n ==> Has(s.queues[q].sh.tasks, a) then 0 else 1
    ensures Times(Init(n), ms, a, Starts) == 0 ==> forall q :: 0 <= q < n ==> s.queues[q].sh.pauseCount > 0
    ensures Times(Init(n), ms, a, Pauses) == Times(Init(n), ms, a, Hands)
         == if s.actions[a].pausing then Times(Init(n), ms, a, Starts) else 0
  {
    FromInit(n, ms, s, a, Starts);
    FromInit(n, ms, s, a, Pauses);
    FromInit(n, ms, s, a, Hands);
    ReachableInv(n, s);
    UnrunMeansAllPaused(n, s, a);
    WhereAtRest(s, a);
  }

  /** When the Resumers are gone and nothing is under way, every action has been started exactly once. */
  lemma RestMeansAllStarted(n: nat, ms: seq<Move>, s: System, a: nat)
    requires n > 0 && Run(Init(n), ms, s) && Quiescent(s) && a < |s.actions|
    requires forall i :: 0 <= i < |s.resumers| ==> s.resumers[i].None?
    ensures Times(Init(n), ms, a, Starts) == 1
    ensures Times(Init(n), ms, a, Pauses) == Times(Init(n), ms, a, Hands) == if s.actions[a].pausing then 1 else 0
  {
    RestMeansStartedOrWaiting(n, ms, s, a);
    ReachableInv(n, s);
    EmptyAtRest(s, 0);
  }

  /** An action that has been started was running in some state on the way. */
  lemma {:induction false} StartedSomewhere(s: System, ms: seq<Move>, s': System, a: nat)
      returns (k: nat, s1: System, q: nat, i: nat)
    requires Run(s, ms, s') && Times(s, ms, a, Starts) > 0
    ensures k <= |ms| && Run(s, ms[..k], s1) && Run(s1, ms[k..], s') && ActingAt(s1, a, q, i)
    decreases |ms|
  {
    var s0 := Apply(s, ms[0]);
    if Happens(s, ms[0], a, Starts) {
      k, s1 := 1, s0;
      q, i :| ActingAt(s1, a, q, i);
      assert ms[..1] == [ms[0]] && ms[..1][1..] == [];
      assert Run(s0, [], s0);
    } else {
      k, s1, q, i := StartedSomewhere(s0, ms[1..], s', a);
      assert ms[..k + 1][1..] == ms[1..][..k] && ms[k + 1..] == ms[1..][k..];
      k := k + 1;
    }
  }

  // ----- With what an action is called -----

  /** The calls of push and pushAndPause in a run. */
  function CallsIn(ms: seq<Move>): seq<Move> {
    if ms == [] then [] else (if ms[0].Call? then [ms[0]] else []) + CallsIn(ms[1..])
  }

  /** The actions are those of the calls, in their order. */
  ghost predicate FromCalls(actions: seq<Action>, calls: seq<Move>) {
    && |actions| == |calls|
    && forall a :: 0 <= a < |calls| ==>
         calls[a] == Call(actions[a].owner, actions[a].group, actions[a].pausing)
  }

  lemma ActionCount(s: System, m: Move)
    requires Enabled(s, m)
    ensures |Apply(s, m).actions| == |s.actions| + if m.Call? then 1 else 0
    ensures m.Call? ==> var x := Apply(s, m).actions[|s.actions|]; x.owner == m.owner && x.group == m.group && x.pausing == m.pausing
  {
    if m.Execute? {
      WrapperEffect(s, m.queue, m.act);
    }
  }

  lemma MoveKeepsFromCalls(s: System, m: Move, before: seq<Move>)
    requires Enabled(s, m) && FromCalls(s.actions, before)
    ensures FromCalls(Apply(s, m).actions, before + if m.Call? then [m] else [])
  {
    ActionCount(s, m);
    forall a | 0 <= a < |s.actions|
      ensures var x := Apply(s, m).actions[a];
              x.owner == s.actions[a].owner && x.group == s.actions[a].group && x.pausing == s.actions[a].pausing
    {
      ActionsStay(s, m, a);
    }
    hide Apply, Enabled;
  }

  lemma {:induction false} RunKeepsFromCalls(s: System, ms: seq<Move>, s': System, before: seq<Move>)
    requires FromCalls(s.actions, before) && Run(s, ms, s')
    ensures FromCalls(s'.actions, before + CallsIn(ms))
    decreases |ms|
  {
    hide Apply, Enabled, FromCalls;
    if ms != [] {
      var calls := before + if ms[0].Call? then [ms[0]] else [];
      MoveKeepsFromCalls(s, ms[0], before);
      RunKeepsFromCalls(Apply(s, ms[0]), ms[1..], s', calls);
      assert calls + CallsIn(ms[1..]) == before + CallsIn(ms);
    } else {
      assert before + CallsIn(ms) == before;
    }
  }

  lemma ChosenWasPushed(q: SQ.Queue, i: nat)
    requires SQ.Inv(q) && RunningAt(q, i)
    ensures q.acts[i].task in q.pushed && q.acts[i].task.group == q.acts[i].group
  {
    assert SQ.HasTask(q.acts[i]);
    assert q.pushed[|q.finished|] == q.acts[i].task;
  }

  /** The actions of a run are those of its calls, in order, with the owners, groups and kinds of the calls; and each
      wrapper, in whichever queue, runs in a thread of its action's group. */
  lemma RunsInItsGroup(n: nat, ms: seq<Move>, s: System, q: nat, i: nat)
    requires Run(Init(n), ms, s)
    ensures FromCalls(s.actions, CallsIn(ms))
    ensures q < |s.queues| && RunningAt(s.queues[q], i) ==>
              var x := s.queues[q].acts[i]; x.task.id < |s.actions| && x.group == s.actions[x.task.id].group
  {
    ReachableInv(n, s);
    RunKeepsFromCalls(Init(n), ms, s, []);
    assert [] + CallsIn(ms) == CallsIn(ms);
    if q < |s.queues| && RunningAt(s.queues[q], i) {
      ChosenWasPushed(s.queues[q], i);
      var k :| 0 <= k < |s.queues[q].pushed| && s.queues[q].pushed[k] == s.queues[q].acts[i].task;
    }
  }

  // ----- What is done with Resumers -----

  /** How often the queue has to be resumed by Resumer k. */
  function Owes(s: System, k: nat, q: nat): nat {
    if k < |s.resumers| && s.resumers[k] == Some(q) then 1 else 0
  }

  /** A Resumer that is copied owes what it did, and its copy the same; one that is moved hands on what it owes; one that
      is assigned to takes over what the other owes; and one that resumes owes nothing more. */
  lemma ResumersPassOn(s: System, m: Move, k: nat, q: nat)
    requires Enabled(s, m)
    ensures var s', next := Apply(s, m), |s.resumers|;
            match m
            case CopyResumer(i) => Owes(s', k, q) == (if k == next then Owes(s, i, q) else Owes(s, k, q))
            case MoveResumer(i) => Owes(s', k, q) == (if k == next then Owes(s, i, q) else if k == i then 0 else Owes(s, k, q))
            case MoveAssign(i, j) => Owes(s', k, q) == (if k == j then 0 else if k == i then Owes(s, j, q) else Owes(s, k, q))
            case ResumeBy(i) => Owes(s', k, q) == (if k == i then 0 else Owes(s, k, q))
            case _ => k < next ==> Owes(s', k, q) == Owes(s, k, q)
  {
    hide SQ.Apply;
    if m.Execute? {
      BodyPauses(s, m.queue, m.act, m.queue);
    }
  }

  /** A copy pauses the queue once more, an assignment or a resume pays what was owed, and a move does neither. */
  lemma ResumersPay(s: System, m: Move, q: nat)
    requires Inv(s) && Enabled(s, m) && q < |s.queues| && (m.CopyResumer? || m.MoveResumer? || m.MoveAssign? || m.ResumeBy?)
    ensures |Apply(s, m).queues| == |s.queues|
    ensures Apply(s, m).queues[q].sh.pauseCount
         == s.queues[q].sh.pauseCount + (if m.CopyResumer? then Owes(s, m.i, q) else 0)
                                      - (if m.MoveAssign? || m.ResumeBy? then Owes(s, m.i, q) else 0)
  {
    if m.MoveAssign? || m.ResumeBy? {
      ResumedKeepsQueues(s, s.resumers[m.i]);
    }
    hide Inv, SQ.Inv, QueuesInv;
  }
}
