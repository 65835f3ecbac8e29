/**
  LimitedTaskQueue: every action is wrapped once for each of N serial queues, and the first wrapper to be executed
  claims the action.  Each queue is the full interleaved protocol of SerialTaskQueueProtocol.
 */
module LimitedTaskQueue {
  import opened Options
  import SQ = SerialTaskQueueProtocol

  /** An action pushed by a thread.  `spread` counts the queues that have got its wrapper so far; `winner` is the
      queue whose wrapper set the shared flag. */
  datatype Action = Action(owner: nat, group: nat, pausing: bool, spread: nat, winner: Option<nat>)

  /** Where an activity executing a wrapper is. */
  datatype Body =
    | Fresh     // about to compare-exchange the shared flag
    | Won       // set the flag; pushAndPause is about to pause the queue
    | Paused    // paused the queue; about to make the Resumer and call the action
    | Acting    // the action is running
    | Ended

  datatype System = System(
    queues: seq<SQ.Queue>,
    bodies: map<(nat, nat), Body>,   // by queue and activity; an activity at the start of its wrapper has no entry
    actions: seq<Action>,
    resumers: seq<Option<nat>>,   // every Resumer made so far with the queue it still has to resume
    claims: seq<nat>)             // history: actions in the order in which they were claimed

  datatype Move =
    | Call(owner: nat, group: nat, pausing: bool)   // push or pushAndPause is entered
    | Spread(action: nat)                           // the loop pushes a wrapper into the next queue
    | InQueue(queue: nat, act: nat)                 // one access of a queue's own protocol
    | Execute(queue: nat, act: nat)                 // the next operation of the wrapper that an activity is running
    | CopyResumer(i: nat)
    | MoveResumer(i: nat)
    | MoveAssign(i: nat, j: nat)                    // resumer i = std::move(resumer j)
    | ResumeBy(i: nat)                              // resume() or the destructor

  function Init(n: nat): System {
    System(seq(n, i => SQ.INIT), map[], [], [], [])
  }

  ghost predicate RunningAt(q: SQ.Queue, i: nat) {
    i < |q.acts| && q.acts[i].Running?
  }

  /** Whoever runs a task in q still runs it in q'. */
  ghost predicate KeepsRunning(q: SQ.Queue, q': SQ.Queue) {
    forall i: nat :: RunningAt(q, i) ==> RunningAt(q', i) && q'.acts[i] == q.acts[i]
  }

  function BodyOf(bodies: map<(nat, nat), Body>, q: nat, i: nat): Body {
    if (q, i) in bodies then bodies[(q, i)] else Fresh
  }

  predicate CanResume(s: System, r: Option<nat>) {
    r.Some? ==> r.value < |s.queues| && SQ.Enabled(s.queues[r.value], SQ.Resume)
  }

  ghost predicate Enabled(s: System, m: Move) {
    match m
    case Call(o, _, _) => forall a :: 0 <= a < |s.actions| && s.actions[a].owner == o ==> s.actions[a].spread == |s.queues|
    case Spread(a) => a < |s.actions| && s.actions[a].spread < |s.queues|
    case InQueue(q, i) =>
      && q < |s.queues| && SQ.Enabled(s.queues[q], SQ.Advance(i))
      && (s.queues[q].acts[i].Running? ==> BodyOf(s.bodies, q, i).Ended?)
    case Execute(q, i) =>
      && q < |s.queues| && RunningAt(s.queues[q], i) && !BodyOf(s.bodies, q, i).Ended?
      && s.queues[q].acts[i].task.id < |s.actions|
    case CopyResumer(i) => i < |s.resumers| && (s.resumers[i].Some? ==> s.resumers[i].value < |s.queues|)
    case MoveResumer(i) => i < |s.resumers|
    case MoveAssign(i, j) => i < |s.resumers| && j < |s.resumers| && CanResume(s, s.resumers[i])
    case ResumeBy(i) => i < |s.resumers| && CanResume(s, s.resumers[i])
  }

  function OnQueue(s: System, q: nat, m: SQ.Move): System
    requires q < |s.queues| && SQ.Enabled(s.queues[q], m)
  {
    s.(queues := s.queues[q := SQ.Apply(s.queues[q], m)])
  }

  function Resumed(s: System, r: Option<nat>): System
    requires CanResume(s, r)
  {
    if r.None? then s else OnQueue(s, r.value, SQ.Resume)
  }

  ghost function Apply(s: System, m: Move): System
    requires Enabled(s, m)
  {
    match m
    case Call(o, g, p) => s.(actions := s.actions + [Action(o, g, p, 0, None)])
    case Spread(a) =>
      var act := s.actions[a];
      OnQueue(s, act.spread, SQ.Push(SQ.Task(a, act.group))).(actions := s.actions[a := act.(spread := act.spread + 1)])
    case InQueue(q, i) =>
      OnQueue(s, q, SQ.Advance(i)).(bodies := s.bodies - {(q, i)})
    case Execute(q, i) => ExecuteStep(s, q, i)
    case CopyResumer(i) =>
      var s' := s.(resumers := s.resumers + [s.resumers[i]]);
      if s.resumers[i].None? then s' else OnQueue(s', s.resumers[i].value, SQ.Pause)
    case MoveResumer(i) => s.(resumers := s.resumers[i := None] + [s.resumers[i]])
    case MoveAssign(i, j) =>
      Resumed(s, s.resumers[i]).(resumers := s.resumers[i := s.resumers[j]][j := None])
    case ResumeBy(i) => Resumed(s, s.resumers[i]).(resumers := s.resumers[i := None])
  }

  /** The lambda that push and pushAndPause put into each queue. */
  ghost function ExecuteStep(s: System, q: nat, i: nat): System
    requires Enabled(s, Execute(q, i))
  {
    var a := s.queues[q].acts[i].task.id;
    match BodyOf(s.bodies, q, i)
    case Fresh =>
      if s.actions[a].winner.Some? then s.(bodies := s.bodies[(q, i) := Ended])
      else s.(bodies := s.bodies[(q, i) := if s.actions[a].pausing then Won else Acting],
              actions := s.actions[a := s.actions[a].(winner := Some(q))],
              claims := s.claims + [a])
    case Won => OnQueue(s, q, SQ.Pause).(bodies := s.bodies[(q, i) := Paused])
    case Paused => s.(bodies := s.bodies[(q, i) := Acting], resumers := s.resumers + [Some(q)])
    case Acting => s.(bodies := s.bodies[(q, i) := Ended])
  }

  // ----- One wrapper at a time in a queue -----

  /** Only running activities are inside a wrapper. */
  ghost predicate QueuesInv(s: System) {
    && (forall q :: 0 <= q < |s.queues| ==> SQ.Inv(s.queues[q]))
    && (forall q, i :: (q, i) in s.bodies ==> q < |s.queues| && RunningAt(s.queues[q], i) && s.bodies[(q, i)] != Fresh)
  }

  /** The serial queue lets one activity run at a time, and that one runs the chosen task. */
  lemma OneRuns(q: SQ.Queue, i: nat, j: nat)
    requires SQ.Inv(q) && RunningAt(q, i) && RunningAt(q, j)
    ensures i == j && q.current == Some(q.acts[i].task)
  {
    assert SQ.Holds(q.acts[i]) && SQ.Holds(q.acts[j]) && SQ.HasTask(q.acts[i]);
  }

  /** How far the wrapper being executed in a queue is, if one is. */
  ghost function Now(bodies: map<(nat, nat), Body>, q: nat): Body {
    if exists i :: (q, i) in bodies then
      var i :| (q, i) in bodies;
      bodies[(q, i)]
    else Fresh
  }

  lemma NowIsBodyOf(s: System, q: nat, i: nat)
    requires QueuesInv(s) && q < |s.queues| && RunningAt(s.queues[q], i)
    ensures Now(s.bodies, q) == BodyOf(s.bodies, q, i) && s.queues[q].current == Some(s.queues[q].acts[i].task)
  {
    OneRuns(s.queues[q], i, i);
    forall j | (q, j) in s.bodies ensures j == i {
      OneRuns(s.queues[q], i, j);
    }
  }

  /** What happens in one queue does not show in another. */
  lemma NowElsewhere(s: System, s': System, q: nat, r: nat)
    requires QueuesInv(s) && QueuesInv(s') && |s'.queues| == |s.queues| && r < |s.queues| && r != q
    requires forall j :: (r, j) in s.bodies <==> (r, j) in s'.bodies
    requires forall j :: (r, j) in s.bodies ==> s'.bodies[(r, j)] == s.bodies[(r, j)]
    ensures Now(s'.bodies, r) == Now(s.bodies, r)
  {
    if i :| (r, i) in s.bodies {
      NowIsBodyOf(s, r, i);
      NowIsBodyOf(s', r, i);
    }
  }

  // ----- Pause conservation -----

  function Holding(resumers: seq<Option<nat>>, q: nat): nat {
    if resumers == [] then 0
    else Holding(resumers[..|resumers| - 1], q) + if resumers[|resumers| - 1] == Some(q) then 1 else 0
  }

  lemma {:induction false} HoldingUpdate(resumers: seq<Option<nat>>, i: nat, r: Option<nat>, q: nat)
    requires i < |resumers|
    ensures Holding(resumers[i := r], q)
         == Holding(resumers, q) - (if resumers[i] == Some(q) then 1 else 0) + (if r == Some(q) then 1 else 0)
    ensures resumers[i] == Some(q) ==> Holding(resumers, q) > 0
  {
    var n := |resumers| - 1;
    if i < n {
      assert resumers[i := r][..n] == resumers[..n][i := r];
      HoldingUpdate(resumers[..n], i, r, q);
    } else {
      assert resumers[i := r][..n] == resumers[..n];
    }
  }

  lemma HoldingAppend(resumers: seq<Option<nat>>, r: Option<nat>, q: nat)
    ensures Holding(resumers + [r], q) == Holding(resumers, q) + if r == Some(q) then 1 else 0
  {
    assert (resumers + [r])[..|resumers|] == resumers;
  }

  /** Each queue is paused once for every Resumer that still has to resume it, and once while a Resumer is made. */
  ghost predicate PausesConserved(s: System) {
    && (forall q :: 0 <= q < |s.queues| ==>
          s.queues[q].sh.pauseCount == Holding(s.resumers, q) + if Now(s.bodies, q).Paused? then 1 else 0)
    && (forall i :: 0 <= i < |s.resumers| && s.resumers[i].Some? ==> s.resumers[i].value < |s.queues|)
  }

  // ----- The invariant -----

  /** The queue has been given, once each, the wrappers of exactly the actions spread beyond it. */
  ghost predicate SpreadTo(actions: seq<Action>, q: nat, pushed: seq<SQ.Task>) {
    && (forall i :: 0 <= i < |pushed| ==>
          pushed[i].id < |actions| && q < actions[pushed[i].id].spread && pushed[i].group == actions[pushed[i].id].group)
    && (forall a :: 0 <= a < |actions| && q < actions[a].spread ==> Has(pushed, a))
    && (forall i, j :: 0 <= i < j < |pushed| ==> pushed[i].id != pushed[j].id)
  }

  ghost predicate SpreadInv(s: System) {
    && (forall q :: 0 <= q < |s.queues| ==> SpreadTo(s.actions, q, s.queues[q].pushed))
    && (forall a :: 0 <= a < |s.actions| ==> s.actions[a].spread <= |s.queues|)
  }

  ghost predicate Has(ts: seq<SQ.Task>, a: nat) {
    exists i :: 0 <= i < |ts| && ts[i].id == a
  }

  /** Every wrapper executed so far found its action claimed or claimed it, and only the winner runs it. */
  ghost predicate ClaimsAt(actions: seq<Action>, q: nat, x: SQ.Queue, body: Body) {
    && (forall i :: 0 <= i < |x.finished| ==> x.finished[i].id < |actions| && actions[x.finished[i].id].winner.Some?)
    && (body != Fresh ==> x.current.Some? && x.current.value.id < |actions| && actions[x.current.value.id].winner.Some?)
    && (body != Fresh && body != Ended ==> actions[x.current.value.id].winner == Some(q))
    && (forall a :: 0 <= a < |actions| && actions[a].winner == Some(q) ==>
          Has(x.finished, a) || (body != Fresh && x.current.value.id == a))
  }

  ghost predicate ClaimInv(s: System) {
    && (forall q :: 0 <= q < |s.queues| ==> ClaimsAt(s.actions, q, s.queues[q], Now(s.bodies, q)))
    && (forall a :: 0 <= a < |s.actions| && s.actions[a].winner.Some? ==> s.actions[a].winner.value < |s.queues|)
    && (forall i :: 0 <= i < |s.claims| ==> s.claims[i] < |s.actions|)
    && (forall a :: 0 <= a < |s.actions| ==> multiset(s.claims)[a] == if s.actions[a].winner.Some? then 1 else 0)
  }

  /** An action can only be entered when its thread is done spreading the ones before it. */
  ghost predicate OneCallPerThread(s: System) {
    forall a, b :: 0 <= a < b < |s.actions| && s.actions[a].owner == s.actions[b].owner ==>
      s.actions[a].spread == |s.queues|
  }

  /** In every queue, and in the history of claims, a thread's actions come in the order of its calls. */
  ghost predicate InCallOrder(actions: seq<Action>, ids: seq<nat>) {
    forall j, a :: 0 <= j < |ids| && 0 <= a < ids[j] < |actions| && actions[a].owner == actions[ids[j]].owner ==>
      a in ids[..j]
  }

  function Ids(ts: seq<SQ.Task>): (r: seq<nat>) {
    seq(|ts|, i requires 0 <= i < |ts| => ts[i].id)
  }

  ghost predicate OrderInv(s: System) {
    && OneCallPerThread(s)
    && (forall q :: 0 <= q < |s.queues| ==> InCallOrder(s.actions, Ids(s.queues[q].pushed)))
    && InCallOrder(s.actions, s.claims)
  }

  ghost predicate Inv(s: System) {
    QueuesInv(s) && SpreadInv(s) && PausesConserved(s) && ClaimInv(s) && OrderInv(s)
  }

  // ----- Steps of the resumers -----

  /** Pausing or resuming a queue changes nothing but its pause count and adds at most a pick. */
  lemma PauseOrResumeEffect(q: SQ.Queue, m: SQ.Move)
    requires SQ.Inv(q) && SQ.Enabled(q, m) && (m.Pause? || m.Resume?)
    ensures var q' := SQ.Apply(q, m);
            && SQ.Inv(q') && q'.pushed == q.pushed && q'.finished == q.finished && q'.current == q.current
            && q'.sh.tasks == q.sh.tasks && KeepsRunning(q, q')
  {
    var q' := SQ.Apply(q, m);
    SQ.MoveKeepsInv(q, m);
  }

  /** What the other invariants look at is untouched. */
  ghost predicate SameWork(s: System, s': System) {
    && |s'.queues| == |s.queues| && s'.actions == s.actions && s'.claims == s.claims
    && (forall q :: 0 <= q < |s.queues| ==>
          && s'.queues[q].pushed == s.queues[q].pushed && s'.queues[q].finished == s.queues[q].finished
          && s'.queues[q].current == s.queues[q].current)
  }

  /** The claims at a queue depend on its finished and chosen tasks, the winners, and how far the wrapper is. */
  lemma SameClaimsAt(actions: seq<Action>, actions': seq<Action>, q: nat, x: SQ.Queue, x': SQ.Queue, b: Body, b': Body)
    requires ClaimsAt(actions, q, x, b) && x'.finished == x.finished && x'.current == x.current
    requires |actions'| == |actions| && forall a :: 0 <= a < |actions| ==> actions'[a].winner == actions[a].winner
    requires (b == Fresh <==> b' == Fresh) && (b == Ended ==> b' == Ended)
    ensures ClaimsAt(actions', q, x', b')
  {
  }

  lemma SameWorkKeepsClaims(s: System, s': System)
    requires ClaimInv(s) && SameWork(s, s')
    requires forall q :: 0 <= q < |s.queues| ==>
               (Now(s.bodies, q) == Fresh <==> Now(s'.bodies, q) == Fresh) && (Now(s.bodies, q) == Ended ==> Now(s'.bodies, q) == Ended)
    ensures ClaimInv(s')
  {
    forall q | 0 <= q < |s.queues| ensures ClaimsAt(s'.actions, q, s'.queues[q], Now(s'.bodies, q)) {
      SameClaimsAt(s.actions, s'.actions, q, s.queues[q], s'.queues[q], Now(s.bodies, q), Now(s'.bodies, q));
    }
  }

  lemma SameWorkKeepsOrder(s: System, s': System)
    requires SpreadInv(s) && OrderInv(s) && SameWork(s, s')
    ensures SpreadInv(s') && OrderInv(s')
  {
    forall q | 0 <= q < |s.queues|
      ensures SpreadTo(s'.actions, q, s'.queues[q].pushed) && InCallOrder(s'.actions, Ids(s'.queues[q].pushed))
    {
      assert SpreadTo(s.actions, q, s.queues[q].pushed) && InCallOrder(s.actions, Ids(s.queues[q].pushed));
    }
  }

  lemma SameWorkKeepsInv(s: System, s': System)
    requires Inv(s) && SameWork(s, s') && QueuesInv(s') && PausesConserved(s') && s'.bodies == s.bodies
    ensures Inv(s')
  {
    SameWorkKeepsClaims(s, s');
    SameWorkKeepsOrder(s, s');
  }

  lemma ResumedKeepsQueues(s: System, r: Option<nat>)
    requires QueuesInv(s) && CanResume(s, r)
    ensures QueuesInv(Resumed(s, r)) && SameWork(s, Resumed(s, r)) && Resumed(s, r).bodies == s.bodies
    ensures forall q :: 0 <= q < |s.queues| ==>
              Resumed(s, r).queues[q].sh.pauseCount == s.queues[q].sh.pauseCount - if r == Some(q) then 1 else 0
  {
    if r.Some? {
      PauseOrResumeEffect(s.queues[r.value], SQ.Resume);
    }
  }

  lemma CopyKeepsPauses(s: System, i: nat)
    requires QueuesInv(s) && PausesConserved(s) && Enabled(s, CopyResumer(i))
    ensures var s' := Apply(s, CopyResumer(i));
            QueuesInv(s') && SameWork(s, s') && s'.bodies == s.bodies && PausesConserved(s')
  {
    var s' := Apply(s, CopyResumer(i));
    var r := s.resumers[i];
    if r.Some? {
      PauseOrResumeEffect(s.queues[r.value], SQ.Pause);
    }
    forall q | 0 <= q < |s.queues| ensures Holding(s'.resumers, q) == Holding(s.resumers, q) + if r == Some(q) then 1 else 0 {
      HoldingAppend(s.resumers, r, q);
    }
  }

  lemma CopyKeepsInv(s: System, i: nat)
    requires Inv(s) && Enabled(s, CopyResumer(i))
    ensures Inv(Apply(s, CopyResumer(i)))
  {
    CopyKeepsPauses(s, i);
    SameWorkKeepsInv(s, Apply(s, CopyResumer(i)));
  }

  lemma MoveResumerKeepsInv(s: System, i: nat)
    requires Inv(s) && Enabled(s, MoveResumer(i))
    ensures Inv(Apply(s, MoveResumer(i)))
  {
    var s' := Apply(s, MoveResumer(i));
    forall q | 0 <= q < |s.queues| ensures Holding(s'.resumers, q) == Holding(s.resumers, q) {
      HoldingUpdate(s.resumers, i, None, q);
      HoldingAppend(s.resumers[i := None], s.resumers[i], q);
    }
    SameWorkKeepsInv(s, s');
  }

  /** The assigned-to Resumer resumes its queue first; also when a Resumer is moved to itself. */
  lemma MoveAssignKeepsInv(s: System, i: nat, j: nat)
    requires Inv(s) && Enabled(s, MoveAssign(i, j))
    ensures Inv(Apply(s, MoveAssign(i, j)))
  {
    hide QueuesInv;
    var s' := Apply(s, MoveAssign(i, j));
    ResumedKeepsQueues(s, s.resumers[i]);
    forall q | 0 <= q < |s.queues|
      ensures Holding(s'.resumers, q) == Holding(s.resumers, q) - if s.resumers[i] == Some(q) then 1 else 0
    {
      HoldingUpdate(s.resumers, i, s.resumers[j], q);
      HoldingUpdate(s.resumers[i := s.resumers[j]], j, None, q);
    }
    SameWorkKeepsInv(s, s');
  }

  lemma ResumeByKeepsInv(s: System, i: nat)
    requires Inv(s) && Enabled(s, ResumeBy(i))
    ensures Inv(Apply(s, ResumeBy(i)))
  {
    var s' := Apply(s, ResumeBy(i));
    ResumedKeepsQueues(s, s.resumers[i]);
    forall q | 0 <= q < |s.queues|
      ensures Holding(s'.resumers, q) == Holding(s.resumers, q) - if s.resumers[i] == Some(q) then 1 else 0
    {
      HoldingUpdate(s.resumers, i, None, q);
    }
    SameWorkKeepsInv(s, s');
  }

  // ----- Steps of pushing -----

  lemma CallKeepsAt(actions: seq<Action>, act: Action, q: nat, x: SQ.Queue, body: Body)
    requires act.spread == 0 && act.winner.None?
    requires SpreadTo(actions, q, x.pushed) && ClaimsAt(actions, q, x, body) && InCallOrder(actions, Ids(x.pushed))
    ensures SpreadTo(actions + [act], q, x.pushed) && ClaimsAt(actions + [act], q, x, body)
    ensures InCallOrder(actions + [act], Ids(x.pushed))
  {
    var ids := Ids(x.pushed);
    forall j, a | 0 <= j < |ids| && 0 <= a < ids[j] < |actions| + 1
                  && (actions + [act])[a].owner == (actions + [act])[ids[j]].owner
      ensures a in ids[..j]
    {
      assert ids[j] == x.pushed[j].id;
    }
  }

  lemma CallKeepsInv(s: System, o: nat, g: nat, p: bool)
    requires Inv(s) && Enabled(s, Call(o, g, p))
    ensures Inv(Apply(s, Call(o, g, p)))
  {
    var s' := Apply(s, Call(o, g, p));
    assert QueuesInv(s') && PausesConserved(s');
    forall q | 0 <= q < |s.queues|
      ensures SpreadTo(s'.actions, q, s'.queues[q].pushed) && ClaimsAt(s'.actions, q, s'.queues[q], Now(s'.bodies, q))
      ensures InCallOrder(s'.actions, Ids(s'.queues[q].pushed))
    {
      CallKeepsAt(s.actions, Action(o, g, p, 0, None), q, s.queues[q], Now(s.bodies, q));
    }
    CallKeepsHistory(s, o, g, p);
  }

  lemma CallKeepsHistory(s: System, o: nat, g: nat, p: bool)
    requires ClaimInv(s) && OrderInv(s) && Enabled(s, Call(o, g, p))
    ensures var s' := Apply(s, Call(o, g, p));
            && OneCallPerThread(s') && InCallOrder(s'.actions, s'.claims)
            && (forall a :: 0 <= a < |s'.actions| ==>
                  multiset(s'.claims)[a] == if s'.actions[a].winner.Some? then 1 else 0)
  {
    assert |s.actions| !in s.claims;
  }

  /** Appending an id all of whose predecessors are there keeps the order. */
  lemma AppendInCallOrder(actions: seq<Action>, ids: seq<nat>, x: nat)
    requires InCallOrder(actions, ids) && x < |actions|
    requires forall a :: 0 <= a < x && actions[a].owner == actions[x].owner ==> a in ids
    ensures InCallOrder(actions, ids + [x])
  {
    var more := ids + [x];
    forall j, a | 0 <= j < |more| && 0 <= a < more[j] < |actions| && actions[a].owner == actions[more[j]].owner
      ensures a in more[..j]
    {
      assert more[..j] == ids[..j];
    }
  }

  /** The order looks at owners only. */
  lemma SameOwnersInCallOrder(actions: seq<Action>, actions': seq<Action>, ids: seq<nat>)
    requires InCallOrder(actions, ids) && |actions'| == |actions|
    requires forall a :: 0 <= a < |actions| ==> actions'[a].owner == actions[a].owner
    ensures InCallOrder(actions', ids)
  {
  }

  lemma SpreadQueueEffect(q: SQ.Queue, t: SQ.Task)
    requires SQ.Inv(q)
    ensures var q' := SQ.Apply(q, SQ.Push(t));
            && SQ.Inv(q') && q'.pushed == q.pushed + [t] && q'.finished == q.finished && q'.current == q.current
            && q'.sh.pauseCount == q.sh.pauseCount && KeepsRunning(q, q')
  {
    var q' := SQ.Apply(q, SQ.Push(t));
    SQ.MoveKeepsInv(q, SQ.Push(t));
  }

  lemma SpreadToNext(actions: seq<Action>, q: nat, pushed: seq<SQ.Task>, a: nat)
    requires SpreadTo(actions, q, pushed) && a < |actions|
    ensures var actions' := actions[a := actions[a].(spread := actions[a].spread + 1)];
            if q == actions[a].spread then SpreadTo(actions', q, pushed + [SQ.Task(a, actions[a].group)])
            else SpreadTo(actions', q, pushed)
  {
    var actions' := actions[a := actions[a].(spread := actions[a].spread + 1)];
    if q == actions[a].spread {
      var pushed' := pushed + [SQ.Task(a, actions[a].group)];
      forall b | 0 <= b < |actions'| && q < actions'[b].spread ensures Has(pushed', b) {
        if b == a {
          assert pushed'[|pushed|].id == a;
        } else {
          assert Has(pushed, b);
          var i :| 0 <= i < |pushed| && pushed[i].id == b;
          assert pushed'[i].id == b;
        }
      }
    }
  }

  lemma SpreadKeepsSpread(s: System, a: nat)
    requires SpreadInv(s) && Enabled(s, Spread(a))
    ensures SpreadInv(Apply(s, Spread(a)))
  {
    var s' := Apply(s, Spread(a));
    forall q | 0 <= q < |s.queues| ensures SpreadTo(s'.actions, q, s'.queues[q].pushed) {
      SpreadToNext(s.actions, q, s.queues[q].pushed, a);
    }
  }

  lemma SpreadKeepsOrderAt(s: System, a: nat)
    requires SpreadInv(s) && OrderInv(s) && Enabled(s, Spread(a))
    ensures var n := s.actions[a].spread;
            InCallOrder(s.actions, Ids(s.queues[n].pushed + [SQ.Task(a, s.actions[a].group)]))
  {
    var n := s.actions[a].spread;
    var pushed := s.queues[n].pushed;
    assert Ids(pushed + [SQ.Task(a, s.actions[a].group)]) == Ids(pushed) + [a];
    assert SpreadTo(s.actions, n, pushed);
    forall b | 0 <= b < a && s.actions[b].owner == s.actions[a].owner ensures b in Ids(pushed) {
      assert Has(pushed, b);
      var i :| 0 <= i < |pushed| && pushed[i].id == b;
      assert Ids(pushed)[i] == b;
    }
    AppendInCallOrder(s.actions, Ids(pushed), a);
  }

  lemma SpreadKeepsOrder(s: System, a: nat)
    requires SpreadInv(s) && OrderInv(s) && Enabled(s, Spread(a))
    ensures OrderInv(Apply(s, Spread(a)))
  {
    var s' := Apply(s, Spread(a));
    SpreadKeepsOrderAt(s, a);
    forall q | 0 <= q < |s.queues| ensures InCallOrder(s'.actions, Ids(s'.queues[q].pushed)) {
      SameOwnersInCallOrder(s.actions, s'.actions, Ids(s'.queues[q].pushed));
    }
    SameOwnersInCallOrder(s.actions, s'.actions, s.claims);
  }

  lemma SpreadKeepsQueues(s: System, a: nat)
    requires QueuesInv(s) && PausesConserved(s) && Enabled(s, Spread(a))
    ensures QueuesInv(Apply(s, Spread(a))) && PausesConserved(Apply(s, Spread(a)))
  {
    SpreadQueueEffect(s.queues[s.actions[a].spread], SQ.Task(a, s.actions[a].group));
  }

  lemma SpreadKeepsClaims(s: System, a: nat)
    requires ClaimInv(s) && Enabled(s, Spread(a))
    ensures ClaimInv(Apply(s, Spread(a)))
  {
    var s' := Apply(s, Spread(a));
    forall q | 0 <= q < |s.queues| ensures ClaimsAt(s'.actions, q, s'.queues[q], Now(s'.bodies, q)) {
      SameClaimsAt(s.actions, s'.actions, q, s.queues[q], s'.queues[q], Now(s.bodies, q), Now(s.bodies, q));
    }
  }

  lemma SpreadKeepsInv(s: System, a: nat)
    requires Inv(s) && Enabled(s, Spread(a))
    ensures Inv(Apply(s, Spread(a)))
  {
    SpreadKeepsQueues(s, a);
    SpreadKeepsSpread(s, a);
    SpreadKeepsClaims(s, a);
    SpreadKeepsOrder(s, a);
  }

  // ----- Steps of the queues -----

  lemma AdvanceEffect(q: SQ.Queue, i: nat)
    requires SQ.Inv(q) && SQ.Enabled(q, SQ.Advance(i))
    ensures var q' := SQ.Step(q, i);
            && SQ.Inv(q') && q'.pushed == q.pushed && q'.sh.pauseCount == q.sh.pauseCount
            && (q.acts[i].Running? ==> q.current == Some(q.acts[i].task) && q'.finished == q.finished + [q.acts[i].task])
            && (!q.acts[i].Running? ==> q'.finished == q.finished)
            && (!q.acts[i].Running? ==> KeepsRunning(q, q') && ((exists j: nat :: RunningAt(q, j)) ==> q'.current == q.current))
  {
    var q' := SQ.Step(q, i);
    SQ.MoveKeepsInv(q, SQ.Advance(i));
    if q.acts[i].Running? {
      assert SQ.HasTask(q.acts[i]);
    } else if j: nat :| RunningAt(q, j) {
      assert q'.acts[j] == q.acts[j];
      assert SQ.HasTask(q.acts[j]) && SQ.HasTask(q'.acts[j]);
    }
  }

  /** An activity that runs no wrapper has no entry; one that finishes leaves none. */
  lemma AdvanceKeepsQueues(s: System, q: nat, i: nat)
    requires QueuesInv(s) && Enabled(s, InQueue(q, i))
    ensures var s' := Apply(s, InQueue(q, i));
            && QueuesInv(s')
            && (!s.queues[q].acts[i].Running? ==> s'.bodies == s.bodies)
            && (s.queues[q].acts[i].Running? ==> Now(s'.bodies, q) == Fresh && Now(s.bodies, q) == Ended)
            && (forall r :: 0 <= r < |s.queues| && r != q ==> Now(s'.bodies, r) == Now(s.bodies, r))
  {
    var s', x := Apply(s, InQueue(q, i)), s.queues[q];
    AdvanceEffect(x, i);
    if x.acts[i].Running? {
      NowIsBodyOf(s, q, i);
      forall j | (q, j) in s.bodies ensures j == i {
        OneRuns(x, i, j);
      }
    } else {
      assert (q, i) !in s.bodies;
      assert s'.bodies == s.bodies;
    }
    forall r | 0 <= r < |s.queues| && r != q ensures Now(s'.bodies, r) == Now(s.bodies, r) {
      NowElsewhere(s, s', q, r);
    }
  }

  lemma InQueueKeepsInv(s: System, q: nat, i: nat)
    requires Inv(s) && Enabled(s, InQueue(q, i))
    ensures Inv(Apply(s, InQueue(q, i)))
  {
    var s' := Apply(s, InQueue(q, i));
    AdvanceEffect(s.queues[q], i);
    AdvanceKeepsQueues(s, q, i);
    InQueueKeepsClaims(s, q, i);
    hide QueuesInv;
    assert SpreadInv(s') && PausesConserved(s');
    assert OrderInv(s');
  }

  lemma FinishKeepsClaimsAt(actions: seq<Action>, q: nat, x: SQ.Queue, x': SQ.Queue)
    requires ClaimsAt(actions, q, x, Ended) && x'.finished == x.finished + [x.current.value]
    ensures ClaimsAt(actions, q, x', Fresh)
  {
    forall a | 0 <= a < |actions| && actions[a].winner == Some(q) ensures Has(x'.finished, a) {
      if Has(x.finished, a) {
        var j :| 0 <= j < |x.finished| && x.finished[j].id == a;
        assert x'.finished[j].id == a;
      } else {
        assert x'.finished[|x.finished|].id == a;
      }
    }
  }

  lemma InQueueKeepsClaims(s: System, q: nat, i: nat)
    requires ClaimInv(s) && Enabled(s, InQueue(q, i)) && QueuesInv(s)
    ensures ClaimInv(Apply(s, InQueue(q, i)))
  {
    var s' := Apply(s, InQueue(q, i));
    var x, x' := s.queues[q], s'.queues[q];
    AdvanceEffect(x, i);
    AdvanceKeepsQueues(s, q, i);
    assert ClaimsAt(s.actions, q, x, Now(s.bodies, q));
    if x.acts[i].Running? {
      FinishKeepsClaimsAt(s.actions, q, x, x');
    } else if j :| (q, j) in s.bodies {
      assert RunningAt(x, j);
    }
    forall r | 0 <= r < |s.queues| ensures ClaimsAt(s'.actions, r, s'.queues[r], Now(s'.bodies, r)) {
      assert ClaimsAt(s.actions, r, s.queues[r], Now(s.bodies, r));
    }
  }

  // ----- Steps of the wrappers -----

  /** What executing an operation of a wrapper does to its queue and its entry. */
  lemma BodyEffect(s: System, q: nat, i: nat)
    requires QueuesInv(s) && Enabled(s, Execute(q, i))
    ensures var s' := Apply(s, Execute(q, i));
            && |s'.queues| == |s.queues|
            && (forall r :: 0 <= r < |s.queues| && r != q ==> s'.queues[r] == s.queues[r])
            && SQ.Inv(s'.queues[q]) && KeepsRunning(s.queues[q], s'.queues[q]) && s'.queues[q].current == s.queues[q].current
            && s'.queues[q].finished == s.queues[q].finished && s'.queues[q].pushed == s.queues[q].pushed
            && (q, i) in s'.bodies && s'.bodies[(q, i)] != Fresh && s'.bodies == s.bodies[(q, i) := s'.bodies[(q, i)]]
  {
    if BodyOf(s.bodies, q, i).Won? {
      PauseOrResumeEffect(s.queues[q], SQ.Pause);
    }
  }

  lemma BodyKeepsQueues(s: System, q: nat, i: nat)
    requires QueuesInv(s) && Enabled(s, Execute(q, i))
    ensures QueuesInv(Apply(s, Execute(q, i)))
    ensures var s' := Apply(s, Execute(q, i));
            && Now(s.bodies, q) == BodyOf(s.bodies, q, i) && Now(s'.bodies, q) == BodyOf(s'.bodies, q, i)
            && s.queues[q].current == s'.queues[q].current == Some(s.queues[q].acts[i].task)
            && (forall r :: 0 <= r < |s.queues| && r != q ==> Now(s'.bodies, r) == Now(s.bodies, r))
  {
    var s' := Apply(s, Execute(q, i));
    BodyEffect(s, q, i);
    assert RunningAt(s'.queues[q], i);
    hide SQ.Inv, Apply, Enabled, Now;
    NowIsBodyOf(s, q, i);
    NowIsBodyOf(s', q, i);
    forall r | 0 <= r < |s.queues| && r != q ensures Now(s'.bodies, r) == Now(s.bodies, r) {
      NowElsewhere(s, s', q, r);
    }
  }

  /** What an operation of a wrapper changes about pauses. */
  lemma BodyPauses(s: System, q: nat, i: nat, r: nat)
    requires Enabled(s, Execute(q, i)) && r < |s.queues|
    ensures var s', body := Apply(s, Execute(q, i)), BodyOf(s.bodies, q, i);
            && |s'.queues| == |s.queues|
            && s'.queues[r].sh.pauseCount == s.queues[r].sh.pauseCount + (if r == q && body.Won? then 1 else 0)
            && s'.resumers == (if body.Paused? then s.resumers + [Some(q)] else s.resumers)
            && (BodyOf(s'.bodies, q, i).Paused? <==> body.Won?)
  {
  }

  lemma BodyKeepsPausesAt(s: System, q: nat, i: nat, r: nat)
    requires QueuesInv(s) && PausesConserved(s) && Enabled(s, Execute(q, i)) && r < |s.queues|
    ensures var s' := Apply(s, Execute(q, i));
            && |s'.queues| == |s.queues|
            && s'.queues[r].sh.pauseCount == Holding(s'.resumers, r) + if Now(s'.bodies, r).Paused? then 1 else 0
  {
    BodyKeepsQueues(s, q, i);
    BodyPauses(s, q, i, r);
    HoldingAppend(s.resumers, Some(q), r);
    hide QueuesInv, Apply, Enabled, Now, BodyOf, Holding;
  }

  lemma BodyKeepsPauses(s: System, q: nat, i: nat)
    requires QueuesInv(s) && PausesConserved(s) && Enabled(s, Execute(q, i))
    ensures PausesConserved(Apply(s, Execute(q, i)))
  {
    var s' := Apply(s, Execute(q, i));
    BodyPauses(s, q, i, q);
    hide QueuesInv, Apply, Enabled, Now, BodyOf, Holding;
    forall r | 0 <= r < |s.queues|
      ensures s'.queues[r].sh.pauseCount == Holding(s'.resumers, r) + if Now(s'.bodies, r).Paused? then 1 else 0
    {
      BodyKeepsPausesAt(s, q, i, r);
    }
  }

  /** The wrapper is about to find the shared flag clear. */
  ghost predicate Claims(s: System, q: nat, i: nat)
    requires Enabled(s, Execute(q, i))
  {
    BodyOf(s.bodies, q, i).Fresh? && s.actions[s.queues[q].acts[i].task.id].winner.None?
  }

  lemma BodyKeepsWork(s: System, q: nat, i: nat)
    requires Enabled(s, Execute(q, i)) && !Claims(s, q, i)
    ensures SameWork(s, Apply(s, Execute(q, i)))
  {
  }

  /** The claim of a wrapper in queue q and its check of the flag, seen from a queue. */
  lemma FlagCheckedAt(actions: seq<Action>, actions': seq<Action>, r: nat, x: SQ.Queue, b: Body, b': Body, q: nat, a: nat)
    requires ClaimsAt(actions, r, x, b) && a < |actions|
    requires actions' == if actions[a].winner.Some? then actions else actions[a := actions[a].(winner := Some(q))]
    requires r != q ==> b' == b
    requires r == q ==> b == Fresh && b' != Fresh && x.current.Some? && x.current.value.id == a
    requires r == q && actions[a].winner.Some? ==> b' == Ended
    ensures ClaimsAt(actions', r, x, b')
  {
  }

  /** What checking the flag changes. */
  lemma FlagCheckEffect(s: System, q: nat, i: nat)
    requires Enabled(s, Execute(q, i)) && BodyOf(s.bodies, q, i).Fresh?
    ensures var s', a := Apply(s, Execute(q, i)), s.queues[q].acts[i].task.id;
            && s'.queues == s.queues && s'.resumers == s.resumers && BodyOf(s'.bodies, q, i) != Fresh
            && s'.actions == (if s.actions[a].winner.Some? then s.actions else s.actions[a := s.actions[a].(winner := Some(q))])
            && s'.claims == (if s.actions[a].winner.Some? then s.claims else s.claims + [a])
            && (s.actions[a].winner.Some? ==> BodyOf(s'.bodies, q, i) == Ended)
  {
  }

  lemma FlagCheckKeepsClaims(s: System, q: nat, i: nat)
    requires QueuesInv(s) && ClaimInv(s) && Enabled(s, Execute(q, i)) && BodyOf(s.bodies, q, i).Fresh?
    ensures ClaimInv(Apply(s, Execute(q, i)))
  {
    var s', a := Apply(s, Execute(q, i)), s.queues[q].acts[i].task.id;
    BodyKeepsQueues(s, q, i);
    FlagCheckEffect(s, q, i);
    hide QueuesInv, Apply, Now, BodyOf, ClaimsAt;
    forall r | 0 <= r < |s.queues| ensures ClaimsAt(s'.actions, r, s'.queues[r], Now(s'.bodies, r)) {
      FlagCheckedAt(s.actions, s'.actions, r, s.queues[r], Now(s.bodies, r), Now(s'.bodies, r), q, a);
    }
  }

  lemma BodyKeepsClaims(s: System, q: nat, i: nat)
    requires QueuesInv(s) && ClaimInv(s) && Enabled(s, Execute(q, i))
    ensures ClaimInv(Apply(s, Execute(q, i)))
  {
    if BodyOf(s.bodies, q, i).Fresh? {
      FlagCheckKeepsClaims(s, q, i);
    } else {
      BodyKeepsQueues(s, q, i);
      BodyKeepsWork(s, q, i);
      LaterBodies(s, q, i);
      hide QueuesInv, Apply, Now, ClaimInv;
      SameWorkKeepsClaims(s, Apply(s, Execute(q, i)));
    }
  }

  lemma LaterBodies(s: System, q: nat, i: nat)
    requires Enabled(s, Execute(q, i)) && !BodyOf(s.bodies, q, i).Fresh?
    ensures !BodyOf(Apply(s, Execute(q, i)).bodies, q, i).Fresh?
  {
  }

  lemma ExecuteKeepsInv(s: System, q: nat, i: nat)
    requires Inv(s) && Enabled(s, Execute(q, i))
    ensures Inv(Apply(s, Execute(q, i)))
  {
    BodyKeepsQueues(s, q, i);
    BodyKeepsPauses(s, q, i);
    BodyKeepsClaims(s, q, i);
    if Claims(s, q, i) {
      ClaimKeepsOrder(s, q, i);
    } else {
      BodyKeepsWork(s, q, i);
      SameWorkKeepsOrder(s, Apply(s, Execute(q, i)));
    }
  }

  /** Claiming an action changes nothing about owners and spreading. */
  lemma ClaimKeepsQueueOrder(s: System, s': System, q: nat, a: nat)
    requires SpreadInv(s) && OrderInv(s) && a < |s.actions| && s'.queues == s.queues
    requires s'.actions == s.actions[a := s.actions[a].(winner := Some(q))]
    ensures SpreadInv(s') && OneCallPerThread(s')
    ensures forall r :: 0 <= r < |s.queues| ==> InCallOrder(s'.actions, Ids(s'.queues[r].pushed))
  {
    forall r | 0 <= r < |s.queues| ensures SpreadTo(s'.actions, r, s'.queues[r].pushed) {
      assert SpreadTo(s.actions, r, s.queues[r].pushed);
    }
    forall r | 0 <= r < |s.queues| ensures InCallOrder(s'.actions, Ids(s'.queues[r].pushed)) {
      SameOwnersInCallOrder(s.actions, s'.actions, Ids(s.queues[r].pushed));
    }
  }

  /** The wrapper that claims: every earlier action of the same thread has been through this queue already. */
  lemma ClaimKeepsOrder(s: System, q: nat, i: nat)
    requires QueuesInv(s) && ClaimInv(s) && SpreadInv(s) && OrderInv(s) && Enabled(s, Execute(q, i)) && Claims(s, q, i)
    ensures SpreadInv(Apply(s, Execute(q, i))) && OrderInv(Apply(s, Execute(q, i)))
  {
    var s', a := Apply(s, Execute(q, i)), s.queues[q].acts[i].task.id;
    NowIsBodyOf(s, q, i);
    FlagCheckEffect(s, q, i);
    hide QueuesInv, Apply, Now, BodyOf, ClaimInv, SpreadInv, InCallOrder;
    ClaimKeepsQueueOrder(s, s', q, a);
    SameOwnersInCallOrder(s.actions, s'.actions, s.claims);
    forall b | 0 <= b < a && s'.actions[b].owner == s'.actions[a].owner ensures b in s.claims {
      EarlierWasClaimed(s, q, b);
    }
    AppendInCallOrder(s'.actions, s.claims, a);
  }

  lemma EarlierWasClaimed(s: System, q: nat, b: nat)
    requires QueuesInv(s) && ClaimInv(s) && OrderInv(s)
    requires q < |s.queues| && s.queues[q].current.Some? && s.queues[q].current.value.id < |s.actions|
    requires b < s.queues[q].current.value.id
    requires s.actions[b].owner == s.actions[s.queues[q].current.value.id].owner
    ensures b in s.claims
  {
    var x := s.queues[q];
    var n := |x.finished|;
    assert x.pushed == x.finished + [x.current.value] + x.sh.tasks;
    assert Ids(x.pushed)[n] == x.current.value.id;
    assert b in Ids(x.pushed)[..n];
    var i :| 0 <= i < n && Ids(x.pushed)[i] == b;
    assert x.finished[i].id == b;
    assert ClaimsAt(s.actions, q, x, Now(s.bodies, q));
    assert multiset(s.claims)[b] == 1;
  }

  lemma MoveKeepsInv(s: System, m: Move)
    requires Inv(s) && Enabled(s, m)
    ensures Inv(Apply(s, m))
  {
    match m
    case Call(o, g, p) => CallKeepsInv(s, o, g, p);
    case Spread(a) => SpreadKeepsInv(s, a);
    case InQueue(q, i) => InQueueKeepsInv(s, q, i);
    case Execute(q, i) => ExecuteKeepsInv(s, q, i);
    case CopyResumer(i) => CopyKeepsInv(s, i);
    case MoveResumer(i) => MoveResumerKeepsInv(s, i);
    case MoveAssign(i, j) => MoveAssignKeepsInv(s, i, j);
    case ResumeBy(i) => ResumeByKeepsInv(s, i);
  }

  // ----- Whole runs -----

  ghost predicate Run(s: System, ms: seq<Move>, s': System)
    decreases |ms|
  {
    if ms == [] then s == s' else Enabled(s, ms[0]) && Run(Apply(s, ms[0]), ms[1..], s')
  }

  ghost predicate Reachable(n: nat, s: System) {
    exists ms :: Run(Init(n), ms, s)
  }

  lemma {:induction false} RunKeepsInv(s: System, ms: seq<Move>, s': System)
    requires Inv(s) && Run(s, ms, s')
    ensures Inv(s') && |s'.queues| == |s.queues|
    decreases |ms|
  {
    if ms != [] {
      MoveKeepsInv(s, ms[0]);
      RunKeepsInv(Apply(s, ms[0]), ms[1..], s');
    }
  }

  lemma InitQueue(n: nat, q: nat)
    requires q < n
    ensures Init(n).queues[q] == SQ.INIT && SQ.Inv(SQ.INIT) && Now(Init(n).bodies, q) == Fresh
  {
  }

  lemma InitInv(n: nat)
    ensures Inv(Init(n)) && |Init(n).queues| == n
  {
    var s := Init(n);
    assert |s.queues| == n && s.bodies == map[] && s.actions == [] && s.resumers == [] && s.claims == [];
    hide Init, SQ.Inv, Now;
    forall q | 0 <= q < n
      ensures s.queues[q] == SQ.INIT && SQ.Inv(s.queues[q]) && Now(s.bodies, q) == Fresh
    {
      InitQueue(n, q);
    }
    assert QueuesInv(s) && SpreadInv(s) && PausesConserved(s) && ClaimInv(s) && OrderInv(s);
  }

  lemma ReachableInv(n: nat, s: System)
    requires Reachable(n, s)
    ensures Inv(s) && |s.queues| == n
  {
    var ms :| Run(Init(n), ms, s);
    InitInv(n);
    hide Inv;
    RunKeepsInv(Init(n), ms, s);
  }

  /** Activity i of queue q is running the action now. */
  ghost predicate ActingAt(s: System, a: nat, q: nat, i: nat) {
    && q < |s.queues| && RunningAt(s.queues[q], i) && s.queues[q].acts[i].task.id == a
    && BodyOf(s.bodies, q, i).Acting?
  }

  /** In every run no action is claimed twice or runs in two activities, and a thread's actions are claimed in the order
      in which it pushed them. */
  lemma ClaimedOnceInCallOrder(n: nat, s: System)
    requires Reachable(n, s)
    ensures forall a :: multiset(s.claims)[a] <= 1
    ensures forall a: nat, q: nat, i: nat, r: nat, j: nat :: ActingAt(s, a, q, i) && ActingAt(s, a, r, j) ==> q == r && i == j
    ensures InCallOrder(s.actions, s.claims)
    ensures forall a: nat, q: nat, i: nat :: ActingAt(s, a, q, i) ==> a in s.claims
  {
    ReachableInv(n, s);
    forall a ensures multiset(s.claims)[a] <= 1 {
      if a in s.claims {
      }
    }
    forall a: nat, q: nat, i: nat | ActingAt(s, a, q, i) ensures a in s.claims && s.actions[a].winner == Some(q) {
      NowIsBodyOf(s, q, i);
      assert ClaimsAt(s.actions, q, s.queues[q], Now(s.bodies, q));
      assert multiset(s.claims)[a] == 1;
    }
    forall a: nat, q: nat, i: nat, r: nat, j: nat | ActingAt(s, a, q, i) && ActingAt(s, a, r, j) ensures q == r && i == j {
      OneRuns(s.queues[q], i, j);
    }
  }

  /** At most N activities execute wrappers at once: each queue lets one run. */
  lemma AtMostNExecuting(n: nat, s: System, running: set<(nat, nat)>)
    requires Reachable(n, s)
    requires forall x :: x in running ==> x.0 < |s.queues| && RunningAt(s.queues[x.0], x.1)
    ensures |running| <= n
  {
    ReachableInv(n, s);
    RunningIn(s, running, n);
  }

  lemma {:induction false} RunningIn(s: System, running: set<(nat, nat)>, k: nat)
    requires QueuesInv(s) && k <= |s.queues|
    requires forall x :: x in running ==> x.0 < k && RunningAt(s.queues[x.0], x.1)
    ensures |running| <= k
  {
    hide SQ.Inv;
    if k == 0 {
      if x :| x in running { }
      assert running == {};
    } else if x :| x in running && x.0 == k - 1 {
      forall y | y in running - {x} ensures y.0 < k - 1 {
        if y.0 == k - 1 {
          OneRuns(s.queues[k - 1], x.1, y.1);
        }
      }
      RunningIn(s, running - {x}, k - 1);
    } else {
      RunningIn(s, running, k - 1);
    }
  }

  /** So at most N actions run at once. */
  lemma AtMostNRunning(n: nat, s: System, actions: set<nat>)
    requires Reachable(n, s)
    requires forall a :: a in actions ==> exists q: nat, i: nat :: ActingAt(s, a, q, i)
    ensures |actions| <= n
  {
    var running := OneEach(s, actions);
    AtMostNExecuting(n, s, running);
  }

  /** Different actions run in different activities. */
  lemma {:induction false} OneEach(s: System, actions: set<nat>) returns (running: set<(nat, nat)>)
    requires forall a :: a in actions ==> exists q: nat, i: nat :: ActingAt(s, a, q, i)
    ensures |running| == |actions|
    ensures forall x :: x in running ==>
              x.0 < |s.queues| && RunningAt(s.queues[x.0], x.1) && s.queues[x.0].acts[x.1].task.id in actions
  {
    running := {};
    if actions != {} {
      var a :| a in actions;
      var q: nat, i: nat :| ActingAt(s, a, q, i);
      running := OneEach(s, actions - {a});
      assert (q, i) !in running;
      running := running + {(q, i)};
    }
  }

  ghost predicate Quiescent(s: System) {
    && (forall q :: 0 <= q < |s.queues| ==> SQ.Quiescent(s.queues[q]))
    && (forall a :: 0 <= a < |s.actions| ==> s.actions[a].spread == |s.queues|)
  }

  lemma InvAndQuiescentMeanWaiting(s: System, a: nat)
    requires Inv(s) && Quiescent(s) && a < |s.actions|
    ensures a !in s.claims <==> forall q :: 0 <= q < |s.queues| ==> Has(s.queues[q].sh.tasks, a)
    ensures a !in s.claims ==> forall q :: 0 <= q < |s.queues| ==> s.queues[q].sh.pauseCount > 0
  {
    forall q | 0 <= q < |s.queues| ensures Has(s.queues[q].sh.tasks, a) || a in s.claims {
      assert SpreadTo(s.actions, q, s.queues[q].pushed) && q < s.actions[a].spread;
      WaitingOrClaimed(s, q, a);
    }
    forall q | 0 <= q < |s.queues| && s.queues[q].sh.pauseCount == 0 ensures !Has(s.queues[q].sh.tasks, a) {
      assert s.queues[q].sh.tasks == [];
    }
    if a in s.claims {
      WinnerIsNotWaiting(s, a);
    }
  }

  /** When nothing is under way, an action has not run exactly when its wrapper still waits in every queue, and then
      every queue is paused; so if any queue is not paused, every action has run. */
  lemma UnrunMeansAllPaused(n: nat, s: System, a: nat)
    requires Reachable(n, s) && Quiescent(s) && a < |s.actions|
    ensures |s.queues| == n
    ensures a !in s.claims <==> forall q :: 0 <= q < n ==> Has(s.queues[q].sh.tasks, a)
    ensures a !in s.claims ==> forall q :: 0 <= q < n ==> s.queues[q].sh.pauseCount > 0
  {
    ReachableInv(n, s);
    InvAndQuiescentMeanWaiting(s, a);
  }

  lemma WinnerIsNotWaiting(s: System, a: nat)
    requires QueuesInv(s) && SpreadInv(s) && ClaimInv(s) && Quiescent(s)
    requires a < |s.actions| && a in s.claims
    ensures s.actions[a].winner.Some? && s.actions[a].winner.value < |s.queues|
    ensures !Has(s.queues[s.actions[a].winner.value].sh.tasks, a)
  {
    assert multiset(s.claims)[a] > 0;
    var w := s.actions[a].winner.value;
    var x := s.queues[w];
    assert ClaimsAt(s.actions, w, x, Now(s.bodies, w)) && SpreadTo(s.actions, w, x.pushed);
    assert x.pushed == x.finished + x.sh.tasks;
    var i :| 0 <= i < |x.finished| && x.finished[i].id == a;
    forall j | 0 <= j < |x.sh.tasks| ensures x.sh.tasks[j].id != a {
      assert x.pushed[i].id == a && x.pushed[|x.finished| + j] == x.sh.tasks[j];
    }
  }

  lemma WaitingOrClaimed(s: System, q: nat, a: nat)
    requires QueuesInv(s) && ClaimInv(s) && q < |s.queues| && Has(s.queues[q].pushed, a)
    requires SQ.Quiescent(s.queues[q])
    ensures Has(s.queues[q].sh.tasks, a) || a in s.claims
  {
    var x := s.queues[q];
    assert x.pushed == x.finished + x.sh.tasks;
    var i :| 0 <= i < |x.pushed| && x.pushed[i].id == a;
    if i < |x.finished| {
      assert x.finished[i].id == a;
      assert ClaimsAt(s.actions, q, x, Now(s.bodies, q));
      assert multiset(s.claims)[a] == 1;
    } else {
      assert x.sh.tasks[i - |x.finished|].id == a;
    }
  }

  /** No wrapper is being executed. */
  lemma NobodyExecutes(s: System, q: nat)
    requires QueuesInv(s) && Quiescent(s)
    ensures Now(s.bodies, q) == Fresh
  {
    forall i: nat ensures (q, i) !in s.bodies {
      assert (q, i) in s.bodies ==> q < |s.queues| && RunningAt(s.queues[q], i);
    }
  }

  lemma EmptyAtRest(s: System, q: nat)
    requires Inv(s) && Quiescent(s) && q < |s.queues| && forall i :: 0 <= i < |s.resumers| ==> s.resumers[i].None?
    ensures s.queues[q].sh.tasks == [] && s.queues[q].sh.pauseCount == 0
  {
    NoneHeld(s.resumers, q);
    NobodyExecutes(s, q);
    assert SQ.Inv(s.queues[q]) && SQ.Quiescent(s.queues[q]);
  }

  lemma InvAndAtRestMeanAllRan(s: System)
    requires Inv(s) && Quiescent(s) && |s.queues| > 0
    requires forall i :: 0 <= i < |s.resumers| ==> s.resumers[i].None?
    ensures forall a :: 0 <= a < |s.actions| ==> a in s.claims
    ensures forall q :: 0 <= q < |s.queues| ==> s.queues[q].sh.tasks == [] && s.queues[q].sh.pauseCount == 0
  {
    hide Inv, Quiescent;
    forall q | 0 <= q < |s.queues| ensures s.queues[q].sh.tasks == [] && s.queues[q].sh.pauseCount == 0 {
      EmptyAtRest(s, q);
    }
    EmptyAtRest(s, 0);
    forall a | 0 <= a < |s.actions| ensures a in s.claims {
      InvAndQuiescentMeanWaiting(s, a);
    }
  }

  lemma {:induction false} NoneHeld(resumers: seq<Option<nat>>, q: nat)
    requires forall i :: 0 <= i < |resumers| ==> resumers[i].None?
    ensures Holding(resumers, q) == 0
  {
    if resumers != [] {
      NoneHeld(resumers[..|resumers| - 1], q);
    }
  }
}
