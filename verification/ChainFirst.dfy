/**
  Pipelines of waiting tasks: `first(f) | then(g) | ifThen(c, h) | lastTask(holder)` becomes nested tasks, built from the
  last stage to the first, each owning a holder of the task of the next stage.  Functors may copy and release the holder
  they are given as they please, from any thread and in any order.
 */
module ChainFirst {
  import opened Options

  type Exc = nat

  /** The functor of a stage.  `Auto` takes only a holder, `Explicit` is ifException(except).else_(f), and `TwoArg` takes
      the exception pointer and the holder. */
  datatype Handler = Auto(f: nat) | Explicit(except: nat, f: nat) | TwoArg(f: nat)

  /** The declared chain; the outermost constructor is the last stage. */
  datatype Chain =
    | First(h: Handler)
    | Then(h: Handler, prev: Chain)
    | IfThen(enabled: bool, h: Handler, prev: Chain)

  /** A call made into user code, with the exception it is given; Finally is the task passed to lastTask or runLast. */
  datatype Call = Call(functor: nat, arg: Option<Exc>) | Finally(arg: Option<Exc>)

  // ----- What a declared chain means -----

  /** The calls the interpreter makes for a stage that is given `arg`. */
  function CallsOf(h: Handler, arg: Option<Exc>): seq<Call> {
    match h
    case Auto(f) => if arg.Some? then [] else [Call(f, None)]
    case Explicit(x, f) => if arg.Some? then [Call(x, arg)] else [Call(f, None)]
    case TwoArg(f) => [Call(f, arg)]
  }

  /** What a stage hands on: a failure it has not been asked to handle, or else what its functor reports. */
  function HandsOn(h: Handler, arg: Option<Exc>, reported: Option<Exc>): Option<Exc> {
    if !h.TwoArg? && arg.Some? then arg else reported
  }

  function Stages(c: Chain): (n: nat)
    ensures n > 0
  {
    match c
    case First(_) => 1
    case Then(_, prev) => Stages(prev) + 1
    case IfThen(enabled, _, prev) => Stages(prev) + if enabled then 1 else 0
  }

  datatype Outcome = Outcome(calls: seq<Call>, result: Option<Exc>)

  /** The left-to-right interpreter.  `reported[v]` is what the functor of the chain's last stage reports. */
  function Meaning(c: Chain, v: nat, reported: seq<Option<Exc>>, arg: Option<Exc>): Outcome
    requires v + Stages(c) <= |reported|
  {
    match c
    case First(h) => Outcome(CallsOf(h, arg), HandsOn(h, arg, reported[v]))
    case Then(h, prev) =>
      var o := Meaning(prev, v + 1, reported, arg);
      Outcome(o.calls + CallsOf(h, o.result), HandsOn(h, o.result, reported[v]))
    case IfThen(enabled, h, prev) =>
      if !enabled then Meaning(prev, v, reported, arg)
      else
        var o := Meaning(prev, v + 1, reported, arg);
        Outcome(o.calls + CallsOf(h, o.result), HandsOn(h, o.result, reported[v]))
  }

  // ----- Tasks and holders -----

  datatype Body = Stage(h: Handler) | Last

  datatype Phase = Waiting | Spawned | InFunctor | Done

  /** A waiting task.  Of the `refs` holders of it, `loose` belong to user code, `spare` are copies kept by a runLast that
      is still building, and at most one is owned by the task of the stage before. */
  datatype Task = Task(
    body: Body,
    next: nat,            // the task whose holder this one owns
    refs: nat,
    loose: nat,
    spare: nat,
    slot: Option<Exc>,
    phase: Phase,
    // history
    failures: seq<Exc>,   // the failures given to its holders, in order
    reported: seq<Exc>)   // those among them that come from user code, not from a stage that forwards its own

  datatype State = State(tasks: seq<Task>, trace: seq<Call>)

  function Failure(e: Option<Exc>): seq<Exc> {
    if e.Some? then [e.value] else []
  }

  /** doneWaiting on a holder of the task: the first failure is kept, and the last holder spawns. */
  function DoneWaiting(t: Task, e: Option<Exc>): Task
    requires t.refs > 0
  {
    t.(refs := t.refs - 1, slot := if t.slot.Some? then t.slot else e, failures := t.failures + Failure(e),
       phase := if t.refs == 1 then Spawned else t.phase)
  }

  function Put(s: State, t: nat, x: Task): State
    requires t < |s.tasks|
  {
    s.(tasks := s.tasks[t := x])
  }

  function Say(s: State, calls: seq<Call>): State {
    s.(trace := s.trace + calls)
  }

  // ----- Construction -----

  function NewTask(h: Handler, v: nat): Task {
    Task(Stage(h), v, 1, 1, 0, None, Waiting, [], [])
  }

  predicate HolderOfTop(s: State, v: nat) {
    |s.tasks| == v + 1 && s.tasks[v].refs >= s.tasks[v].loose > 0
  }

  /** make_waiting_task with a holder of v moved into its closure, and a holder of the new task. */
  function AddTask(s: State, h: Handler, v: nat): (s': State)
    requires HolderOfTop(s, v)
    ensures HolderOfTop(s', v + 1)
  {
    s.(tasks := s.tasks[v := s.tasks[v].(loose := s.tasks[v].loose - 1)] + [NewTask(h, v)])
  }

  /** WaitingTaskChain::lastTask.  A condition that is false copies the holder, passes the copy down and lets go of the
      original on return. */
  function LastTask(c: Chain, s: State, v: nat): (s': State)
    requires HolderOfTop(s, v)
    ensures |s'.tasks| == v + 1 + Stages(c)
    ensures forall i :: 0 <= i <= v ==>
              s'.tasks[i] == if i == v then s.tasks[v].(loose := s.tasks[v].loose - 1) else s.tasks[i]
    decreases c
  {
    match c
    case First(h) => AddTask(s, h, v)
    case Then(h, prev) => LastTask(prev, AddTask(s, h, v), v + 1)
    case IfThen(enabled, h, prev) =>
      if enabled then LastTask(prev, AddTask(s, h, v), v + 1)
      else
        var x := s.tasks[v];
        var s1 := LastTask(prev, Put(s, v, x.(refs := x.refs + 1, loose := x.loose + 1)), v);
        var y := s1.tasks[v];
        Put(s1, v, DoneWaiting(y, None).(loose := y.loose - 1))
  }

  /** WaitingTaskChain::runLast.  The first functor is called directly, with no exception: that is a task already spawned
      that nobody holds.  A condition that is false keeps the original holder until runLast returns. */
  function RunLast(c: Chain, s: State, v: nat): (s': State)
    requires HolderOfTop(s, v)
    ensures |s'.tasks| == v + 1 + Stages(c)
    decreases c
  {
    match c
    case First(h) =>
      var t := NewTask(h, v).(refs := 0, loose := 0, phase := Spawned);
      s.(tasks := s.tasks[v := s.tasks[v].(loose := s.tasks[v].loose - 1)] + [t])
    case Then(h, prev) => RunLast(prev, AddTask(s, h, v), v + 1)
    case IfThen(enabled, h, prev) =>
      if enabled then RunLast(prev, AddTask(s, h, v), v + 1)
      else RunLast(prev, Put(s, v, s.tasks[v].(refs := s.tasks[v].refs + 1, spare := s.tasks[v].spare + 1)), v)
  }

  /** The task given by the caller, with `holders` holders of it, one of which is passed on. */
  function Given(holders: nat): State {
    State([Task(Last, 0, holders, holders, 0, None, Waiting, [], [])], [])
  }

  // ----- Running -----

  datatype Move =
    | Copy(t: nat)                         // user code copies a holder of t
    | Release(t: nat, e: Option<Exc>)      // user code calls doneWaiting, or destroys a holder
    | DropSpare(t: nat)                    // runLast returns from a stage it has left out
    | Start(t: nat)                        // a spawned task executes
    | FReturns(t: nat)                     // its functor returns
    | FThrows(t: nat, thrown: Exc)              // its functor throws

  predicate Enabled(s: State, m: Move) {
    m.t < |s.tasks| &&
    var x := s.tasks[m.t];
    match m
    case Copy(_) => x.loose > 0
    case Release(_, _) => x.loose > 0 && x.refs > 0
    case DropSpare(_) => x.spare > 0 && x.refs > 0
    case Start(t) => x.phase.Spawned? && (x.body.Stage? ==> x.next < t && s.tasks[x.next].refs > 0)
    case FReturns(t) => x.phase.InFunctor? && x.next < t && s.tasks[x.next].refs > 0
    case FThrows(t, _) => x.phase.InFunctor? && x.next < t && s.tasks[x.next].refs > 0
  }

  /** A functor is called with a copy of the holder of the next task. */
  function EnterFunctor(s: State, t: nat): State
    requires t < |s.tasks| && s.tasks[t].next < |s.tasks|
  {
    var x := s.tasks[t];
    var y := s.tasks[x.next];
    Put(Put(s, t, x.(phase := InFunctor)), x.next, y.(refs := y.refs + 1, loose := y.loose + 1))
  }

  /** The operator() of the stage's handler, up to the return of the user functor for those that call one. */
  function Execute(s: State, t: nat): State
    requires Enabled(s, Start(t)) && s.tasks[t].body.Stage?
  {
    var x := s.tasks[t];
    var y := s.tasks[x.next];
    match x.body.h
    case TwoArg(f) =>
      Put(Put(Say(s, [Call(f, x.slot)]), t, x.(phase := Done)), x.next, y.(loose := y.loose + 1))
    case Auto(f) =>
      if x.slot.Some? then Put(Put(s, t, x.(phase := Done)), x.next, DoneWaiting(y, x.slot))
      else EnterFunctor(Say(s, [Call(f, None)]), t)
    case Explicit(except, f) =>
      if x.slot.Some? then
        Put(Put(Say(s, [Call(except, x.slot)]), t, x.(phase := Done)), x.next, DoneWaiting(y, x.slot))
      else EnterFunctor(Say(s, [Call(f, None)]), t)
  }

  function Next(s: State, m: Move): State
    requires Enabled(s, m)
  {
    var t, x := m.t, s.tasks[m.t];
    match m
    case Copy(_) => Put(s, t, x.(refs := x.refs + 1, loose := x.loose + 1))
    case Release(_, e) => Put(s, t, DoneWaiting(x, e).(loose := x.loose - 1, reported := x.reported + Failure(e)))
    case DropSpare(_) => Put(s, t, DoneWaiting(x, None).(spare := x.spare - 1))
    case Start(_) =>
      if x.body.Last? then Say(Put(s, t, x.(phase := Done)), [Finally(x.slot)]) else Execute(s, t)
    case FReturns(_) => Put(Put(s, t, x.(phase := Done)), x.next, DoneWaiting(s.tasks[x.next], None))
    case FThrows(_, e) =>
      var y := s.tasks[x.next];
      Put(Put(s, t, x.(phase := Done)), x.next, DoneWaiting(y, Some(e)).(reported := y.reported + [e]))
  }

  ghost predicate Run(s: State, ms: seq<Move>, s': State)
    decreases |ms|
  {
    if ms == [] then s == s' else Enabled(s, ms[0]) && Run(Next(s, ms[0]), ms[1..], s')
  }

  // ----- The invariant -----

  /** The task still owns its holder of the next one. */
  predicate Owns(x: Task) {
    !x.phase.Done?
  }

  predicate OwnedFromAbove(s: State, t: nat) {
    t + 1 < |s.tasks| && Owns(s.tasks[t + 1])
  }

  /** `alone` says that the caller kept no holder of the task it gave. */
  ghost predicate TaskOk(s: State, alone: bool, t: nat)
    requires t < |s.tasks|
  {
    var x := s.tasks[t];
    && (x.body.Last? <==> t == 0)
    && (t > 0 ==> x.next == t - 1)
    && x.slot == (if x.failures == [] then None else Some(x.failures[0]))
    && (x.phase.Waiting? <==> x.refs > 0)
    && x.refs == x.loose + x.spare + (if OwnedFromAbove(s, t) then 1 else 0)
    && (x.phase.InFunctor? ==> t > 0 && !x.body.h.TwoArg? && x.slot.None?)
    && (x.failures == x.reported || Forwarded(s, t))
  }

  /** The stage before has passed its own failure on. */
  predicate Forwarded(s: State, t: nat) {
    t + 1 < |s.tasks| && s.tasks[t + 1].phase.Done? && s.tasks[t + 1].slot.Some?
    && s.tasks[t + 1].body.Stage? && !s.tasks[t + 1].body.h.TwoArg?
  }

  /** Nobody but the stage before has anything to say to a task, until the functor of that stage is given a holder. */
  ghost predicate SilentOk(s: State, alone: bool, t: nat)
    requires t + 1 < |s.tasks|
  {
    var x, above := s.tasks[t], s.tasks[t + 1];
    above.body.Stage? && (t > 0 || alone) ==>
      && (above.phase.Waiting? || above.phase.Spawned? ==> x.loose == 0 && x.failures == [])
      && (above.phase.Done? && above.slot.Some? && !above.body.h.TwoArg? ==>
            x.loose == 0 && x.failures == [above.slot.value])
  }

  /** The calls a task has made. */
  function Made(x: Task): seq<Call> {
    if x.phase.Waiting? || x.phase.Spawned? then []
    else match x.body
      case Last => [Finally(x.slot)]
      case Stage(h) => CallsOf(h, x.slot)
  }

  /** The calls made by the tasks from t up, the first stage first. */
  function MadeFrom(tasks: seq<Task>, t: nat): seq<Call>
    requires t <= |tasks|
    decreases |tasks| - t
  {
    if t == |tasks| then [] else MadeFrom(tasks, t + 1) + Made(tasks[t])
  }

  ghost predicate Inv(s: State, alone: bool) {
    && |s.tasks| > 0
    && (forall t :: 0 <= t < |s.tasks| ==> TaskOk(s, alone, t))
    && (forall t :: 0 <= t < |s.tasks| - 1 ==> SilentOk(s, alone, t))
    && s.trace == MadeFrom(s.tasks, 0)
  }
}
