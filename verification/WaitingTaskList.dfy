/**
  The lock-free list of WaitingTaskList, one shared access per step, over any number of reset cycles.

  Nodes are numbered as they are created and never renumbered; a node's `slot` is the cache index it was given, so
  two nodes of different cycles may use the same memory.  An activity is one call of add or doneWaiting.  One
  doneWaiting per cycle, and no reset while a call still uses the list, are the header's conditions on callers.
 */
module WaitingTaskList {
  import opened Options

  type Failure = nat

  /** A WaitNode pointer. */
  datatype Link = Null | To(node: nat)

  datatype PC =
    // add
    | TestWaiting(add: nat)                                   // reads m_waiting
    | Tell(add: nat)                                          // not waiting: passes the failure on
    | Create(add: nat)                                        // createNode
    | Exchange(node: nat)                                     // m_head.exchange(newHead)
    | LinkUp(node: nat, prior: Link)                            // setNextNode(oldHead)
    | Relink(node: nat)                                       // holder overload: setNextNode(nullptr) once more
    | Recheck                                                 // reads m_waiting after finding an empty list
    // announce; the last field is history: the nodes still to be walked
    | Announce                                                // m_head.exchange(nullptr)
    | Walk(n: Link, todo: seq<nat>)                           // reads m_next until it is not the node itself
    | Take(node: nat, next: Link, todo: seq<nat>)             // reads and gives up the node, passes the failure on
    | Drop(add: nat, next: Link, todo: seq<nat>)              // decrement_ref_count and, at 0, run
    // presetTaskAsFailed and doneWaiting
    | PresetTest(failure: Failure)
    | PresetWalk(failure: Failure, n: Link, todo: seq<nat>)
    | PresetTell(failure: Failure, node: nat, next: Link, todo: seq<nat>)
    | SetException(exception: Option<Failure>)
    | ClearWaiting
    | Done

  /** History: where a node is. */
  datatype Place = Private(act: nat) | Live | Detached(act: nat) | Gone

  datatype Node = Node(add: nat, next: Link, slot: nat, fromCache: bool, creator: nat, epoch: nat, place: Place)

  /** History: where an add is. */
  datatype Stage = Entering(act: nat) | InNode(node: nat) | Dropping(act: nat) | Released

  /** One call of add; `told` is the failure its task was given and `releases` counts decrements of its hold. */
  datatype Add = Add(holder: bool, epoch: nat, told: Option<Failure>, releases: nat, stage: Stage)

  datatype List = List(
    head: Link,
    waiting: bool,
    exception: Option<Failure>,
    index: nat,                      // m_lastAssignedCacheIndex
    cacheSize: nat,
    nodes: seq<Node>,
    acts: seq<PC>,
    adds: seq<Add>,
    // history
    live: seq<nat>,                  // the nodes reachable from the head, links about to be stored included
    done: bool,                      // doneWaiting has been called in this cycle
    verdict: Option<Failure>,        // with this exception
    verdicts: seq<Option<Failure>>,  // the verdicts of the cycles before
    most: nat)                       // the most nodes created in one of the cycles before

  function Init(size: nat): List {
    List(Null, true, None, 0, size, [], [], [], [], false, None, [], 0)
  }

  datatype Move =
    | StartAdd(holder: bool)
    | Finish(exception: Option<Failure>, preset: bool)   // presetTaskAsFailed if asked for, then doneWaiting
    | Reset
    | Advance(act: nat)

  function Epoch(s: List): nat { |s.verdicts| }

  function First(xs: seq<nat>): Link {
    if xs == [] then Null else To(xs[0])
  }

  /** The activity makes no further use of the list. */
  predicate PastTheList(pc: PC) {
    pc.Done? || (pc.Walk? && pc.n.Null?) || (pc.Drop? && pc.next.Null?)
  }

  ghost predicate Enabled(s: List, m: Move) {
    match m
    case StartAdd(_) => true
    case Finish(e, preset) => !s.done && (preset ==> e.Some?)
    case Reset => s.head.Null? && forall i :: 0 <= i < |s.acts| ==> PastTheList(s.acts[i])
    case Advance(i) => i < |s.acts| && s.acts[i] != Done && StepDefined(s, s.acts[i])
  }

  /** The numbers in the program counter mean something; the invariant has this for every activity. */
  predicate StepDefined(s: List, pc: PC) {
    match pc
    case TestWaiting(a) => a < |s.adds|
    case Tell(a) => a < |s.adds|
    case Create(a) => a < |s.adds|
    case Exchange(n) => n < |s.nodes|
    case LinkUp(n, _) => n < |s.nodes| && s.nodes[n].add < |s.adds|
    case Relink(n) => n < |s.nodes|
    case Walk(n, _) => n.To? ==> n.node < |s.nodes|
    case Take(n, _, todo) => n < |s.nodes| && todo != [] && s.nodes[n].add < |s.adds|
    case Drop(a, _, _) => a < |s.adds|
    case PresetWalk(_, n, _) => n.To? ==> n.node < |s.nodes|
    case PresetTell(_, n, _, todo) => n < |s.nodes| && todo != [] && s.nodes[n].add < |s.adds|
    case _ => true
  }

  // ----- The moves -----

  function At(s: List, i: nat, pc: PC): List
    requires i < |s.acts|
  {
    s.(acts := s.acts[i := pc])
  }

  /** dependentTaskFailed: only the first failure is kept. */
  function Told(a: Add, e: Option<Failure>): Add {
    if e.Some? && a.told.None? then a.(told := e) else a
  }

  function AddAt(s: List, a: nat, f: Add): List
    requires a < |s.adds|
  {
    s.(adds := s.adds[a := f])
  }

  function Linked(s: List, n: nat, next: Link): List
    requires n < |s.nodes|
  {
    s.(nodes := s.nodes[n := s.nodes[n].(next := next)])
  }

  function CreateStep(s: List, i: nat, a: nat): List
    requires i < |s.acts| && a < |s.adds|
  {
    var n := |s.nodes|;
    var node := Node(a, To(n), s.index, s.index < s.cacheSize, i, Epoch(s), Private(i));
    At(AddAt(s, a, s.adds[a].(stage := InNode(n))), i, Exchange(n)).(nodes := s.nodes + [node], index := s.index + 1)
  }

  function ExchangeStep(s: List, i: nat, n: nat): List
    requires i < |s.acts| && n < |s.nodes|
  {
    At(s, i, LinkUp(n, s.head)).(
      head := To(n), live := [n] + s.live, nodes := s.nodes[n := s.nodes[n].(place := Live)])
  }

  function AfterLink(s: List, n: nat, prior: Link): PC
    requires n < |s.nodes| && s.nodes[n].add < |s.adds|
  {
    if prior.To? then Done else if s.adds[s.nodes[n].add].holder then Relink(n) else Recheck
  }

  function AnnounceStep(s: List, i: nat): List
    requires i < |s.acts|
  {
    At(s, i, Walk(s.head, s.live)).(
      head := Null, live := [],
      nodes := seq(|s.nodes|, n requires 0 <= n < |s.nodes| =>
                 if s.nodes[n].place == Live then s.nodes[n].(place := Detached(i)) else s.nodes[n]))
  }

  function TakeStep(s: List, i: nat, n: nat, next: Link, todo: seq<nat>): List
    requires i < |s.acts| && n < |s.nodes| && todo != [] && s.nodes[n].add < |s.adds|
  {
    var a := s.nodes[n].add;
    At(AddAt(s, a, Told(s.adds[a], s.exception).(stage := Dropping(i))), i, Drop(a, next, todo[1..])).(
      nodes := s.nodes[n := s.nodes[n].(place := Gone)])
  }

  function Step(s: List, i: nat): List
    requires i < |s.acts| && s.acts[i] != Done && StepDefined(s, s.acts[i])
  {
    match s.acts[i]
    case TestWaiting(a) => At(s, i, if s.waiting then Create(a) else Tell(a))
    case Tell(a) => At(AddAt(s, a, Told(s.adds[a], s.exception).(stage := Dropping(i))), i, Drop(a, Null, []))
    case Create(a) => CreateStep(s, i, a)
    case Exchange(n) => ExchangeStep(s, i, n)
    case LinkUp(n, prior) => At(Linked(s, n, prior), i, AfterLink(s, n, prior))
    case Relink(n) => At(Linked(s, n, Null), i, Recheck)
    case Recheck => At(s, i, if s.waiting then Done else Announce)
    case Announce => AnnounceStep(s, i)
    case Walk(n, todo) =>
      if n.Null? then At(s, i, Done)
      else if s.nodes[n.node].next == n then s
      else At(s, i, Take(n.node, s.nodes[n.node].next, todo))
    case Take(n, next, todo) => TakeStep(s, i, n, next, todo)
    case Drop(a, next, todo) =>
      At(AddAt(s, a, s.adds[a].(releases := s.adds[a].releases + 1, stage := Released)), i, Walk(next, todo))
    case PresetTest(e) => At(s, i, if s.waiting then PresetWalk(e, s.head, s.live) else SetException(Some(e)))
    case PresetWalk(e, n, todo) =>
      if n.Null? then At(s, i, SetException(Some(e)))
      else if s.nodes[n.node].next == n then s
      else At(s, i, PresetTell(e, n.node, s.nodes[n.node].next, todo))
    case PresetTell(e, n, next, todo) =>
      var a := s.nodes[n].add;
      At(AddAt(s, a, Told(s.adds[a], Some(e))), i, PresetWalk(e, next, todo[1..]))
    case SetException(e) => At(s, i, ClearWaiting).(exception := e)
    case ClearWaiting => At(s, i, Announce).(waiting := false)
  }

  function Max(a: nat, b: nat): nat { if a < b then b else a }

  ghost function Apply(s: List, m: Move): List
    requires Enabled(s, m)
  {
    match m
    case StartAdd(h) =>
      s.(acts := s.acts + [TestWaiting(|s.adds|)], adds := s.adds + [Add(h, Epoch(s), None, 0, Entering(|s.acts|))])
    case Finish(e, preset) =>
      s.(acts := s.acts + [if preset then PresetTest(e.value) else SetException(e)], done := true, verdict := e)
    case Reset =>
      s.(exception := None, index := 0, cacheSize := Max(s.cacheSize, s.index), waiting := true,
         done := false, verdict := None, verdicts := s.verdicts + [s.verdict], most := Max(s.most, s.index))
    case Advance(i) => Step(s, i)
  }

  // ----- The invariant -----

  /** What follows position k of a list of nodes. */
  function Successor(xs: seq<nat>, k: nat): Link
    requires k < |xs|
  {
    First(xs[k + 1..])
  }

  /** The node's link is stored, or the node links to itself and its adder is about to store it. */
  predicate LinkedOrPending(s: List, n: nat, next: Link) {
    && n < |s.nodes|
    && (s.nodes[n].next == next
        || (s.nodes[n].next == To(n) && s.nodes[n].creator < |s.acts|
            && s.acts[s.nodes[n].creator] == LinkUp(n, next)))
  }

  /** A proper list: no node twice, every link right or pending, every node in the given place. */
  ghost predicate Chained(s: List, xs: seq<nat>, place: Place) {
    && (forall k :: 0 <= k < |xs| ==>
          LinkedOrPending(s, xs[k], Successor(xs, k)) && s.nodes[xs[k]].place == place)
    && (forall j, k :: 0 <= j < k < |xs| ==> xs[j] != xs[k])
  }

  function Todo(pc: PC): seq<nat> {
    if pc.Walk? || pc.Take? || pc.Drop? then pc.todo else []
  }

  predicate InDoneWaiting(pc: PC) {
    pc.PresetTest? || pc.PresetWalk? || pc.PresetTell? || pc.SetException? || pc.ClearWaiting?
  }

  predicate IsSuffix(xs: seq<nat>, ys: seq<nat>) {
    |xs| <= |ys| && ys[|ys| - |xs|..] == xs
  }

  /** What holds of an activity at each program counter. */
  ghost predicate ActOk(s: List, i: nat)
    requires i < |s.acts|
  {
    && StepDefined(s, s.acts[i])
    && Chained(s, Todo(s.acts[i]), Detached(i))
    && (Todo(s.acts[i]) != [] ==> !s.waiting)
    && match s.acts[i]
       case TestWaiting(a) => s.adds[a].stage == Entering(i)
       case Tell(a) => s.adds[a].stage == Entering(i) && !s.waiting
       case Create(a) => s.adds[a].stage == Entering(i)
       case Exchange(n) => s.nodes[n].place == Private(i) && s.nodes[n].creator == i && s.nodes[n].next == To(n)
       case LinkUp(n, prior) =>
         && s.nodes[n].creator == i && s.nodes[n].next == To(n) && prior != To(n)
         && (s.nodes[n].place.Live? || s.nodes[n].place.Detached?)
       case Relink(n) => s.nodes[n].creator == i && s.nodes[n].next.Null?
       case Announce => !s.waiting
       case Walk(n, todo) => n == First(todo)
       case Take(n, next, todo) => n == todo[0] && next == First(todo[1..]) && s.nodes[n].next == next
       case Drop(a, next, todo) => next == First(todo) && s.adds[a].stage == Dropping(i)
       case PresetTest(e) => s.waiting && s.done && s.verdict == Some(e)
       case PresetWalk(e, n, todo) =>
         s.waiting && s.done && s.verdict == Some(e) && n == First(todo) && IsSuffix(todo, s.live)
       case PresetTell(e, n, next, todo) =>
         && s.waiting && s.done && s.verdict == Some(e) && IsSuffix(todo, s.live)
         && n == todo[0] && next == First(todo[1..])
       case SetException(e) => s.waiting && s.done && s.verdict == e
       case ClearWaiting => s.waiting && s.done && s.verdict == s.exception
       case _ => true
  }

  ghost predicate ActsOk(s: List) {
    forall i :: 0 <= i < |s.acts| ==> ActOk(s, i)
  }

  /** Every node is where its place says. */
  ghost predicate NodeOk(s: List, n: nat)
    requires n < |s.nodes|
  {
    var x := s.nodes[n];
    && x.add < |s.adds|
    && (x.place != Gone ==> x.epoch == Epoch(s) && s.adds[x.add].stage == InNode(n))
    && (x.next == To(n) && (x.place.Live? || x.place.Detached?) ==>
          x.creator < |s.acts| && s.acts[x.creator].LinkUp? && s.acts[x.creator].node == n)
    && match x.place
       case Private(i) => i < |s.acts| && s.acts[i] == Exchange(n)
       case Live => n in s.live
       case Detached(i) => i < |s.acts| && n in Todo(s.acts[i])
       case Gone => x.next != To(n)
  }

  ghost predicate NodesOk(s: List) {
    forall n :: 0 <= n < |s.nodes| ==> NodeOk(s, n)
  }

  /** The add a program counter is still entering. */
  function EnteringAdd(pc: PC): Option<nat> {
    if pc.TestWaiting? || pc.Tell? || pc.Create? then Some(pc.add) else None
  }

  /** Every add is where its stage says, its hold is released exactly in the last stage, and a failure it has been
      given is its cycle's; past the list it has been given it. */
  ghost predicate AddOk(s: List, a: nat)
    requires a < |s.adds|
  {
    var x := s.adds[a];
    && x.epoch <= Epoch(s)
    && x.releases == (if x.stage.Released? then 1 else 0)
    && (x.told.Some? ==> x.told == VerdictOf(s, x.epoch))
    && (match x.stage
        case Entering(i) => i < |s.acts| && EnteringAdd(s.acts[i]) == Some(a) && x.epoch == Epoch(s)
        case InNode(n) => n < |s.nodes| && s.nodes[n].add == a && s.nodes[n].place != Gone && x.epoch == Epoch(s)
        case Dropping(i) =>
          && i < |s.acts| && s.acts[i].Drop? && s.acts[i].add == a
          && (x.epoch == Epoch(s) ==> !s.waiting) && x.told == VerdictOf(s, x.epoch)
        case Released => (x.epoch == Epoch(s) ==> !s.waiting) && x.told == VerdictOf(s, x.epoch))
  }

  /** The exception given to doneWaiting in a cycle. */
  function VerdictOf(s: List, epoch: nat): Option<Failure> {
    if epoch < |s.verdicts| then s.verdicts[epoch] else s.verdict
  }

  ghost predicate AddsOk(s: List) {
    forall a :: 0 <= a < |s.adds| ==> AddOk(s, a)
  }

  /** Will announce, or will find the list waiting when it looks again. */
  predicate WillAnnounce(pc: PC) {
    pc.Announce? || pc.Recheck? || pc.Relink? || (pc.LinkUp? && pc.prior.Null?)
  }

  ghost predicate NoLostTask(s: List) {
    s.live != [] && !s.waiting ==> exists i :: 0 <= i < |s.acts| && WillAnnounce(s.acts[i])
  }

  /** One doneWaiting per cycle, and what the flags say while it is under way. */
  ghost predicate OneDoneWaiting(s: List) {
    && (!s.done ==> s.waiting && s.verdict.None? && s.exception.None? && forall i :: 0 <= i < |s.acts| ==> !InDoneWaiting(s.acts[i]))
    && (!s.waiting ==> s.done && s.exception == s.verdict)
    && (s.done && s.waiting ==> exists i :: 0 <= i < |s.acts| && InDoneWaiting(s.acts[i]))
    && (forall i, j :: 0 <= i < |s.acts| && 0 <= j < |s.acts| && InDoneWaiting(s.acts[i]) && InDoneWaiting(s.acts[j])
          ==> i == j)
  }

  ghost predicate LiveOk(s: List) {
    Chained(s, s.live, Live) && s.head == First(s.live)
  }

  ghost predicate Inv(s: List) {
    ActsOk(s) && NodesOk(s) && AddsOk(s) && LiveOk(s) && NoLostTask(s) && OneDoneWaiting(s)
  }
}
