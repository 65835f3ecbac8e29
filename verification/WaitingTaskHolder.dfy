/**
  The reference-count and exception protocol of one WaitingTask, over any history of the holders, arena holders and
  list nodes that refer to it, one shared access per step.

  A slot is a holder object (or a list node) that may refer to the task.  Different slots act concurrently; one slot
  is used by one thread at a time.
 */
module WaitingTaskProtocol {
  import opened Options

  type Failure = nat

  datatype Kind = Plain | Arena | ListNode

  /** What a slot that refers to the task is doing.  `release` says that doneWaiting follows. */
  datatype Op =
    | Idle
    | Reporting(failure: Failure, release: bool)   // dependentTaskFailed: compare-exchange kUnset -> kSetting
    | Writing(failure: Failure, release: bool)     // won: m_ptr = iPtr
    | Publishing(release: bool)                    // m_ptrSet = kSet
    | Releasing                                    // decrement_ref_count
    | Converting(to: nat)                          // makeWaitingTaskHolderAndRelease, before its decrement
    | Reserved(maker: nat)                         // the holder being returned by that call

  datatype Slot = Empty | Live(kind: Kind, op: Op)

  /** m_ptrSet */
  datatype PtrState = Unset | Setting | Set

  datatype System = System(
    refCount: nat,
    ptrState: PtrState,
    ptr: Option<Failure>,
    slots: seq<Slot>,
    spawned: nat,                  // times the task was given to task_group::run
    executed: nat,                 // times it was executed and recycled
    // history
    seen: Option<Failure>,         // what execute read
    reports: seq<Failure>)         // failures in the order of their compare-exchanges

  const INIT := System(0, Unset, None, [], 0, 0, None, [])

  datatype Move =
    | Adopt(kind: Kind)                                       // a holder made from the task itself, or a raw add
    | Copy(i: nat)
    | MoveOut(i: nat, kind: Kind)                             // move, conversion to another kind, release_no_decrement
    | Swap(i: nat, j: nat)                                    // inside the assignments
    | Preset(i: nat, failure: Failure)                        // presetTaskAsFailed
    | DoneWaiting(i: nat, exception: Option<Failure>)          // also the destructor, and an announce of a node
    | Convert(i: nat)                                         // makeWaitingTaskHolderAndRelease
    | Advance(i: nat)
    | Execute

  predicate IsIdle(s: System, i: nat) {
    i < |s.slots| && s.slots[i].Live? && s.slots[i].op.Idle?
  }

  predicate Enabled(s: System, m: Move) {
    match m
    case Adopt(_) => s.spawned == 0
    case Copy(i) => IsIdle(s, i)
    case MoveOut(i, _) => IsIdle(s, i)
    case Swap(i, j) =>
      && i < |s.slots| && j < |s.slots|
      && (s.slots[i].Live? ==> IsIdle(s, i)) && (s.slots[j].Live? ==> IsIdle(s, j))
    case Preset(i, _) => IsIdle(s, i)
    case DoneWaiting(i, _) => IsIdle(s, i)
    case Convert(i) => IsIdle(s, i) && s.slots[i].kind.Arena?
    case Advance(i) =>
      && i < |s.slots| && s.slots[i].Live? && !s.slots[i].op.Idle? && !s.slots[i].op.Reserved?
      && (s.slots[i].op.Releasing? || s.slots[i].op.Converting? ==> s.refCount > 0)
      && (s.slots[i].op.Converting? ==> s.slots[i].op.to < |s.slots|)
    case Execute => s.executed < s.spawned
  }

  function Doing(s: System, i: nat, op: Op): System
    requires i < |s.slots| && s.slots[i].Live?
  {
    s.(slots := s.slots[i := s.slots[i].(op := op)])
  }

  function After(release: bool): Op {
    if release then Releasing else Idle
  }

  function Step(s: System, i: nat): System
    requires Enabled(s, Advance(i))
  {
    match s.slots[i].op
    case Reporting(e, r) =>
      var s' := s.(reports := s.reports + [e]);
      if s.ptrState.Unset? then Doing(s', i, Writing(e, r)).(ptrState := Setting) else Doing(s', i, After(r))
    case Writing(e, r) => Doing(s, i, Publishing(r)).(ptr := Some(e))
    case Publishing(r) => Doing(s, i, After(r)).(ptrState := Set)
    case Releasing =>
      s.(slots := s.slots[i := Empty], refCount := s.refCount - 1,
         spawned := if s.refCount == 1 then s.spawned + 1 else s.spawned)
    case Converting(j) =>
      // the result of this decrement is not looked at
      s.(slots := s.slots[i := Empty][j := Live(Plain, Idle)], refCount := s.refCount - 1)
  }

  function Apply(s: System, m: Move): System
    requires Enabled(s, m)
  {
    match m
    case Adopt(k) => s.(refCount := s.refCount + 1, slots := s.slots + [Live(k, Idle)])
    case Copy(i) => s.(refCount := s.refCount + 1, slots := s.slots + [s.slots[i]])
    case MoveOut(i, k) => s.(slots := s.slots[i := Empty] + [Live(k, Idle)])
    case Swap(i, j) => s.(slots := s.slots[i := s.slots[j]][j := s.slots[i]])
    case Preset(i, e) => Doing(s, i, Reporting(e, false))
    case DoneWaiting(i, e) => Doing(s, i, if e.Some? then Reporting(e.value, true) else Releasing)
    case Convert(i) =>
      Doing(s, i, Converting(|s.slots|)).(refCount := s.refCount + 1,
        slots := s.slots[i := s.slots[i].(op := Converting(|s.slots|))] + [Live(Plain, Reserved(i))])
    case Advance(i) => Step(s, i)
    case Execute => s.(executed := s.executed + 1, seen := s.ptr)
  }

  // ----- The invariant -----

  function LiveCount(slots: seq<Slot>): nat {
    if slots == [] then 0 else LiveCount(slots[..|slots| - 1]) + if slots[|slots| - 1].Live? then 1 else 0
  }

  lemma {:induction false} LiveCountUpdate(slots: seq<Slot>, i: nat, x: Slot)
    requires i < |slots|
    ensures LiveCount(slots[i := x])
         == LiveCount(slots) - (if slots[i].Live? then 1 else 0) + (if x.Live? then 1 else 0)
    ensures slots[i].Live? ==> LiveCount(slots) > 0
  {
    var n := |slots| - 1;
    if i < n {
      assert slots[i := x][..n] == slots[..n][i := x];
      LiveCountUpdate(slots[..n], i, x);
    } else {
      assert slots[i := x][..n] == slots[..n];
    }
  }

  lemma LiveCountAppend(slots: seq<Slot>, x: Slot)
    ensures LiveCount(slots + [x]) == LiveCount(slots) + if x.Live? then 1 else 0
  {
    assert (slots + [x])[..|slots|] == slots;
  }

  predicate IsSetting(x: Slot) {
    x.Live? && (x.op.Writing? || x.op.Publishing?)
  }

  function FirstReport(s: System): Option<Failure> {
    if s.reports == [] then None else Some(s.reports[0])
  }

  /** The count is the number of live slots, and the task is spawned when, and only when, it returns to 0. */
  ghost predicate Counted(s: System) {
    && s.refCount == LiveCount(s.slots)
    && s.spawned <= 1 && s.executed <= s.spawned
    && (s.spawned == 1 ==> s.refCount == 0)
    && (s.spawned == 0 && s.slots != [] ==> s.refCount > 0)
    && (s.slots == [] ==> s.spawned == 0)
  }

  /** At most one setter between its compare-exchange and its publication; it carries the first report. */
  ghost predicate OneSetter(s: System) {
    && (s.ptrState.Setting? <==> exists i :: 0 <= i < |s.slots| && IsSetting(s.slots[i]))
    && (forall i, j :: 0 <= i < |s.slots| && 0 <= j < |s.slots| && IsSetting(s.slots[i]) && IsSetting(s.slots[j]) ==> i == j)
    && (s.ptrState.Unset? <==> s.reports == [])
    && (forall i :: 0 <= i < |s.slots| && IsSetting(s.slots[i]) ==>
          if s.slots[i].op.Writing? then s.ptr.None? && FirstReport(s) == Some(s.slots[i].op.failure)
          else s.ptr == FirstReport(s))
    && (!s.ptrState.Setting? ==> s.ptr == FirstReport(s))
    && (s.executed == 1 ==> s.seen == FirstReport(s))
  }

  /** A conversion under way has its new holder reserved for it alone. */
  ghost predicate Conversions(s: System) {
    && (forall i :: 0 <= i < |s.slots| && s.slots[i].Live? && s.slots[i].op.Converting? ==>
          var j := s.slots[i].op.to;
          j < |s.slots| && j != i && s.slots[j] == Live(Plain, Reserved(i)))
    && (forall j :: 0 <= j < |s.slots| && s.slots[j].Live? && s.slots[j].op.Reserved? ==>
          var i := s.slots[j].op.maker;
          i < |s.slots| && s.slots[i].Live? && s.slots[i].op == Converting(j))
  }

  ghost predicate Inv(s: System) {
    Counted(s) && OneSetter(s) && Conversions(s)
  }

  lemma MoveKeepsCounted(s: System, m: Move)
    requires Counted(s) && Conversions(s) && Enabled(s, m)
    ensures Counted(Apply(s, m))
  {
    match m
    case Adopt(k) => LiveCountAppend(s.slots, Live(k, Idle));
    case Copy(i) =>
      LiveCountUpdate(s.slots, i, s.slots[i]);
      LiveCountAppend(s.slots, s.slots[i]);
    case MoveOut(i, k) =>
      LiveCountUpdate(s.slots, i, Empty);
      LiveCountAppend(s.slots[i := Empty], Live(k, Idle));
    case Swap(i, j) =>
      LiveCountUpdate(s.slots, i, s.slots[j]);
      LiveCountUpdate(s.slots[i := s.slots[j]], j, s.slots[i]);
    case Preset(i, e) => LiveCountUpdate(s.slots, i, Apply(s, m).slots[i]);
    case DoneWaiting(i, e) => LiveCountUpdate(s.slots, i, Apply(s, m).slots[i]);
    case Convert(i) =>
      var x := s.slots[i].(op := Converting(|s.slots|));
      LiveCountUpdate(s.slots, i, x);
      LiveCountAppend(s.slots[i := x], Live(Plain, Reserved(i)));
    case Advance(i) => StepKeepsCounted(s, i);
    case Execute =>
  }

  lemma StepKeepsCounted(s: System, i: nat)
    requires Counted(s) && Conversions(s) && Enabled(s, Advance(i))
    ensures Counted(Step(s, i))
  {
    if s.slots[i].op.Converting? {
      var j := s.slots[i].op.to;
      LiveCountUpdate(s.slots, i, Empty);
      LiveCountUpdate(s.slots[i := Empty], j, Live(Plain, Idle));
      // the new holder keeps the count above zero, so ignoring it loses nothing
      LiveCountUpdate(Step(s, i).slots, j, Empty);
    } else {
      LiveCountUpdate(s.slots, i, Step(s, i).slots[i]);
    }
  }

  /** Nothing about setters depends on the slots that are not setting. */
  lemma SameSetters(s: System, s': System)
    requires OneSetter(s) && s'.ptrState == s.ptrState && s'.ptr == s.ptr && s'.reports == s.reports
    requires s'.executed == s.executed && s'.seen == s.seen
    requires forall i :: 0 <= i < |s.slots| && IsSetting(s.slots[i]) ==> i < |s'.slots| && s'.slots[i] == s.slots[i]
    requires forall i :: 0 <= i < |s'.slots| && IsSetting(s'.slots[i]) ==> i < |s.slots| && s'.slots[i] == s.slots[i]
    ensures OneSetter(s')
  {
    if s.ptrState.Setting? {
      var i :| 0 <= i < |s.slots| && IsSetting(s.slots[i]);
      assert IsSetting(s'.slots[i]);
    }
  }

  lemma OtherSlotsOnly(s: System, m: Move)
    requires Enabled(s, m) && !m.Execute? && !m.Advance?
    ensures var s' := Apply(s, m);
            && s'.ptrState == s.ptrState && s'.ptr == s.ptr && s'.reports == s.reports
            && s'.executed == s.executed && s'.seen == s.seen && |s'.slots| >= |s.slots|
            && (forall i :: 0 <= i < |s.slots| && IsSetting(s.slots[i]) ==> s'.slots[i] == s.slots[i])
            && (forall i :: 0 <= i < |s'.slots| && IsSetting(s'.slots[i]) ==> i < |s.slots| && s'.slots[i] == s.slots[i])
  {
  }

  lemma MoveKeepsSetter(s: System, m: Move)
    requires Counted(s) && OneSetter(s) && Conversions(s) && Enabled(s, m)
    ensures OneSetter(Apply(s, m))
  {
    var s' := Apply(s, m);
    if m.Execute? {
      NoSetterWhenSpawned(s);
    } else if m.Advance? {
      StepKeepsSetter(s, m.i);
    } else {
      OtherSlotsOnly(s, m);
      SameSetters(s, s');
    }
  }

  lemma StepKeepsSetter(s: System, i: nat)
    requires Counted(s) && OneSetter(s) && Conversions(s) && Enabled(s, Advance(i))
    ensures OneSetter(Step(s, i))
  {
    LiveCountUpdate(s.slots, i, Empty);
    assert s.executed == 0;
    match s.slots[i].op
    case Reporting(_, _) =>
      if s.ptrState.Unset? {
        assert IsSetting(Step(s, i).slots[i]);
      } else {
        SetterStays(s, i);
      }
    case Writing(_, _) =>
      assert IsSetting(s.slots[i]) && IsSetting(Step(s, i).slots[i]);
    case Publishing(_) =>
      assert IsSetting(s.slots[i]);
    case _ => SetterStays(s, i);
  }

  lemma SetterStays(s: System, i: nat)
    requires OneSetter(s) && Enabled(s, Advance(i)) && s.executed == 0
    requires !IsSetting(s.slots[i]) && !(s.slots[i].op.Reporting? && s.ptrState.Unset?)
    requires s.slots[i].op.Converting? ==>
               s.slots[i].op.to < |s.slots| && s.slots[s.slots[i].op.to] == Live(Plain, Reserved(i))
    ensures OneSetter(Step(s, i))
  {
    var s' := Step(s, i);
    assert forall j :: 0 <= j < |s'.slots| && IsSetting(s'.slots[j]) ==> s.slots[j] == s'.slots[j];
    if s.ptrState.Setting? {
      var j :| 0 <= j < |s.slots| && IsSetting(s.slots[j]);
      assert s'.slots[j] == s.slots[j];
    }
  }

  lemma NoSetterWhenSpawned(s: System)
    requires Counted(s) && OneSetter(s) && s.spawned == 1
    ensures !s.ptrState.Setting? && forall i :: 0 <= i < |s.slots| ==> s.slots[i].Empty?
  {
    forall i | 0 <= i < |s.slots| ensures s.slots[i].Empty? {
      LiveCountUpdate(s.slots, i, Empty);
    }
  }

  predicate InConversion(x: Slot) {
    x.Live? && (x.op.Converting? || x.op.Reserved?)
  }

  lemma ConversionsFrame(s: System, s': System)
    requires Conversions(s) && |s'.slots| >= |s.slots|
    requires forall i :: 0 <= i < |s.slots| && InConversion(s.slots[i]) ==> s'.slots[i] == s.slots[i]
    requires forall i :: 0 <= i < |s'.slots| && InConversion(s'.slots[i]) ==> i < |s.slots| && s.slots[i] == s'.slots[i]
    ensures Conversions(s')
  {
  }

  lemma StepKeepsConversions(s: System, i: nat)
    requires Conversions(s) && Enabled(s, Advance(i))
    ensures Conversions(Step(s, i))
  {
    if !s.slots[i].op.Converting? {
      ConversionsFrame(s, Step(s, i));
    }
  }

  lemma MoveKeepsConversions(s: System, m: Move)
    requires Conversions(s) && Enabled(s, m)
    ensures Conversions(Apply(s, m))
  {
    if m.Advance? {
      StepKeepsConversions(s, m.i);
    } else if !m.Convert? {
      ConversionsFrame(s, Apply(s, m));
    }
  }

  lemma MoveKeepsInv(s: System, m: Move)
    requires Inv(s) && Enabled(s, m)
    ensures Inv(Apply(s, m))
  {
    MoveKeepsCounted(s, m);
    MoveKeepsSetter(s, m);
    MoveKeepsConversions(s, m);
  }

  // ----- Whole runs -----

  ghost predicate Run(s: System, ms: seq<Move>, s': System)
    decreases |ms|
  {
    if ms == [] then s == s' else Enabled(s, ms[0]) && Run(Apply(s, ms[0]), ms[1..], s')
  }

  ghost predicate Reachable(s: System) {
    exists ms :: Run(INIT, ms, s)
  }

  lemma {:induction false} RunKeepsInv(s: System, ms: seq<Move>, s': System)
    requires Inv(s) && Run(s, ms, s')
    ensures Inv(s')
    decreases |ms|
  {
    if ms != [] {
      MoveKeepsInv(s, ms[0]);
      RunKeepsInv(Apply(s, ms[0]), ms[1..], s');
    }
  }

  lemma ReachableInv(s: System)
    requires Reachable(s)
    ensures Inv(s)
  {
    var ms :| Run(INIT, ms, s);
    RunKeepsInv(INIT, ms, s);
  }

  /** In every run the count is the number of holders and list nodes that refer to the task; the task is spawned once,
      exactly when the last of them is gone. */
  lemma SpawnedExactlyAtLastRelease(s: System)
    requires Reachable(s)
    ensures s.refCount == LiveCount(s.slots)
    ensures s.spawned == (if s.slots != [] && forall i :: 0 <= i < |s.slots| ==> s.slots[i].Empty? then 1 else 0)
    ensures s.executed <= s.spawned
  {
    ReachableInv(s);
    if s.spawned == 1 {
      NoSetterWhenSpawned(s);
    } else if s.slots != [] {
      SomeLive(s.slots);
    }
  }

  lemma {:induction false} SomeLive(slots: seq<Slot>)
    requires LiveCount(slots) > 0
    ensures exists i :: 0 <= i < |slots| && slots[i].Live?
  {
    var n := |slots| - 1;
    if !slots[n].Live? {
      SomeLive(slots[..n]);
      var i :| 0 <= i < n && slots[..n][i].Live?;
      assert slots[i].Live?;
    }
  }

  /** The execution of the task reads m_ptr without looking at m_ptrSet.  It runs after every holder is gone and no
      setter is mid-write, and it sees the failure reported first, or none if none was. */
  lemma ExecuteSeesFirstFailure(s: System)
    requires Reachable(s) && Enabled(s, Execute)
    ensures s.refCount == 0 && !s.ptrState.Setting? && forall i :: 0 <= i < |s.slots| ==> s.slots[i].Empty?
    ensures Apply(s, Execute).seen == FirstReport(s) && Apply(s, Execute).executed == 1
    ensures !Enabled(Apply(s, Execute), Execute)
  {
    ReachableInv(s);
    NoSetterWhenSpawned(s);
  }

  /** exceptionPtr, the checked read that may come at any time. */
  function ExceptionPtr(s: System): Option<Failure> {
    if s.ptrState.Set? then s.ptr else None
  }

  /** The checked read gives nothing or the first failure, and never changes its mind. */
  lemma CheckedReadIsStable(s: System, ms: seq<Move>, s': System)
    requires Reachable(s) && Run(s, ms, s')
    ensures ExceptionPtr(s).None? || ExceptionPtr(s) == FirstReport(s)
    ensures ExceptionPtr(s).Some? ==> ExceptionPtr(s') == ExceptionPtr(s)
  {
    ReachableInv(s);
    if s.ptrState.Set? {
      SetStays(s, ms, s');
      RunKeepsInv(s, ms, s');
    }
  }

  lemma {:induction false} SetStays(s: System, ms: seq<Move>, s': System)
    requires Inv(s) && Run(s, ms, s') && s.ptrState.Set?
    ensures s'.ptrState.Set? && FirstReport(s') == FirstReport(s)
    decreases |ms|
  {
    if ms != [] {
      MoveKeepsInv(s, ms[0]);
      SetMoveStays(s, ms[0]);
      SetStays(Apply(s, ms[0]), ms[1..], s');
    }
  }

  lemma SetMoveStays(s: System, m: Move)
    requires OneSetter(s) && Enabled(s, m) && s.ptrState.Set?
    ensures Apply(s, m).ptrState.Set? && FirstReport(Apply(s, m)) == FirstReport(s)
  {
  }
}
