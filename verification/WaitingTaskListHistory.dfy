/**
  Whole runs of the lock-free list, judged by the calls made: which tasks are added in which cycle, and with what each
  cycle ends.
 */
module WaitingTaskListHistory {
  import opened Options
  import opened WaitingTaskList
  import opened WaitingTaskListSteps
  import opened WaitingTaskListRuns
  import WaitingTaskListProgress

  /** One call of add, by overload and cycle. */
  datatype Added = Added(holder: bool, cycle: nat)

  /** What the calls so far amount to: the adds in order, how the cycles before have ended, and whether and how this one
      has. */
  datatype Log = Log(adds: seq<Added>, ends: seq<Option<Failure>>, end: Option<Failure>, done: bool)

  function After(log: Log, m: Move): Log {
    match m
    case StartAdd(h) => log.(adds := log.adds + [Added(h, |log.ends|)])
    case Finish(e, _) => log.(end := e, done := true)
    case Reset => log.(ends := log.ends + [log.end], end := None, done := false)
    case Advance(_) => log
  }

  function LogFrom(log: Log, ms: seq<Move>): Log
    decreases |ms|
  {
    if ms == [] then log else LogFrom(After(log, ms[0]), ms[1..])
  }

  function LogOf(ms: seq<Move>): Log {
    LogFrom(Log([], [], None, false), ms)
  }

  /** With what a cycle ends. */
  function EndOf(log: Log, cycle: nat): Option<Failure> {
    if cycle < |log.ends| then log.ends[cycle] else log.end
  }

  // ----- The state agrees with the calls -----

  function Seen(s: List): Log {
    Log(seq(|s.adds|, a requires 0 <= a < |s.adds| => Added(s.adds[a].holder, s.adds[a].epoch)), s.verdicts, s.verdict, s.done)
  }

  lemma StepKeepsCall(s: List, i: nat, a: nat)
    requires Enabled(s, Advance(i)) && a < |s.adds| == |Step(s, i).adds|
    ensures Step(s, i).adds[a].holder == s.adds[a].holder && Step(s, i).adds[a].epoch == s.adds[a].epoch
  {
    var pc, adds := s.acts[i], Step(s, i).adds;
    if pc.Tell? || pc.Create? || pc.Drop? {
      assert adds == s.adds[pc.add := adds[pc.add]];
    } else if pc.Take? || pc.PresetTell? {
      assert adds == s.adds[s.nodes[pc.node].add := adds[s.nodes[pc.node].add]];
    } else {
      assert adds == s.adds;
    }
  }

  lemma StepKeepsVerdicts(s: List, i: nat)
    requires Enabled(s, Advance(i))
    ensures Step(s, i).verdicts == s.verdicts && Step(s, i).verdict == s.verdict && Step(s, i).done == s.done
  {
    var pc := s.acts[i];
    if pc.Tell? || pc.Create? || pc.Drop? || pc.Take? || pc.PresetTell? {
    } else if pc.Exchange? || pc.LinkUp? || pc.Relink? || pc.Announce? {
    } else {
    }
  }

  lemma StepKeepsSeen(s: List, i: nat)
    requires Enabled(s, Advance(i))
    ensures Seen(Step(s, i)) == Seen(s)
  {
    StepKeepsCalls(s, i);
    StepKeepsVerdicts(s, i);
    forall a | 0 <= a < |s.adds| ensures Seen(Step(s, i)).adds[a] == Seen(s).adds[a] {
      StepKeepsCall(s, i, a);
    }
    hide Step;
  }

  lemma MoveIsLogged(s: List, m: Move)
    requires Enabled(s, m)
    ensures Seen(Apply(s, m)) == After(Seen(s), m)
  {
    if m.Advance? {
      StepKeepsSeen(s, m.act);
    } else if m.StartAdd? {
      assert Seen(Apply(s, m)).adds == Seen(s).adds + [Added(m.holder, Epoch(s))];
    } else {
      assert Seen(Apply(s, m)).adds == Seen(s).adds;
    }
  }

  lemma {:induction false} RunIsLogged(s: List, ms: seq<Move>, s': List)
    requires Run(s, ms, s')
    ensures Seen(s') == LogFrom(Seen(s), ms)
    decreases |ms|
  {
    hide Apply, Enabled, Seen, After;
    if ms != [] {
      MoveIsLogged(s, ms[0]);
      RunIsLogged(Apply(s, ms[0]), ms[1..], s');
    }
  }

  lemma StateIsLogged(size: nat, ms: seq<Move>, s: List)
    requires Run(Init(size), ms, s)
    ensures |s.adds| == |LogOf(ms).adds| && s.done == LogOf(ms).done && Epoch(s) == |LogOf(ms).ends|
    ensures forall a :: 0 <= a < |s.adds| ==>
              s.adds[a].holder == LogOf(ms).adds[a].holder && s.adds[a].epoch == LogOf(ms).adds[a].cycle
    ensures forall k: nat :: VerdictOf(s, k) == EndOf(LogOf(ms), k)
  {
    RunIsLogged(Init(size), ms, s);
    assert Seen(Init(size)) == Log([], [], None, false);
    assert Seen(s) == LogOf(ms);
    assert forall a :: 0 <= a < |s.adds| ==> Seen(s).adds[a] == Added(s.adds[a].holder, s.adds[a].epoch);
  }

  // ----- Main results -----

  /** In every run each added task is released at most once, not while the list it was added to waits, and by then it has
      been given the exception with which its cycle ends; nothing else is ever told to it. */
  lemma ReleasedWithTheEnd(size: nat, ms: seq<Move>, s: List, a: nat)
    requires Run(Init(size), ms, s) && a < |LogOf(ms).adds|
    ensures a < |s.adds| && s.adds[a].releases <= 1
    ensures var end := EndOf(LogOf(ms), LogOf(ms).adds[a].cycle);
            && (s.adds[a].releases == 1 ==> s.adds[a].told == end)
            && (s.adds[a].told.Some? ==> s.adds[a].told == end)
    ensures s.adds[a].releases == 1 && LogOf(ms).adds[a].cycle == |LogOf(ms).ends| ==> LogOf(ms).done
  {
    StateIsLogged(size, ms, s);
    ReleasedOnceAndToldFirst(size, s, a);
  }

  /** No lost task: when nothing is under way after a doneWaiting, every task added by any call so far has been released
      exactly once, with the exception of its cycle. */
  lemma EveryTaskReleasedWithTheEnd(size: nat, ms: seq<Move>, s: List, a: nat)
    requires Run(Init(size), ms, s) && Quiescent(s) && LogOf(ms).done && a < |LogOf(ms).adds|
    ensures a < |s.adds| && s.adds[a].releases == 1
    ensures s.adds[a].told == EndOf(LogOf(ms), LogOf(ms).adds[a].cycle)
  {
    StateIsLogged(size, ms, s);
    EveryTaskReleased(size, s);
  }

  /** The same where, after the last call, no productive step is left. */
  lemma MaximalRunReleasesWithTheEnd(size: nat, ms: seq<Move>, s: List, acts: seq<nat>, s': List, a: nat)
    requires Run(Init(size), ms, s) && LogOf(ms).done && a < |LogOf(ms).adds|
    requires WaitingTaskListProgress.ProductiveRun(s, acts, s') && (forall i :: !Productive(s', i))
    ensures |acts| <= WaitingTaskListProgress.Rank(s) && Quiescent(s')
    ensures a < |s'.adds| && s'.adds[a].releases == 1
    ensures s'.adds[a].told == EndOf(LogOf(ms), LogOf(ms).adds[a].cycle)
  {
    StateIsLogged(size, ms, s);
    WaitingTaskListProgress.MaximalRunReleases(size, s, acts, s');
    StepsAreNotLogged(s, acts, s');
    assert forall b :: 0 <= b < |s.adds| ==> Seen(s).adds[b] == Added(s.adds[b].holder, s.adds[b].epoch);
    assert forall b :: 0 <= b < |s'.adds| ==> Seen(s').adds[b] == Added(s'.adds[b].holder, s'.adds[b].epoch);
  }

  lemma {:induction false} StepsAreNotLogged(s: List, acts: seq<nat>, s': List)
    requires WaitingTaskListProgress.ProductiveRun(s, acts, s')
    ensures Seen(s') == Seen(s)
    decreases |acts|
  {
    if acts != [] {
      assert Enabled(s, Advance(acts[0]));
      StepKeepsSeen(s, acts[0]);
      hide Step, Enabled, Seen, Productive;
      StepsAreNotLogged(Step(s, acts[0]), acts[1..], s');
    }
  }
}
