// What the goroutines of an instance do over whole runs of the pool, told by the steps of the run
// alone: which step of a goroutine can come next, what kills a tomb, and when a signal is followed
// by the removal (dev/app.go).
module GoroutineRuns {
  import opened Lookup
  import opened Lifecycle

  datatype Goroutine = Watch | Idle | Restart | Probe | Wait

  function Caller(who: Remover): Goroutine {
    match who
    case ByWatch => Watch
    case ByIdle => Idle
    case ByRestart => Restart
  }

  // The goroutine of instance i that takes this step.
  predicate Takes(step: Step, i: Id, g: Goroutine) {
    match step
    case Local(id, l) =>
      id == i && (match g
        case Watch => l.StdoutClosed? || l.WatchSeesDying? || l.WatchSignals? || l.WatchReaps? || l.WatchReturns?
        case Idle => l.IdleSeesDying? || l.IdleSignals?
        case Restart => l.RestartTouched? || l.RestartSignals? || l.RestartReturns?
        case Probe => l.ProbeConnects? || l.ProbeSeesDying?
        case Wait => l.ProxySeesDying?)
    case Unmap(id, who) => id == i && g == Caller(who)
    case IdleTick(id) => id == i && g == Idle
    case _ => false
  }

  // The steps a goroutine has taken before step k, in order.
  function Trace(steps: seq<Step>, k: nat, i: Id, g: Goroutine): seq<Step>
    requires k <= |steps|
  {
    if k == 0 then []
    else Trace(steps, k - 1, i, g) + (if Takes(steps[k - 1], i, g) then [steps[k - 1]] else [])
  }

  function Last(t: seq<Step>): Step
    requires t != []
  {
    t[|t| - 1]
  }

  // The programs: after these steps of a goroutine, which can be the next.
  predicate MayFollow(t: seq<Step>, step: Step, i: Id) {
    match step
    case Local(_, StdoutClosed) => t == []
    case Local(_, WatchSeesDying) => t == []
    case Local(_, WatchSignals(_)) => |t| == 1
    case Local(_, WatchReaps) =>
      t != [] && Local(i, WatchReaps) !in t
      && (Last(t) == Local(i, WatchSignals(false)) || Last(t) == Unmap(i, ByWatch))
    case Local(_, WatchReturns) => t != [] && Local(i, WatchReaps) in t && Last(t) == Unmap(i, ByWatch)
    case Unmap(_, ByWatch) => t != [] && (Last(t) == Local(i, WatchSignals(true)) || Last(t) == Local(i, WatchReaps))
    case IdleTick(_) => t == []
    case Local(_, IdleSeesDying) => t == []
    case Local(_, IdleSignals(_)) => t != [] && Last(t) == IdleTick(i)
    case Unmap(_, ByIdle) => t != [] && Last(t) == Local(i, IdleSignals(true))
    case Local(_, RestartTouched) => RestartWaits(t, i)
    case Local(_, RestartReturns(_)) => RestartWaits(t, i)
    case Local(_, RestartSignals(_)) => t != [] && Last(t) == Local(i, RestartTouched)
    case Unmap(_, ByRestart) => t != [] && Last(t) == Local(i, RestartSignals(true))
    case Local(_, ProbeConnects) => t == []
    case Local(_, ProbeSeesDying) => t == []
    case Local(_, ProxySeesDying) => t == []
    case _ => false
  }

  predicate RestartWaits(t: seq<Step>, i: Id) {
    t == [] || Last(t) == Local(i, RestartSignals(false)) || Last(t) == Unmap(i, ByRestart)
  }

  // What a step waits for besides.
  ghost predicate Guard(s: State, step: Step, i: Id)
    requires i < |s.insts|
  {
    match step
    case Local(_, WatchReaps) => s.insts[i].Launched? && s.insts[i].exited
    case Local(_, WatchSeesDying) => s.insts[i].dying
    case Local(_, IdleSeesDying) => s.insts[i].dying
    case Local(_, RestartReturns(failed)) => failed || s.insts[i].dying
    case Local(_, ProbeSeesDying) => s.insts[i].dying
    case Local(_, ProxySeesDying) => s.insts[i].dying
    case Local(_, _) => true
    case _ => s.lock.Free?
  }

  // ---------------------------------------------------------------- where a goroutine stands

  predicate Begun(t: seq<Step>, i: Id, failed: bool) {
    t != [] && t[0] == Local(i, if failed then StdoutClosed else WatchSeesDying)
  }

  predicate WatchAt(w: WatchPc, t: seq<Step>, i: Id) {
    match w
    case Listening => t == []
    case Terminating(f) => Begun(t, i, f) && |t| == 1
    case Unmapping(f) => Begun(t, i, f) && Last(t) == Local(i, WatchSignals(true)) && Local(i, WatchReaps) !in t
    case Reaping(f) =>
      Begun(t, i, f) && |t| > 1 && Local(i, WatchReaps) !in t
      && (Last(t) == Local(i, WatchSignals(false)) || Last(t) == Unmap(i, ByWatch))
    case Cleaning(f) => Begun(t, i, f) && Last(t) == Local(i, WatchReaps)
    case Returning(f) => Begun(t, i, f) && Local(i, WatchReaps) in t && Last(t) == Unmap(i, ByWatch)
    case Stopped => |t| > 1 && Last(t) == Local(i, WatchReturns)
  }

  predicate IdleAt(m: MonitorPc, t: seq<Step>, i: Id) {
    match m
    case Looping => t == []
    case Signalling => t != [] && Last(t) == IdleTick(i)
    case Removing => t != [] && Last(t) == Local(i, IdleSignals(true))
    case Done => t != [] && Ends(Last(t), i)
  }

  predicate RestartAt(m: MonitorPc, t: seq<Step>, i: Id) {
    match m
    case Looping => RestartWaits(t, i)
    case Signalling => t != [] && Last(t) == Local(i, RestartTouched)
    case Removing => t != [] && Last(t) == Local(i, RestartSignals(true))
    case Done => t != [] && Ends(Last(t), i)
  }

  // The goroutine whose step this is returns with it.
  predicate Ends(step: Step, i: Id) {
    || step == Local(i, WatchReturns)
    || step == Local(i, IdleSeesDying) || step == Local(i, IdleSignals(false)) || step == Unmap(i, ByIdle)
    || step == Local(i, RestartReturns(false)) || step == Local(i, RestartReturns(true))
    || step == Local(i, ProbeConnects) || step == Local(i, ProbeSeesDying)
    || step == Local(i, ProxySeesDying)
  }

  predicate Ended(t: seq<Step>, i: Id) {
    t != [] && Ends(Last(t), i)
  }

  predicate StandsAt(a: Instance, g: Goroutine, t: seq<Step>, i: Id) {
    match a
    case Launched(_, _, _, _, watch, idle, restart, probing) =>
      (match g
       case Watch => WatchAt(watch, t, i)
       case Idle => IdleAt(idle, t, i)
       case Restart => RestartAt(restart, t, i)
       case Probe => if probing then t == [] else Ended(t, i)
       case Wait => t == [])
    case Proxy(_, _, waiting) =>
      if g == Wait && !waiting then Ended(t, i) else t == []
  }

  lemma LocalMoves(a: Instance, l: LocalStep, g: Goroutine, t: seq<Step>, i: Id)
    requires LocalEnabled(a, l) && StandsAt(a, g, t, i)
    ensures StandsAt(LocalApply(a, l), g, if Takes(Local(i, l), i, g) then t + [Local(i, l)] else t, i)
  {
  }

  lemma RemoveMoves(a: Instance, who: Remover, g: Goroutine, t: seq<Step>, i: Id)
    requires AtRemove(a, who) && StandsAt(a, g, t, i)
    ensures StandsAt(AfterRemove(a, who), g, if Takes(Unmap(i, who), i, g) then t + [Unmap(i, who)] else t, i)
  {
  }

  lemma StepMoves(s: State, step: Step, i: Id, g: Goroutine, t: seq<Step>)
    requires Enabled(s, step) && i < |s.insts| && StandsAt(s.insts[i], g, t, i)
    ensures StandsAt(Apply(s, step).insts[i], g, if Takes(step, i, g) then t + [step] else t, i)
  {
    match step {
      case Local(id, l) => if id == i { LocalMoves(s.insts[i], l, g, t, i); }
      case Unmap(id, who) => if id == i { RemoveMoves(s.insts[i], who, g, t, i); }
      case _ =>
    }
  }

  lemma {:induction false} UnlaunchedIsStill(states: seq<State>, steps: seq<Step>, k: nat, i: Id, g: Goroutine)
    requires Behaviour(states, steps) && k <= |steps| && i >= |states[k].insts|
    ensures Trace(steps, k, i, g) == []
  {
    if k > 0 {
      NextLater(states, steps, k - 1);
      UnlaunchedIsStill(states, steps, k - 1, i, g);
    }
  }

  lemma NewStands(s: State, step: Step, i: Id, g: Goroutine)
    requires Enabled(s, step) && |s.insts| <= i < |Apply(s, step).insts|
    ensures StandsAt(Apply(s, step).insts[i], g, [], i) && !Takes(step, i, g)
  {
  }

  lemma {:induction false} RunStands(states: seq<State>, steps: seq<Step>, k: nat, i: Id, g: Goroutine)
    requires Behaviour(states, steps) && k <= |steps| && i < |states[k].insts|
    ensures StandsAt(states[k].insts[i], g, Trace(steps, k, i, g), i)
  {
    if k > 0 {
      if i < |states[k - 1].insts| {
        RunStands(states, steps, k - 1, i, g);
        StepMoves(states[k - 1], steps[k - 1], i, g, Trace(steps, k - 1, i, g));
      } else {
        UnlaunchedIsStill(states, steps, k - 1, i, g);
        NewStands(states[k - 1], steps[k - 1], i, g);
      }
    }
  }

  // ---------------------------------------------------------------- the programs

  lemma StandsDecides(s: State, step: Step, i: Id, g: Goroutine, t: seq<Step>)
    requires i < |s.insts| && Takes(step, i, g) && StandsAt(s.insts[i], g, t, i)
    requires if g.Wait? then s.insts[i].Proxy? else s.insts[i].Launched?
    ensures Enabled(s, step) <==> MayFollow(t, step, i) && Guard(s, step, i)
  {
  }

  // In every run, a step of a goroutine is possible if and only if its program has it next after the
  // steps the goroutine has taken, and what it waits for has come.
  lemma GoroutineProgram(states: seq<State>, steps: seq<Step>, k: nat, step: Step, i: Id, g: Goroutine)
    requires Behaviour(states, steps) && k <= |steps| && i < |states[k].insts| && Takes(step, i, g)
    requires if g.Wait? then states[k].insts[i].Proxy? else states[k].insts[i].Launched?
    ensures Enabled(states[k], step) <==>
            MayFollow(Trace(steps, k, i, g), step, i) && Guard(states[k], step, i)
  {
    RunStands(states, steps, k, i, g);
    StandsDecides(states[k], step, i, g, Trace(steps, k, i, g));
  }

  lemma TakerIsLaunched(s: State, step: Step, i: Id, g: Goroutine)
    requires Enabled(s, step) && Takes(step, i, g)
    ensures i < |s.insts| && if g.Wait? then s.insts[i].Proxy? else s.insts[i].Launched?
  {
  }

  // A step that was taken was next in its program.
  lemma TakenFollows(states: seq<State>, steps: seq<Step>, k: nat, i: Id, g: Goroutine)
    requires Behaviour(states, steps) && k < |steps| && Takes(steps[k], i, g)
    ensures i < |states[k].insts| && MayFollow(Trace(steps, k, i, g), steps[k], i) && Guard(states[k], steps[k], i)
  {
    TakerIsLaunched(states[k], steps[k], i, g);
    GoroutineProgram(states, steps, k, steps[k], i, g);
  }

  lemma {:induction false} TraceHas(steps: seq<Step>, k: nat, i: Id, g: Goroutine, step: Step)
    requires k <= |steps| && Takes(step, i, g)
    ensures step in Trace(steps, k, i, g) <==> step in steps[..k]
  {
    if k > 0 {
      TraceHas(steps, k - 1, i, g, step);
      assert steps[..k] == steps[..k - 1] + [steps[k - 1]];
    }
  }

  lemma {:induction false} TraceGrows(steps: seq<Step>, a: nat, b: nat, i: Id, g: Goroutine)
    requires a < b <= |steps| && Takes(steps[a], i, g)
    requires forall k :: a < k < b ==> !Takes(steps[k], i, g)
    ensures Trace(steps, b, i, g) == Trace(steps, a, i, g) + [steps[a]]
    decreases b
  {
    if b > a + 1 {
      TraceGrows(steps, a, b - 1, i, g);
    }
  }

  // ---------------------------------------------------------------- signals and removals

  predicate SignalStep(step: Step, i: Id, who: Remover, ok: bool) {
    step == Local(i, match who
                     case ByWatch => WatchSignals(ok)
                     case ByIdle => IdleSignals(ok)
                     case ByRestart => RestartSignals(ok))
  }

  // Kill, in whichever goroutine: what it does next after signalling is the removal if and only if
  // the signal was sent.
  lemma SignalDecides(states: seq<State>, steps: seq<Step>, a: nat, b: nat, i: Id, who: Remover, ok: bool)
    requires Behaviour(states, steps) && a < b < |steps|
    requires SignalStep(steps[a], i, who, ok) && Takes(steps[b], i, Caller(who))
    requires forall k :: a < k < b ==> !Takes(steps[k], i, Caller(who))
    ensures steps[b] == Unmap(i, who) <==> ok
  {
    TraceGrows(steps, a, b, i, Caller(who));
    TakenFollows(states, steps, a, i, Caller(who));
    TakenFollows(states, steps, b, i, Caller(who));
  }

  // An instance is removed before its process has been waited for only by a goroutine whose own
  // signal has just been sent.
  lemma RemovalFollowsSignal(states: seq<State>, steps: seq<Step>, b: nat, i: Id, who: Remover)
    requires Behaviour(states, steps) && b < |steps| && steps[b] == Unmap(i, who)
    requires Local(i, WatchReaps) !in steps[..b]
    ensures var t := Trace(steps, b, i, Caller(who)); t != [] && SignalStep(Last(t), i, who, true)
  {
    TakenFollows(states, steps, b, i, Caller(who));
    TraceHas(steps, b, i, Watch, Local(i, WatchReaps));
    if who.ByWatch? {
      assert Last(Trace(steps, b, i, Watch)) in Trace(steps, b, i, Watch);
    }
  }

  lemma StepRemoved(s: State, step: Step, i: Id)
    requires Enabled(s, step)
    ensures i in Apply(s, step).removed <==> i in s.removed || (step.Unmap? && step.id == i)
  {
  }

  // Which instances have been removed.
  lemma {:induction false} RemovedExactly(states: seq<State>, steps: seq<Step>, k: nat, i: Id)
    requires Behaviour(states, steps) && k <= |steps|
    ensures i in states[k].removed <==> exists who :: Unmap(i, who) in steps[..k]
  {
    if k > 0 {
      RemovedExactly(states, steps, k - 1, i);
      StepRemoved(states[k - 1], steps[k - 1], i);
      assert steps[k - 1].Unmap? ==> steps[k - 1] == Unmap(steps[k - 1].id, steps[k - 1].who);
      assert steps[..k] == steps[..k - 1] + [steps[k - 1]];
    }
  }

  // watch waits for the process of an instance it has signalled only after removing it.
  lemma SignalledIsRemoved(states: seq<State>, steps: seq<Step>, a: nat, b: nat, i: Id)
    requires Behaviour(states, steps) && a < b < |steps|
    requires steps[a] == Local(i, WatchSignals(true)) && steps[b] == Local(i, WatchReaps)
    ensures i in states[b].removed
  {
    var t := Trace(steps, b, i, Watch);
    TakenFollows(states, steps, b, i, Watch);
    if Unmap(i, ByWatch) in steps[..b] {
      RemovedExactly(states, steps, b, i);
    } else {
      TraceHas(steps, b, i, Watch, Unmap(i, ByWatch));
      TraceHas(steps, b, i, Watch, Local(i, WatchSignals(true)));
      assert steps[a] in steps[..b];
      assert Last(t) in t;
      WatchInOrder(states, steps, b, i);
    }
  }

  // watch opens with its first step and signals with its second.
  predicate InOrder(t: seq<Step>) {
    forall m :: 0 <= m < |t| && t[m].Local? ==>
      ((t[m].l.StdoutClosed? || t[m].l.WatchSeesDying?) ==> m == 0) && (t[m].l.WatchSignals? ==> m == 1)
  }

  lemma InOrderNext(t: seq<Step>, step: Step, i: Id)
    requires InOrder(t) && MayFollow(t, step, i)
    ensures InOrder(t + [step])
  {
  }

  lemma {:induction false} WatchInOrder(states: seq<State>, steps: seq<Step>, k: nat, i: Id)
    requires Behaviour(states, steps) && k <= |steps|
    ensures InOrder(Trace(steps, k, i, Watch))
  {
    if k > 0 {
      WatchInOrder(states, steps, k - 1, i);
      if Takes(steps[k - 1], i, Watch) {
        TakenFollows(states, steps, k - 1, i, Watch);
        InOrderNext(Trace(steps, k - 1, i, Watch), steps[k - 1], i);
      }
    }
  }

  // ---------------------------------------------------------------- what the flags of an instance say

  lemma LocalFlags(a: Instance, l: LocalStep)
    requires LocalEnabled(a, l) && a.Launched?
    ensures var b := LocalApply(a, l);
      b.Launched? && (b.exited <==> a.exited || l == ProcessExits) && (b.ready <==> a.ready || l == ProbeConnects)
  {
  }

  lemma StepFlags(s: State, step: Step, i: Id)
    requires Enabled(s, step) && i < |s.insts| && s.insts[i].Launched?
    ensures var a, b := s.insts[i], Apply(s, step).insts[i];
      && b.Launched?
      && (b.exited <==> a.exited || step == Local(i, ProcessExits))
      && (b.ready <==> a.ready || step == Local(i, ProbeConnects))
  {
    match step {
      case Local(id, l) => if id == i { LocalFlags(s.insts[i], l); }
      case _ =>
    }
  }

  // A process has exited, and readyChan is closed, when there was such a step.
  lemma {:induction false} FlagsExactly(states: seq<State>, steps: seq<Step>, k: nat, i: Id)
    requires Behaviour(states, steps) && k <= |steps| && i < |states[k].insts| && states[k].insts[i].Launched?
    ensures states[k].insts[i].exited <==> Local(i, ProcessExits) in steps[..k]
    ensures states[k].insts[i].ready <==> Local(i, ProbeConnects) in steps[..k]
  {
    if k > 0 {
      assert steps[..k] == steps[..k - 1] + [steps[k - 1]];
      if i < |states[k - 1].insts| {
        NextLater(states, steps, k - 1);
        FlagsExactly(states, steps, k - 1, i);
        StepFlags(states[k - 1], steps[k - 1], i);
      } else {
        NotYetStepped(states, steps, k - 1, i);
      }
    }
  }

  lemma {:induction false} NotYetStepped(states: seq<State>, steps: seq<Step>, k: nat, i: Id)
    requires Behaviour(states, steps) && k <= |steps| && i >= |states[k].insts|
    ensures forall l :: Local(i, l) !in steps[..k]
  {
    if k > 0 {
      NextLater(states, steps, k - 1);
      NotYetStepped(states, steps, k - 1, i);
      assert steps[..k] == steps[..k - 1] + [steps[k - 1]];
    }
  }

  // All goroutines of the instance have returned.
  predicate AllEnded(steps: seq<Step>, k: nat, i: Id, launched: bool)
    requires k <= |steps|
  {
    if launched then
      && Ended(Trace(steps, k, i, Watch), i) && Ended(Trace(steps, k, i, Idle), i)
      && Ended(Trace(steps, k, i, Restart), i) && Ended(Trace(steps, k, i, Probe), i)
    else Ended(Trace(steps, k, i, Wait), i)
  }

  lemma FinishedExactly(states: seq<State>, steps: seq<Step>, k: nat, i: Id)
    requires Behaviour(states, steps) && k <= |steps| && i < |states[k].insts|
    ensures Finished(states[k].insts[i]) <==> AllEnded(steps, k, i, states[k].insts[i].Launched?)
  {
    forall g: Goroutine ensures StandsAt(states[k].insts[i], g, Trace(steps, k, i, g), i) {
      RunStands(states, steps, k, i, g);
    }
  }

  // Step k kills the tomb: a purge does, or one of its goroutines returns an error, which watch does
  // if the output ended first.
  ghost predicate KillsTomb(states: seq<State>, steps: seq<Step>, k: nat, i: Id)
    requires k < |steps| && |states| == |steps| + 1
  {
    || (steps[k].PurgeKills? && Enabled(states[k], steps[k])
        && states[k].purges[steps[k].p].targets[states[k].purges[steps[k].p].killed] == i)
    || steps[k] == Local(i, RestartReturns(true)) || steps[k] == Local(i, ProbeSeesDying)
    || (steps[k] == Local(i, WatchReturns) && Local(i, StdoutClosed) in steps[..k])
  }

  ghost predicate WasKilled(states: seq<State>, steps: seq<Step>, k: nat, i: Id)
    requires k <= |steps| && |states| == |steps| + 1
  {
    exists a :: 0 <= a < k && KillsTomb(states, steps, a, i)
  }

  ghost predicate StepKills(s: State, step: Step, i: Id)
    requires Enabled(s, step)
  {
    || (step.PurgeKills? && s.purges[step.p].targets[s.purges[step.p].killed] == i)
    || step == Local(i, RestartReturns(true)) || step == Local(i, ProbeSeesDying)
    || (step == Local(i, WatchReturns) && i < |s.insts| && s.insts[i].Launched? && s.insts[i].watch == Returning(true))
  }

  lemma LocalDying(a: Instance, l: LocalStep)
    requires InstanceOk(a) && LocalEnabled(a, l)
    ensures var b := LocalApply(a, l);
      b.dying <==> a.dying || l == RestartReturns(true) || l == ProbeSeesDying
                   || (l == WatchReturns && a.watch == Returning(true))
  {
  }

  lemma StepDying(s: State, step: Step, i: Id)
    requires Inv(s) && Enabled(s, step) && i < |s.insts|
    ensures var a, b := s.insts[i], Apply(s, step).insts[i];
      b.dying <==> a.dying || StepKills(s, step, i)
  {
    match step {
      case Local(id, l) => if id == i { LocalDying(s.insts[i], l); }
      case Unmap(id, who) => if id == i { RemoveKeeps(s.insts[i], who); }
      case _ =>
    }
  }

  lemma ReturnsError(states: seq<State>, steps: seq<Step>, k: nat, i: Id)
    requires Behaviour(states, steps) && k < |steps| && steps[k] == Local(i, WatchReturns)
    ensures i < |states[k].insts| && states[k].insts[i].Launched?
    ensures states[k].insts[i].watch == Returning(true) <==> Local(i, StdoutClosed) in steps[..k]
  {
    var t := Trace(steps, k, i, Watch);
    TakerIsLaunched(states[k], steps[k], i, Watch);
    RunStands(states, steps, k, i, Watch);
    TraceHas(steps, k, i, Watch, Local(i, StdoutClosed));
    WatchInOrder(states, steps, k, i);
    assert t[0] in t;
  }

  lemma StepKillsTomb(states: seq<State>, steps: seq<Step>, k: nat, i: Id)
    requires Behaviour(states, steps) && k < |steps|
    ensures StepKills(states[k], steps[k], i) <==> KillsTomb(states, steps, k, i)
  {
    if steps[k] == Local(i, WatchReturns) {
      ReturnsError(states, steps, k, i);
    }
  }

  lemma WasKilledNext(states: seq<State>, steps: seq<Step>, k: nat, i: Id)
    requires |states| == |steps| + 1 && k < |steps|
    ensures WasKilled(states, steps, k + 1, i) <==> WasKilled(states, steps, k, i) || KillsTomb(states, steps, k, i)
  {
    if WasKilled(states, steps, k + 1, i) && !KillsTomb(states, steps, k, i) {
      var a :| 0 <= a < k + 1 && KillsTomb(states, steps, a, i);
      assert a < k;
    }
  }

  lemma {:induction false} NotYetKilled(states: seq<State>, steps: seq<Step>, k: nat, i: Id)
    requires Behaviour(states, steps) && k <= |steps| && i >= |states[k].insts|
    ensures !WasKilled(states, steps, k, i)
  {
    if k > 0 {
      NextLater(states, steps, k - 1);
      NotYetKilled(states, steps, k - 1, i);
      WasKilledNext(states, steps, k - 1, i);
      NotYetStepped(states, steps, k, i);
      assert steps[k - 1] in steps[..k];
    }
  }

  // A tomb has been killed if and only if a purge did it or a goroutine of it returned an error: its
  // goroutines do not all return before.
  lemma {:induction false} DyingExactly(states: seq<State>, steps: seq<Step>, k: nat, i: Id)
    requires Behaviour(states, steps) && k <= |steps| && i < |states[k].insts|
    ensures states[k].insts[i].dying <==> WasKilled(states, steps, k, i)
  {
    if k > 0 {
      WasKilledNext(states, steps, k - 1, i);
      StepKillsTomb(states, steps, k - 1, i);
      if i < |states[k - 1].insts| {
        DyingExactly(states, steps, k - 1, i);
        RunKeeps(states, steps, k - 1);
        NextLater(states, steps, k - 1);
        StepDying(states[k - 1], steps[k - 1], i);
      } else {
        NotYetKilled(states, steps, k - 1, i);
      }
    }
  }

  // ---------------------------------------------------------------- launches and purges

  // Every instance was launched by a lookup that found something and no entry: for a directory, an
  // application, for a file, a proxy.
  lemma {:induction false} LaunchedAsAsked(states: seq<State>, steps: seq<Step>, k: nat, i: Id) returns (a: nat)
    requires Behaviour(states, steps) && k <= |steps| && i < |states[k].insts|
    ensures a < k && steps[a].Begin? && |states[a].insts| == i
    ensures var r := steps[a].resolution;
      && r.Target? && steps[a].name !in states[a].apps && r.canonical !in states[a].apps
      && states[k].insts[i].name == r.canonical && (states[k].insts[i].Launched? <==> r.isDir)
  {
    if i < |states[k - 1].insts| {
      a := LaunchedAsAsked(states, steps, k - 1, i);
      NextLater(states, steps, k - 1);
    } else {
      a := k - 1;
    }
  }

  // A purge kills what was mapped when it began, and nothing else.
  lemma {:induction false} PurgeKillsMapped(states: seq<State>, steps: seq<Step>, k: nat, p: nat) returns (a: nat)
    requires Behaviour(states, steps) && k <= |steps| && p < |states[k].purges|
    ensures a < k && steps[a].StartPurge? && |states[a].purges| == p
    ensures forall i :: i in states[k].purges[p].targets <==> i in states[a].apps.Values
  {
    if p < |states[k - 1].purges| {
      a := PurgeKillsMapped(states, steps, k - 1, p);
      NextLater(states, steps, k - 1);
    } else {
      a := k - 1;
      var s, order, targets := states[a], steps[a].order, states[k].purges[p].targets;
      forall i | i in s.apps.Values ensures i in targets {
        var key :| key in s.apps && s.apps[key] == i;
        var m :| 0 <= m < |order| && order[m] == key;
        assert targets[m] == i;
      }
      forall i | i in targets ensures i in s.apps.Values {
        var m :| 0 <= m < |targets| && targets[m] == i;
        assert order[m] in s.apps;
      }
    }
  }

  function Times(steps: seq<Step>, k: nat, step: Step): nat
    requires k <= |steps|
  {
    if k == 0 then 0 else Times(steps, k - 1, step) + (if steps[k - 1] == step then 1 else 0)
  }

  lemma StepPurge(s: State, step: Step, p: nat)
    requires Enabled(s, step) && p < |s.purges|
    ensures var q, r := s.purges[p], Apply(s, step).purges[p];
      && r.targets == q.targets
      && r.killed == q.killed + (if step == PurgeKills(p) then 1 else 0)
      && r.waited == q.waited + (if step == PurgeWaits(p) then 1 else 0)
  {
  }

  lemma {:induction false} NoPurgeYet(states: seq<State>, steps: seq<Step>, k: nat, p: nat)
    requires Behaviour(states, steps) && k <= |steps| && p >= |states[k].purges|
    ensures Times(steps, k, PurgeKills(p)) == 0 && Times(steps, k, PurgeWaits(p)) == 0
  {
    if k > 0 {
      NextLater(states, steps, k - 1);
      NoPurgeYet(states, steps, k - 1, p);
    }
  }

  // How far a purge has come, by its steps; the instances it is about are the ones mapped when it
  // began, in the order they were listed.
  lemma {:induction false} PurgeCounts(states: seq<State>, steps: seq<Step>, a: nat, k: nat, order: seq<string>)
    requires Behaviour(states, steps) && a < k <= |steps| && steps[a] == StartPurge(order)
    ensures var p := |states[a].purges|;
      && p < |states[k].purges|
      && states[k].purges[p].killed == Times(steps, k, PurgeKills(p))
      && states[k].purges[p].waited == Times(steps, k, PurgeWaits(p))
      && |states[k].purges[p].targets| == |order|
      && forall m :: 0 <= m < |order| ==>
           order[m] in states[a].apps && states[k].purges[p].targets[m] == states[a].apps[order[m]]
    decreases k
  {
    if k == a + 1 {
      NoPurgeYet(states, steps, a, |states[a].purges|);
    } else {
      PurgeCounts(states, steps, a, k - 1, order);
      StepPurge(states[k - 1], steps[k - 1], |states[a].purges|);
      NextLater(states, steps, k - 1);
    }
  }

  // In every run, a purge can kill its next instance until it has killed all, and then, and only
  // then, wait for its next one if that is dead.
  lemma PurgeProgram(states: seq<State>, steps: seq<Step>, a: nat, k: nat, order: seq<string>)
    requires Behaviour(states, steps) && a < k <= |steps| && steps[a] == StartPurge(order)
    ensures var p := |states[a].purges|;
            var kills, waits := Times(steps, k, PurgeKills(p)), Times(steps, k, PurgeWaits(p));
      && (Enabled(states[k], PurgeKills(p)) <==> kills < |order|)
      && (kills < |order| ==>
            states[a].apps[order[kills]] < |states[k].insts|
            && Apply(states[k], PurgeKills(p)).insts[states[a].apps[order[kills]]].dying)
      && (Enabled(states[k], PurgeWaits(p)) <==>
            kills == |order| && waits < |order| && order[waits] in states[a].apps
            && states[a].apps[order[waits]] < |states[k].insts|
            && Finished(states[k].insts[states[a].apps[order[waits]]]))
  {
    PurgeCounts(states, steps, a, k, order);
    RunKeeps(states, steps, k);
    assert PurgeOk(states[k], states[k].purges[|states[a].purges|]);
  }

  // ---------------------------------------------------------------- nobody is kept out

  lemma KeysInOrder(keys: set<string>) returns (order: seq<string>)
    ensures RangeOrder(order, keys)
  {
    if keys == {} {
      return [];
    }
    var key :| key in keys;
    var rest := KeysInOrder(keys - {key});
    order := rest + [key];
  }

  // Between lookups, a request for a mapped name is answered from the map, one for another name that
  // is found begins a lookup, and a purge can begin; a lookup once begun can return.
  lemma RequestsAreServed(states: seq<State>, steps: seq<Step>, k: nat, name: string, r: Resolution)
    requires Behaviour(states, steps) && k < |states|
    ensures var s := states[k];
      if s.lock.Held? then Enabled(s, End)
      else if name in s.apps then
        Enabled(s, Hit(name)) && Apply(s, Hit(name)) == s && AnswerOf(s, Hit(name)) == Given(s.apps[name])
      else r.Target? ==> Enabled(s, Begin(name, r))
    ensures states[k].lock.Free? ==> exists order :: Enabled(states[k], StartPurge(order))
  {
    if states[k].lock.Free? {
      var order := KeysInOrder(states[k].apps.Keys);
      assert Enabled(states[k], StartPurge(order));
    }
  }

  // A process can exit at any time, whatever the pool does, and once.
  lemma ProcessCanExit(states: seq<State>, steps: seq<Step>, k: nat, i: Id)
    requires Behaviour(states, steps) && k <= |steps| && i < |states[k].insts| && states[k].insts[i].Launched?
    ensures Enabled(states[k], Local(i, ProcessExits)) <==> Local(i, ProcessExits) !in steps[..k]
  {
    FlagsExactly(states, steps, k, i);
  }
}
