// Every interleaving of the pool's users: lookups, the four goroutines of each launched
// application, idle eviction and purges, with the pool lock explicit (dev/app.go).
module Lifecycle {
  import opened Lookup

  type Id = nat

  // ---------------------------------------------------------------- one instance

  // watch: waiting in its select, inside Kill (signalling, then removing), in Command.Wait, at
  // its own removal, and returning. `failed` tells whether it will return an error.
  datatype WatchPc =
    | Listening
    | Terminating(failed: bool)
    | Unmapping(failed: bool)
    | Reaping(failed: bool)
    | Cleaning(failed: bool)
    | Returning(failed: bool)
    | Stopped

  // idleMonitor and restartMonitor: waiting, inside Kill, or returned.
  datatype MonitorPc = Looping | Signalling | Removing | Done

  datatype Instance =
    | Launched(name: string, dying: bool, exited: bool, ready: bool,
               watch: WatchPc, idle: MonitorPc, restart: MonitorPc, probing: bool)
    | Proxy(name: string, dying: bool, waiting: bool)

  function NewInstance(name: string, isDir: bool): Instance {
    if isDir then Launched(name, false, false, false, Listening, Looping, Looping, true)
    else Proxy(name, false, true)
  }

  // Every goroutine of the tomb has returned: the tomb is dead.
  predicate Finished(a: Instance) {
    match a
    case Launched(_, _, _, _, watch, idle, restart, probing) =>
      watch.Stopped? && idle.Done? && restart.Done? && !probing
    case Proxy(_, _, waiting) => !waiting
  }

  // The tomb when one of its goroutines has just returned: an error, or being the last, kills it.
  function Returned(a: Instance, failed: bool): Instance {
    a.(dying := a.dying || failed || Finished(a))
  }

  // Steps of an instance that do not touch the pool.
  datatype LocalStep =
    | StdoutClosed | WatchSeesDying | WatchSignals(ok: bool) | ProcessExits | WatchReaps | WatchReturns
    | IdleSeesDying | IdleSignals(ok: bool)
    | RestartTouched | RestartSignals(ok: bool) | RestartReturns(failed: bool)
    | ProbeConnects | ProbeSeesDying
    | ProxySeesDying

  predicate LocalEnabled(a: Instance, l: LocalStep) {
    if a.Proxy? then l.ProxySeesDying? && a.waiting && a.dying
    else match l
      case StdoutClosed => a.watch.Listening?
      case WatchSeesDying => a.watch.Listening? && a.dying
      case WatchSignals(_) => a.watch.Terminating?
      case ProcessExits => !a.exited
      case WatchReaps => a.watch.Reaping? && a.exited
      case WatchReturns => a.watch.Returning?
      case IdleSeesDying => a.idle.Looping? && a.dying
      case IdleSignals(_) => a.idle.Signalling?
      case RestartTouched => a.restart.Looping?
      case RestartSignals(_) => a.restart.Signalling?
      case RestartReturns(failed) => a.restart.Looping? && (failed || a.dying)
      case ProbeConnects => a.probing
      case ProbeSeesDying => a.probing && a.dying
      case ProxySeesDying => false
  }

  function LocalApply(a: Instance, l: LocalStep): Instance
    requires LocalEnabled(a, l)
  {
    match l
    case StdoutClosed => a.(watch := Terminating(true))
    case WatchSeesDying => a.(watch := Terminating(false))
    case WatchSignals(ok) => a.(watch := if ok then Unmapping(a.watch.failed) else Reaping(a.watch.failed))
    case ProcessExits => a.(exited := true)
    case WatchReaps => a.(watch := Cleaning(a.watch.failed))
    case WatchReturns => Returned(a.(watch := Stopped), a.watch.failed)
    case IdleSeesDying => Returned(a.(idle := Done), false)
    case IdleSignals(ok) => if ok then a.(idle := Removing) else Returned(a.(idle := Done), false)
    case RestartTouched => a.(restart := Signalling)
    case RestartSignals(ok) => a.(restart := if ok then Removing else Looping)
    case RestartReturns(failed) => Returned(a.(restart := Done), failed)
    case ProbeConnects => Returned(a.(probing := false, ready := true), false)
    case ProbeSeesDying => Returned(a.(probing := false), true)
    case ProxySeesDying => Returned(a.(waiting := false), false)
  }

  // Who calls pool.remove.
  datatype Remover = ByWatch | ByIdle | ByRestart

  predicate AtRemove(a: Instance, who: Remover) {
    a.Launched? &&
    match who
    case ByWatch => a.watch.Unmapping? || a.watch.Cleaning?
    case ByIdle => a.idle.Removing?
    case ByRestart => a.restart.Removing?
  }

  function AfterRemove(a: Instance, who: Remover): Instance
    requires AtRemove(a, who)
  {
    match who
    case ByWatch =>
      a.(watch := if a.watch.Unmapping? then Reaping(a.watch.failed) else Returning(a.watch.failed))
    case ByIdle => Returned(a.(idle := Done), false)
    case ByRestart => a.(restart := Looping)
  }

  // ---------------------------------------------------------------- the whole pool

  // A lookup that found an entry holds the lock from its launch to its return.
  datatype Lock = Free | Held(name: string, resolution: Resolution, id: Id)

  // A purge: its snapshot (an instance is listed once per key), how far it killed and waited.
  datatype Purge = Purge(targets: seq<Id>, killed: nat, waited: nat)

  datatype State = State(apps: map<string, Id>, insts: seq<Instance>, lock: Lock,
                         purges: seq<Purge>, removed: set<Id>)

  const INIT := State(map[], [], Free, [], {})

  datatype Step =
    | Hit(name: string)
    | Begin(name: string, resolution: Resolution)
    | End
    | Local(id: Id, l: LocalStep)
    | Unmap(id: Id, who: Remover)
    | IdleTick(id: Id)
    | StartPurge(order: seq<string>)
    | PurgeKills(p: nat)
    | PurgeWaits(p: nat)

  // The keys of the map, each once, in some order.
  ghost predicate RangeOrder(order: seq<string>, keys: set<string>) {
    && (forall k :: k in order <==> k in keys)
    && (forall i, j :: 0 <= i < j < |order| ==> order[i] != order[j])
  }

  // The index bounds in the purge steps hold in every reachable state; they make Apply well defined.
  ghost predicate Enabled(s: State, step: Step) {
    match step
    case Hit(name) => s.lock.Free? && name in s.apps
    case Begin(name, r) => s.lock.Free? && name !in s.apps && r.Target?
    case End => s.lock.Held?
    case Local(id, l) => id < |s.insts| && LocalEnabled(s.insts[id], l)
    case Unmap(id, who) => s.lock.Free? && id < |s.insts| && AtRemove(s.insts[id], who)
    case IdleTick(id) => s.lock.Free? && id < |s.insts| && s.insts[id].Launched? && s.insts[id].idle.Looping?
    case StartPurge(order) => s.lock.Free? && RangeOrder(order, s.apps.Keys)
    case PurgeKills(p) =>
      p < |s.purges| && s.purges[p].killed < |s.purges[p].targets|
      && s.purges[p].targets[s.purges[p].killed] < |s.insts|
    case PurgeWaits(p) =>
      p < |s.purges| && s.purges[p].killed == |s.purges[p].targets| && s.purges[p].waited < |s.purges[p].targets|
      && s.purges[p].targets[s.purges[p].waited] < |s.insts|
      && Finished(s.insts[s.purges[p].targets[s.purges[p].waited]])
  }

  ghost function Apply(s: State, step: Step): State
    requires Enabled(s, step)
  {
    match step
    case Hit(_) => s
    case Begin(name, r) =>
      if r.canonical in s.apps then s.(lock := Held(name, r, s.apps[r.canonical]))
      else s.(insts := s.insts + [NewInstance(r.canonical, r.isDir)], lock := Held(name, r, |s.insts|))
    case End =>
      s.(apps := LookupApp(s.apps, s.lock.name, s.lock.resolution, Started(s.lock.id)).apps, lock := Free)
    case Local(id, l) => s.(insts := s.insts[id := LocalApply(s.insts[id], l)])
    case Unmap(id, who) =>
      s.(apps := Remove(s.apps, id), insts := s.insts[id := AfterRemove(s.insts[id], who)], removed := s.removed + {id})
    case IdleTick(id) =>
      s.(apps := Evict(s.apps, s.insts[id].name), insts := s.insts[id := s.insts[id].(idle := Signalling)])
    case StartPurge(order) =>
      s.(purges := s.purges + [Purge(seq(|order|, i requires 0 <= i < |order| => s.apps[order[i]]), 0, 0)])
    case PurgeKills(p) =>
      var q := s.purges[p];
      var id := q.targets[q.killed];
      s.(insts := s.insts[id := s.insts[id].(dying := true)], purges := s.purges[p := q.(killed := q.killed + 1)])
    case PurgeWaits(p) =>
      var q := s.purges[p];
      s.(purges := s.purges[p := q.(waited := q.waited + 1)])
  }

  // The instance a step hands to a request.
  datatype Answer = Nobody | Given(id: Id)

  ghost function AnswerOf(s: State, step: Step): Answer
    requires Enabled(s, step)
  {
    match step
    case Hit(name) => Given(s.apps[name])
    case End => Given(s.lock.id)
    case _ => Nobody
  }

  // ---------------------------------------------------------------- the invariant

  // watch has got past its last removal.
  predicate WatchOver(a: Instance) {
    a.Launched? && (a.watch.Returning? || a.watch.Stopped?)
  }

  // watch has waited for its process.
  predicate Reaped(a: Instance) {
    a.Launched? && (a.watch.Cleaning? || a.watch.Returning? || a.watch.Stopped?)
  }

  // watch ends without an error only after the tomb was killed, a dead tomb was killed, the boot
  // probe closes readyChan only once, and a process that was waited for has exited.
  predicate InstanceOk(a: Instance) {
    && (Finished(a) ==> a.dying)
    && (a.Launched? ==>
        (a.probing ==> !a.ready) && (!a.watch.Listening? && !a.watch.Stopped? && !a.watch.failed ==> a.dying))
    && (a.Launched? && a.watch.Stopped? ==> a.dying)
    && (Reaped(a) ==> a.exited)
  }

  ghost predicate MapOk(s: State) {
    forall k :: k in s.apps ==> s.apps[k] < |s.insts| && s.apps[k] !in s.removed
  }

  ghost predicate LockOk(s: State) {
    s.lock.Held? ==>
      var id, r := s.lock.id, s.lock.resolution;
      && r.Target? && id < |s.insts| && id !in s.removed && s.lock.name !in s.apps
      && (if r.canonical in s.apps then s.apps[r.canonical] == id
          else s.insts[id].name == r.canonical && id !in s.apps.Values)
  }

  ghost predicate InstancesOk(s: State) {
    && (forall i :: i in s.removed ==> i < |s.insts|)
    && (forall i :: 0 <= i < |s.insts| ==> InstanceOk(s.insts[i]) && (WatchOver(s.insts[i]) ==> i in s.removed))
  }

  ghost predicate PurgeOk(s: State, q: Purge) {
    && q.waited <= q.killed <= |q.targets|
    && (q.waited > 0 ==> q.killed == |q.targets|)
    && (forall k :: 0 <= k < |q.targets| ==> q.targets[k] < |s.insts|)
    && (forall k :: 0 <= k < q.killed ==> s.insts[q.targets[k]].dying)
    && (forall k :: 0 <= k < q.waited ==> Finished(s.insts[q.targets[k]]))
  }

  ghost predicate PurgesOk(s: State) {
    forall p :: 0 <= p < |s.purges| ==> PurgeOk(s, s.purges[p])
  }

  ghost predicate Inv(s: State) {
    MapOk(s) && LockOk(s) && InstancesOk(s) && PurgesOk(s)
  }

  // What no step undoes: instances keep their kind and name, a killed tomb stays killed, a dead
  // one dead, a removed instance stays removed, and no purge loses its snapshot.
  ghost predicate Later(s: State, t: State) {
    && |s.insts| <= |t.insts| && |s.purges| <= |t.purges|
    && s.removed <= t.removed
    && (forall i :: 0 <= i < |s.insts| ==>
          var a, b := s.insts[i], t.insts[i];
          b.name == a.name && b.Launched? == a.Launched? && (a.dying ==> b.dying) && (Finished(a) ==> Finished(b)))
    && (forall p :: 0 <= p < |s.purges| ==> t.purges[p].targets == s.purges[p].targets)
  }

  lemma LaterTrans(s: State, t: State, u: State)
    requires Later(s, t) && Later(t, u)
    ensures Later(s, u)
  {
  }

  lemma LocalKeeps(a: Instance, l: LocalStep)
    requires InstanceOk(a) && LocalEnabled(a, l)
    ensures var b := LocalApply(a, l);
      InstanceOk(b) && (WatchOver(b) ==> WatchOver(a))
      && b.name == a.name && b.Launched? == a.Launched? && (a.dying ==> b.dying) && (Finished(a) ==> Finished(b))
  {
  }

  lemma RemoveKeeps(a: Instance, who: Remover)
    requires InstanceOk(a) && AtRemove(a, who)
    ensures var b := AfterRemove(a, who);
      InstanceOk(b) && b.name == a.name && b.Launched? && (a.dying ==> b.dying) && (Finished(a) ==> Finished(b))
  {
  }

  // Replacing one instance by a later form of itself.
  lemma UpdateKeeps(s: State, id: Id, b: Instance)
    requires Inv(s) && id < |s.insts| && InstanceOk(b)
    requires var a := s.insts[id];
      && (WatchOver(b) ==> id in s.removed)
      && b.name == a.name && b.Launched? == a.Launched? && (a.dying ==> b.dying) && (Finished(a) ==> Finished(b))
    ensures var t := s.(insts := s.insts[id := b]); Inv(t) && Later(s, t)
  {
  }

  lemma UnmapKeeps(s: State, id: Id, who: Remover)
    requires Inv(s) && Enabled(s, Unmap(id, who))
    ensures var t := Apply(s, Unmap(id, who)); Inv(t) && Later(s, t)
  {
    RemoveKeeps(s.insts[id], who);
    var r := s.(apps := Remove(s.apps, id), removed := s.removed + {id});
    assert forall k :: k in r.apps ==> r.apps[k] in r.apps.Values;
    forall p | 0 <= p < |r.purges| ensures PurgeOk(r, r.purges[p]) {
      assert PurgeOk(s, s.purges[p]);
    }
    assert Inv(r);
    UpdateKeeps(r, id, AfterRemove(s.insts[id], who));
  }

  lemma IdleTickKeeps(s: State, id: Id)
    requires Inv(s) && Enabled(s, IdleTick(id))
    ensures var t := Apply(s, IdleTick(id)); Inv(t) && Later(s, t)
  {
  }

  lemma StartPurgeKeeps(s: State, order: seq<string>)
    requires Inv(s) && Enabled(s, StartPurge(order))
    ensures var t := Apply(s, StartPurge(order)); Inv(t) && Later(s, t)
  {
  }

  lemma PurgeKillsKeeps(s: State, p: nat)
    requires Inv(s) && Enabled(s, PurgeKills(p))
    ensures var t := Apply(s, PurgeKills(p)); Inv(t) && Later(s, t)
  {
    var q := s.purges[p];
    var id := q.targets[q.killed];
    assert PurgeOk(s, q);
    var r := s.(insts := s.insts[id := s.insts[id].(dying := true)]);
    UpdateKeeps(s, id, s.insts[id].(dying := true));
    assert Apply(s, PurgeKills(p)) == r.(purges := r.purges[p := q.(killed := q.killed + 1)]);
    KilledOneMore(r, p);
  }

  lemma KilledOneMore(r: State, p: nat)
    requires Inv(r) && p < |r.purges|
    requires var q := r.purges[p]; q.killed < |q.targets| && q.targets[q.killed] < |r.insts|
    requires r.insts[r.purges[p].targets[r.purges[p].killed]].dying
    ensures var q := r.purges[p];
            var t := r.(purges := r.purges[p := q.(killed := q.killed + 1)]);
            Inv(t) && Later(r, t)
  {
  }

  lemma PurgeWaitsKeeps(s: State, p: nat)
    requires Inv(s) && Enabled(s, PurgeWaits(p))
    ensures var t := Apply(s, PurgeWaits(p)); Inv(t) && Later(s, t)
  {
  }

  lemma BeginKeeps(s: State, name: string, r: Resolution)
    requires Inv(s) && Enabled(s, Begin(name, r))
    ensures var t := Apply(s, Begin(name, r)); Inv(t) && Later(s, t)
  {
  }

  lemma EndKeeps(s: State)
    requires Inv(s) && Enabled(s, End)
    ensures var t := Apply(s, End); Inv(t) && Later(s, t)
    ensures s.lock.id in Apply(s, End).apps.Values
  {
  }

  lemma StepKeeps(s: State, step: Step)
    requires Inv(s) && Enabled(s, step)
    ensures Inv(Apply(s, step)) && Later(s, Apply(s, step))
  {
    match step {
      case Hit(_) =>
      case Begin(name, r) => BeginKeeps(s, name, r);
      case End => EndKeeps(s);
      case Local(id, l) =>
        LocalKeeps(s.insts[id], l);
        UpdateKeeps(s, id, LocalApply(s.insts[id], l));
      case Unmap(id, who) => UnmapKeeps(s, id, who);
      case IdleTick(id) => IdleTickKeeps(s, id);
      case StartPurge(order) => StartPurgeKeeps(s, order);
      case PurgeKills(p) => PurgeKillsKeeps(s, p);
      case PurgeWaits(p) => PurgeWaitsKeeps(s, p);
    }
  }

  // ---------------------------------------------------------------- whole runs

  // A run: states[0] is the empty pool and every step leads from one state to the next.
  ghost predicate Behaviour(states: seq<State>, steps: seq<Step>) {
    && |states| == |steps| + 1
    && states[0] == INIT
    && forall k :: 0 <= k < |steps| ==> Enabled(states[k], steps[k]) && states[k + 1] == Apply(states[k], steps[k])
  }

  // A run is extended by taking an enabled step.
  lemma Take(states: seq<State>, steps: seq<Step>, step: Step)
    requires Behaviour(states, steps) && Enabled(states[|steps|], step)
    ensures Behaviour(states + [Apply(states[|steps|], step)], steps + [step])
  {
  }

  lemma {:induction false} RunKeeps(states: seq<State>, steps: seq<Step>, k: nat)
    requires Behaviour(states, steps) && k < |states|
    ensures Inv(states[k])
  {
    if k > 0 {
      RunKeeps(states, steps, k - 1);
      StepKeeps(states[k - 1], steps[k - 1]);
    }
  }

  lemma NextLater(states: seq<State>, steps: seq<Step>, k: nat)
    requires Behaviour(states, steps) && k < |steps|
    ensures Later(states[k], states[k + 1])
  {
    RunKeeps(states, steps, k);
    StepKeeps(states[k], steps[k]);
  }

  lemma {:induction false} ChainLater(states: seq<State>, a: nat, b: nat)
    requires a <= b < |states|
    requires forall k :: 0 <= k < |states| - 1 ==> Later(states[k], states[k + 1])
    ensures Later(states[a], states[b])
    decreases b
  {
    if a < b {
      ChainLater(states, a, b - 1);
      assert Later(states[b - 1], states[b - 1 + 1]);
      LaterTrans(states[a], states[b - 1], states[b]);
    }
  }

  lemma RunLater(states: seq<State>, steps: seq<Step>, a: nat, b: nat)
    requires Behaviour(states, steps) && a <= b < |states|
    ensures Later(states[a], states[b])
  {
    forall k | 0 <= k < |states| - 1 ensures Later(states[k], states[k + 1]) {
      NextLater(states, steps, k);
    }
    ChainLater(states, a, b);
  }

  // ---------------------------------------------------------------- lookups are atomic

  // What goes on while a lookup holds the lock.
  predicate Lockless(step: Step) {
    step.Local? || step.PurgeKills? || step.PurgeWaits?
  }

  lemma HeldStays(s: State, step: Step)
    requires Enabled(s, step) && s.lock.Held? && !step.End?
    ensures Apply(s, step).apps == s.apps && Apply(s, step).lock == s.lock && Lockless(step)
  {
  }

  lemma {:induction false} HeldFor(states: seq<State>, steps: seq<Step>, a: nat, b: nat)
    requires Behaviour(states, steps) && a <= b <= |steps| && states[a].lock.Held?
    requires forall k :: a <= k < b ==> !steps[k].End?
    ensures states[b].apps == states[a].apps && states[b].lock == states[a].lock
    ensures forall k :: a <= k < b ==> Lockless(steps[k])
    decreases b
  {
    if a < b {
      HeldFor(states, steps, a, b - 1);
      HeldStays(states[b - 1], steps[b - 1]);
    }
  }

  // However the goroutines run between a lookup's launch and its return, the lookup is the one
  // application of LookupApp to the map it found, with a new instance if it needs one; and nothing
  // else that takes the lock happens in between.
  lemma LookupIsAtomic(states: seq<State>, steps: seq<Step>, a: nat, b: nat)
    requires Behaviour(states, steps) && a < b < |steps|
    requires steps[a].Begin? && steps[b].End? && forall k :: a < k < b ==> !steps[k].End?
    ensures var s, q := states[a], steps[a];
            var o := LookupApp(s.apps, q.name, q.resolution, Started(|s.insts|));
      && states[b].apps == s.apps && states[b + 1].apps == o.apps
      && o.result.Ok? && AnswerOf(states[b], steps[b]) == Given(o.result.app)
      && |states[a + 1].insts| == |s.insts| + (if o.booted then 1 else 0)
      && (forall k :: a < k < b ==> Lockless(steps[k]))
  {
    HeldFor(states, steps, a + 1, b);
  }

  // Instance i is not mapped in states[k] and no step from there hands it out.
  ghost predicate GoneAt(states: seq<State>, steps: seq<Step>, k: nat, i: Id)
    requires Behaviour(states, steps) && k < |states|
  {
    && i !in states[k].apps.Values
    && (k < |steps| ==> AnswerOf(states[k], steps[k]) != Given(i))
  }

  lemma RemovedIsGone(states: seq<State>, steps: seq<Step>, a: nat, b: nat, i: Id)
    requires Behaviour(states, steps) && a <= b < |states| && i in states[a].removed
    ensures GoneAt(states, steps, b, i)
  {
    RunLater(states, steps, a, b);
    RunKeeps(states, steps, b);
  }

  // Removal is permanent: once any goroutine has run pool.remove on an instance, no key maps to
  // it again and no lookup returns it, whatever happens afterwards.
  lemma RemovalIsPermanent(states: seq<State>, steps: seq<Step>, a: nat, b: nat, i: Id, who: Remover)
    requires Behaviour(states, steps) && a < b < |states|
    requires steps[a] == Unmap(i, who)
    ensures GoneAt(states, steps, b, i)
  {
    RemovedIsGone(states, steps, a + 1, b, i);
  }

  // In particular once a launched application's watch is over: the lock its launch was made under
  // keeps that from happening before it is mapped.
  lemma WatchOverIsGone(states: seq<State>, steps: seq<Step>, a: nat, b: nat, i: Id)
    requires Behaviour(states, steps) && a <= b < |states|
    requires i < |states[a].insts| && WatchOver(states[a].insts[i])
    ensures GoneAt(states, steps, b, i)
  {
    RunKeeps(states, steps, a);
    RemovedIsGone(states, steps, a, b, i);
  }

  // Not mapped, and not about to be.
  ghost predicate Out(s: State, i: Id) {
    i < |s.insts| && i !in s.apps.Values && !(s.lock.Held? && s.lock.id == i)
  }

  lemma StepKeepsOut(s: State, step: Step, i: Id)
    requires Inv(s) && Enabled(s, step) && Out(s, i)
    ensures Out(Apply(s, step), i) && AnswerOf(s, step) != Given(i)
  {
    if step.End? {
      LookupExtends(s.apps, s.lock.name, s.lock.resolution, Started(s.lock.id));
    }
  }

  // Removed or not, what has dropped out of the map never comes back.
  lemma {:induction false} OutForGood(states: seq<State>, steps: seq<Step>, a: nat, b: nat, i: Id)
    requires Behaviour(states, steps) && a <= b < |states| && Out(states[a], i)
    ensures Out(states[b], i) && GoneAt(states, steps, b, i)
    decreases b
  {
    if a < b {
      OutForGood(states, steps, a, b - 1, i);
      RunKeeps(states, steps, b - 1);
      StepKeepsOut(states[b - 1], steps[b - 1], i);
    }
  }

  // The boot probe closes readyChan at most once, and never on a channel already closed.
  lemma ReadyClosedOnce(states: seq<State>, steps: seq<Step>, a: nat, b: nat, i: Id)
    requires Behaviour(states, steps) && a < b < |steps|
    requires steps[a] == Local(i, ProbeConnects)
    ensures steps[b] != Local(i, ProbeConnects)
    ensures i < |states[a].insts| && states[a].insts[i].Launched? && !states[a].insts[i].ready
  {
    RunKeeps(states, steps, a);
    ProbeOver(states, steps, a + 1, b, i);
  }

  lemma {:induction false} ProbeOver(states: seq<State>, steps: seq<Step>, a: nat, b: nat, i: Id)
    requires Behaviour(states, steps) && a <= b < |states|
    requires i < |states[a].insts| && states[a].insts[i].Launched? && !states[a].insts[i].probing
    ensures i < |states[b].insts| && states[b].insts[i].Launched? && !states[b].insts[i].probing
    decreases b
  {
    if a < b {
      ProbeOver(states, steps, a, b - 1, i);
      ProbeStaysOver(states[b - 1], steps[b - 1], i);
    }
  }

  lemma ProbeStaysOver(s: State, step: Step, i: Id)
    requires Enabled(s, step) && i < |s.insts| && s.insts[i].Launched? && !s.insts[i].probing
    ensures var t := Apply(s, step); i < |t.insts| && t.insts[i].Launched? && !t.insts[i].probing
  {
  }

  // When a purge has waited for its whole snapshot, every launched application that was mapped
  // when it began has ended its watch, its process has exited, and it is out of the pool for good.
  lemma PurgeEmpties(states: seq<State>, steps: seq<Step>, a: nat, b: nat, c: nat,
                     order: seq<string>, key: string)
    requires Behaviour(states, steps) && a < b <= c < |states|
    requires steps[a] == StartPurge(order)
    requires var p := |states[a].purges|; p < |states[b].purges| && states[b].purges[p].waited == |order|
    requires key in states[a].apps
    ensures var i := states[a].apps[key];
      && i < |states[b].insts| && Finished(states[b].insts[i])
      && (states[b].insts[i].Launched? ==> states[b].insts[i].exited && GoneAt(states, steps, c, i))
  {
    var i, p := states[a].apps[key], |states[a].purges|;
    RunLater(states, steps, a, a + 1);
    RunLater(states, steps, a + 1, b);
    LaterTrans(states[a], states[a + 1], states[b]);
    var targets := states[a + 1].purges[p].targets;
    assert states[b].purges[p].targets == targets;
    var k :| 0 <= k < |order| && order[k] == key;
    assert targets[k] == i;
    RunKeeps(states, steps, b);
    assert PurgeOk(states[b], states[b].purges[p]);
    assert Finished(states[b].insts[states[b].purges[p].targets[k]]);
    if states[b].insts[i].Launched? {
      WatchOverIsGone(states, steps, b, c, i);
    }
  }
}
