// Which instance owns the name of an application, over whole runs of the pool: exactly when an
// instance loses its name, when a second one of the same name can be live beside it, and runs in
// which that happens.
module CanonicalRuns {
  import opened Lookup
  import opened Lifecycle

  ghost function NameIn(s: State): Id -> string {
    (i: Id) => if i < |s.insts| then s.insts[i].name else ""
  }

  // The instance is mapped under its own name.
  ghost predicate Bound(s: State, i: Id) {
    i < |s.insts| && s.insts[i].name in s.apps && s.apps[s.insts[i].name] == i
  }

  // A launched instance that the lookup holding the lock has yet to bind.
  ghost predicate Pending(s: State, i: Id) {
    s.lock.Held? && s.lock.id == i && s.lock.resolution.Target? && s.lock.resolution.canonical !in s.apps
  }

  // A step takes the name from an instance: its own removal, or an idle tick of any instance of
  // that name, its own or another's.
  ghost predicate Loses(s: State, step: Step, i: Id) {
    i < |s.insts| &&
    match step
    case Unmap(id, _) => id == i
    case IdleTick(id) => id < |s.insts| && s.insts[id].name == s.insts[i].name
    case _ => false
  }

  // A step gives the name back to an instance that is still mapped under some other key: a lookup
  // through a link that has the name of the instance and leads to that key.
  ghost predicate Rebinds(s: State, step: Step, i: Id) {
    && step.End? && s.lock.Held? && i < |s.insts|
    && s.lock.id == i && s.lock.name == s.insts[i].name && s.lock.name != ""
    && s.lock.resolution.Target? && s.lock.resolution.aliased
  }

  lemma EndBound(s: State, i: Id)
    requires Inv(s) && Enabled(s, End) && i < |s.insts| && !Pending(s, i)
    ensures Bound(Apply(s, End), i) <==> Rebinds(s, End, i) || Bound(s, i)
  {
    LookupExtends(s.apps, s.lock.name, s.lock.resolution, Started(s.lock.id));
  }

  // Each step decides who owns a name, in terms of who owned it before.
  lemma StepBound(s: State, step: Step, i: Id)
    requires Inv(s) && Enabled(s, step) && i < |s.insts| && !Pending(s, i)
    ensures !Pending(Apply(s, step), i)
    ensures Bound(Apply(s, step), i) <==> Rebinds(s, step, i) || (Bound(s, i) && !Loses(s, step, i))
  {
    StepKeeps(s, step);
    if step.End? {
      EndBound(s, i);
    }
  }

  lemma EndBindsPending(s: State)
    requires Inv(s) && Enabled(s, End) && Pending(s, s.lock.id)
    ensures Bound(Apply(s, End), s.lock.id)
  {
    LookupExtends(s.apps, s.lock.name, s.lock.resolution, Started(s.lock.id));
  }

  // ---------------------------------------------------------------- between two states of a run

  // Every step of the stretch that takes the name from i is followed in it by one that gives it back.
  ghost predicate KeepsName(states: seq<State>, steps: seq<Step>, a: nat, b: nat, i: Id)
    requires |states| == |steps| + 1 && b <= |steps|
  {
    forall k :: a <= k < b && Loses(states[k], steps[k], i) ==>
      exists m :: k < m < b && Rebinds(states[m], steps[m], i)
  }

  lemma KeepsNameStep(states: seq<State>, steps: seq<Step>, a: nat, b: nat, i: Id)
    requires |states| == |steps| + 1 && a < b <= |steps|
    requires Rebinds(states[b - 1], steps[b - 1], i) ==> !Loses(states[b - 1], steps[b - 1], i)
    ensures KeepsName(states, steps, a, b, i) <==>
            Rebinds(states[b - 1], steps[b - 1], i)
            || (KeepsName(states, steps, a, b - 1, i) && !Loses(states[b - 1], steps[b - 1], i))
  {
    var last := b - 1;
    if Rebinds(states[last], steps[last], i) {
      forall k | a <= k < b && Loses(states[k], steps[k], i)
        ensures exists m :: k < m < b && Rebinds(states[m], steps[m], i)
      {
        assert k < last;
      }
    } else {
      if KeepsName(states, steps, a, b, i) {
        forall k | a <= k < last && Loses(states[k], steps[k], i)
          ensures exists m :: k < m < last && Rebinds(states[m], steps[m], i)
        {
          var m :| k < m < b && Rebinds(states[m], steps[m], i);
        }
        assert !Loses(states[last], steps[last], i);
      }
      if KeepsName(states, steps, a, last, i) && !Loses(states[last], steps[last], i) {
        forall k | a <= k < b && Loses(states[k], steps[k], i)
          ensures exists m :: k < m < b && Rebinds(states[m], steps[m], i)
        {
          var m :| k < m < last && Rebinds(states[m], steps[m], i);
        }
      }
    }
  }

  // An instance that owns its name at some point of a run owns it at a later one if and only if
  // in between every removal of it, and every idle tick of any instance of its name, was made good
  // by a lookup through a link of that name.
  lemma {:induction false} BoundExactly(states: seq<State>, steps: seq<Step>, a: nat, b: nat, i: Id)
    requires Behaviour(states, steps) && a <= b < |states| && Bound(states[a], i)
    ensures i < |states[b].insts| && !Pending(states[b], i)
    ensures Bound(states[b], i) <==> KeepsName(states, steps, a, b, i)
    decreases b
  {
    if a == b {
      RunKeeps(states, steps, a);
      assert i in states[a].apps.Values;
    } else {
      BoundExactly(states, steps, a, b - 1, i);
      RunKeeps(states, steps, b - 1);
      StepBound(states[b - 1], steps[b - 1], i);
      KeepsNameStep(states, steps, a, b, i);
      NextLater(states, steps, b - 1);
    }
  }

  // Two instances of one name own it at two points of a run: they are one if and only if the first
  // kept the name all the way.
  lemma OneInstancePerName(states: seq<State>, steps: seq<Step>, a: nat, b: nat, i: Id, j: Id)
    requires Behaviour(states, steps) && a <= b < |states|
    requires Bound(states[a], i) && Bound(states[b], j)
    requires states[a].insts[i].name == states[b].insts[j].name
    ensures i == j <==> KeepsName(states, steps, a, b, i)
  {
    BoundExactly(states, steps, a, b, i);
    RunLater(states, steps, a, b);
  }

  // ---------------------------------------------------------------- from the start of a run

  ghost function EvictedBy(s: State, step: Step): set<Id> {
    if step.IdleTick? && step.id < |s.insts| && s.insts[step.id].name in s.apps
       && Bound(s, s.apps[s.insts[step.id].name])
       && s.insts[s.apps[s.insts[step.id].name]].name == s.insts[step.id].name
    then {s.apps[s.insts[step.id].name]} else {}
  }

  ghost function ReboundBy(s: State, step: Step): set<Id> {
    if s.lock.Held? && Rebinds(s, step, s.lock.id) then {s.lock.id} else {}
  }

  // The instances that an idle tick took the name from and that no link gave it back to.
  ghost function Evicted(states: seq<State>, steps: seq<Step>, k: nat): set<Id>
    requires |states| == |steps| + 1 && k <= |steps|
  {
    if k == 0 then {}
    else
      Evicted(states, steps, k - 1) + EvictedBy(states[k - 1], steps[k - 1]) - ReboundBy(states[k - 1], steps[k - 1])
  }

  // What is known of who owns a name, when `evicted` have lost theirs to idle ticks.
  ghost predicate Owners(s: State, evicted: set<Id>) {
    && (forall i :: i in evicted ==> i < |s.insts|)
    && forall i :: 0 <= i < |s.insts| ==>
         if Pending(s, i) then i !in evicted else (Bound(s, i) <==> i !in s.removed && i !in evicted)
  }

  lemma StepOwner(s: State, step: Step, evicted: set<Id>, i: Id)
    requires Inv(s) && Enabled(s, step) && Owners(s, evicted) && i < |s.insts| && !Pending(s, i)
    ensures var t := Apply(s, step);
      !Pending(t, i)
      && (Bound(t, i) <==> i !in t.removed && i !in evicted + EvictedBy(s, step) - ReboundBy(s, step))
  {
    StepBound(s, step, i);
  }

  lemma StepOfPending(s: State, step: Step, evicted: set<Id>, i: Id)
    requires Inv(s) && Enabled(s, step) && Owners(s, evicted) && i < |s.insts| && Pending(s, i)
    ensures var t := Apply(s, step);
      i !in evicted + EvictedBy(s, step) && (Pending(t, i) || (Bound(t, i) && i !in t.removed))
  {
    if step.End? {
      EndBindsPending(s);
    }
  }

  lemma StepOwners(s: State, step: Step, evicted: set<Id>)
    requires Inv(s) && Enabled(s, step) && Owners(s, evicted)
    ensures Owners(Apply(s, step), evicted + EvictedBy(s, step) - ReboundBy(s, step))
  {
    var t, after := Apply(s, step), evicted + EvictedBy(s, step) - ReboundBy(s, step);
    StepKeeps(s, step);
    forall i | 0 <= i < |t.insts|
      ensures if Pending(t, i) then i !in after else (Bound(t, i) <==> i !in t.removed && i !in after)
    {
      if i >= |s.insts| {
        assert Pending(t, i);
      } else if Pending(s, i) {
        StepOfPending(s, step, evicted, i);
      } else {
        StepOwner(s, step, evicted, i);
      }
    }
  }

  // In every run and for every instance, mapped or not: once its launch has returned, it owns its
  // name if and only if it has neither been removed nor evicted by an idle tick.
  lemma {:induction false} BoundUnlessEvicted(states: seq<State>, steps: seq<Step>, k: nat)
    requires Behaviour(states, steps) && k < |states|
    ensures Owners(states[k], Evicted(states, steps, k))
  {
    if k > 0 {
      BoundUnlessEvicted(states, steps, k - 1);
      RunKeeps(states, steps, k - 1);
      StepOwners(states[k - 1], steps[k - 1], Evicted(states, steps, k - 1));
    }
  }

  // The canonical-key invariant of the map fails for evicted instances at most.
  lemma CanonicalButEvicted(states: seq<State>, steps: seq<Step>, k: nat)
    requires Behaviour(states, steps) && k < |states|
    ensures Canonical(states[k].apps, NameIn(states[k]), Evicted(states, steps, k))
  {
    BoundUnlessEvicted(states, steps, k);
    RunKeeps(states, steps, k);
    var s := states[k];
    forall key | key in s.apps && s.apps[key] !in Evicted(states, steps, k) ensures Bound(s, s.apps[key]) {
      assert s.apps[key] in s.apps.Values;
    }
  }

  // Which instances of a name can be live beside its owner: of those that have not been removed,
  // exactly the ones evicted by an idle tick.
  lemma LiveBesideOwner(states: seq<State>, steps: seq<Step>, k: nat, owner: Id, i: Id)
    requires Behaviour(states, steps) && k < |states|
    requires Bound(states[k], owner) && i < |states[k].insts| && !Pending(states[k], i)
    requires states[k].insts[i].name == states[k].insts[owner].name && i !in states[k].removed
    ensures i != owner <==> i in Evicted(states, steps, k)
  {
    BoundUnlessEvicted(states, steps, k);
  }

  // A lookup launches a further instance of a name only when those before it have all been removed
  // or evicted.
  lemma LaunchFindsNoOwner(states: seq<State>, steps: seq<Step>, k: nat, i: Id)
    requires Behaviour(states, steps) && k < |steps| && steps[k].Begin?
    requires steps[k].resolution.canonical !in states[k].apps
    requires i < |states[k].insts| && states[k].insts[i].name == steps[k].resolution.canonical
    ensures i in states[k].removed || i in Evicted(states, steps, k)
  {
    BoundUnlessEvicted(states, steps, k);
  }

  // ---------------------------------------------------------------- runs with two live instances

  const SHARED := Target("app-1", true, true)
  const PLAIN := Target("app-1", false, true)

  const BOOTED := Launched("app-1", false, false, false, Listening, Looping, Looping, true)

  function Restarting(idle: MonitorPc, restart: MonitorPc): Instance {
    Launched("app-1", false, false, false, Listening, idle, restart, true)
  }

  // A request that finds nothing under the canonical name launches an instance.
  lemma Launch(states: seq<State>, steps: seq<Step>, name: string, r: Resolution)
    returns (states': seq<State>, steps': seq<Step>)
    requires Behaviour(states, steps) && name != "" && (r == SHARED || (r == PLAIN && name == "app-1"))
    requires states[|steps|].lock.Free? && name !in states[|steps|].apps && "app-1" !in states[|steps|].apps
    ensures Behaviour(states', steps')
    ensures states <= states' && steps' == steps + [Begin(name, r), End]
    ensures var s := states[|steps|];
      states'[|steps'|] == s.(apps := s.apps["app-1" := |s.insts|][name := |s.insts|], insts := s.insts + [BOOTED])
  {
    var s := states[|steps|];
    Take(states, steps, Begin(name, r));
    var t := Apply(s, Begin(name, r));
    Take(states + [t], steps + [Begin(name, r)], End);
    states' := states + [t] + [Apply(t, End)];
    steps' := steps + [Begin(name, r), End];
    assert steps + [Begin(name, r)] + [End] == steps';
  }

  // restart.txt is touched: the instance leaves the pool while its process is still going down.
  lemma RestartFirst(states: seq<State>, steps: seq<Step>) returns (states': seq<State>, steps': seq<Step>)
    requires Behaviour(states, steps)
    requires var s := states[|steps|]; s == State(s.apps, [BOOTED], Free, [], {}) && s.apps.Values <= {0}
    ensures Behaviour(states', steps')
    ensures states'[|steps'|] == State(map[], [BOOTED], Free, [], {0})
  {
    var s := states[|steps|];
    var s1 := State(s.apps, [Restarting(Looping, Signalling)], Free, [], {});
    var s2 := State(s.apps, [Restarting(Looping, Removing)], Free, [], {});
    var s3 := State(map[], [BOOTED], Free, [], {0});
    Take(states, steps, Local(0, RestartTouched));
    assert Apply(s, Local(0, RestartTouched)) == s1;
    Take(states + [s1], steps + [Local(0, RestartTouched)], Local(0, RestartSignals(true)));
    assert Apply(s1, Local(0, RestartSignals(true))) == s2;
    steps' := steps + [Local(0, RestartTouched)] + [Local(0, RestartSignals(true))];
    Take(states + [s1] + [s2], steps', Unmap(0, ByRestart));
    assert forall k :: k in s.apps ==> s.apps[k] in s.apps.Values;
    assert Apply(s2, Unmap(0, ByRestart)) == s3;
    states', steps' := states + [s1] + [s2] + [s3], steps' + [Unmap(0, ByRestart)];
  }

  // The stale tick: the idle monitor of instance 0, which has left the pool, evicts instance 1.
  lemma StaleTick(states: seq<State>, steps: seq<Step>) returns (states': seq<State>, steps': seq<Step>)
    requires Behaviour(states, steps)
    requires var s := states[|steps|]; s == State(s.apps, [BOOTED, BOOTED], Free, [], {0})
    ensures Behaviour(states', steps')
    ensures states'[|steps'|] ==
      State(states[|steps|].apps - {"app-1"}, [Restarting(Signalling, Looping), BOOTED], Free, [], {0})
  {
    var s := states[|steps|];
    var t := State(s.apps - {"app-1"}, [Restarting(Signalling, Looping), BOOTED], Free, [], {0});
    Take(states, steps, IdleTick(0));
    assert Apply(s, IdleTick(0)) == t;
    states', steps' := states + [t], steps + [IdleTick(0)];
  }

  // Launch through link x, restart, launch again through x, stale tick; a request through link y
  // launches a third instance. Then x and y, links to one target, lead to different instances,
  // both live.
  lemma StaleIdleSplitsAnApp() returns (states: seq<State>, steps: seq<Step>)
    ensures Behaviour(states, steps)
    ensures var s := states[|steps|];
      && "x" in s.apps && "y" in s.apps && s.apps["x"] != s.apps["y"]
      && s.apps["x"] < |s.insts| && s.insts[s.apps["x"]] == BOOTED
      && s.apps["y"] < |s.insts| && s.insts[s.apps["y"]] == BOOTED
  {
    states, steps := Launch([INIT], [], "x", SHARED);
    assert states[|steps|] == State(map["app-1" := 0, "x" := 0], [BOOTED], Free, [], {});
    states, steps := RestartFirst(states, steps);
    states, steps := Launch(states, steps, "x", SHARED);
    assert states[|steps|] == State(map["app-1" := 1, "x" := 1], [BOOTED, BOOTED], Free, [], {0});
    states, steps := StaleTick(states, steps);
    states, steps := Launch(states, steps, "y", SHARED);
  }

  // The same with a plain directory, so that the evicted instance has no other key: it is live, was
  // never removed and never idled, and no request can reach it again, while its successor is live
  // in its place.
  lemma StaleIdleOrphansAnApp() returns (states: seq<State>, steps: seq<Step>)
    ensures Behaviour(states, steps)
    ensures var s := states[|steps|];
      && |s.insts| == 3 && s.insts[1] == BOOTED && 1 !in s.removed && Out(s, 1)
      && Bound(s, 2) && s.insts[2] == BOOTED
  {
    states, steps := Launch([INIT], [], "app-1", PLAIN);
    assert states[|steps|] == State(map["app-1" := 0], [BOOTED], Free, [], {});
    states, steps := RestartFirst(states, steps);
    states, steps := Launch(states, steps, "app-1", PLAIN);
    assert states[|steps|] == State(map["app-1" := 1], [BOOTED, BOOTED], Free, [], {0});
    states, steps := StaleTick(states, steps);
    states, steps := Launch(states, steps, "app-1", PLAIN);
  }

  // The idle monitor of instance 0 ticks while it owns its name, and its signal cannot be sent.
  lemma FailedTick(states: seq<State>, steps: seq<Step>) returns (states': seq<State>, steps': seq<Step>)
    requires Behaviour(states, steps)
    requires states[|steps|] == State(map["app-1" := 0, "x" := 0], [BOOTED], Free, [], {})
    ensures Behaviour(states', steps')
    ensures states <= states' && steps' == steps + [IdleTick(0), Local(0, IdleSignals(false))]
    ensures states'[|steps'|] == State(map["x" := 0], [Restarting(Done, Looping)], Free, [], {})
  {
    var s := states[|steps|];
    var s1 := State(map["x" := 0], [Restarting(Signalling, Looping)], Free, [], {});
    var s2 := State(map["x" := 0], [Restarting(Done, Looping)], Free, [], {});
    Take(states, steps, IdleTick(0));
    assert Apply(s, IdleTick(0)) == s1;
    Take(states + [s1], steps + [IdleTick(0)], Local(0, IdleSignals(false)));
    assert Apply(s1, Local(0, IdleSignals(false))) == s2;
    states', steps' := states + [s1] + [s2], steps + [IdleTick(0), Local(0, IdleSignals(false))];
    assert steps + [IdleTick(0)] + [Local(0, IdleSignals(false))] == steps';
  }

  // No stale tick is needed: an instance idled by its own monitor whose signal cannot be sent keeps
  // running under its alias, its monitor over for good, while another is launched beside it.
  lemma FailedIdleSplitsAnApp() returns (states: seq<State>, steps: seq<Step>)
    ensures Behaviour(states, steps)
    ensures forall k :: 0 <= k < |steps| && steps[k].IdleTick? ==> Bound(states[k], steps[k].id)
    ensures var s := states[|steps|];
      && "x" in s.apps && "y" in s.apps && s.apps["x"] == 0 && s.apps["y"] == 1 && s.removed == {}
      && |s.insts| == 2 && s.insts[0] == Restarting(Done, Looping) && s.insts[1] == BOOTED
  {
    states, steps := Launch([INIT], [], "x", SHARED);
    assert states[2] == State(map["app-1" := 0, "x" := 0], [BOOTED], Free, [], {});
    ghost var launched := states;
    states, steps := FailedTick(states, steps);
    assert states[2] == launched[2];
    ghost var ticked := states;
    states, steps := Launch(states, steps, "y", SHARED);
    assert states[2] == ticked[2];
  }

  // Nor a signal that cannot be sent: between the eviction and the removal of the first instance, a
  // request through another link launches the second.
  lemma IdleWindowSplitsAnApp() returns (states: seq<State>, steps: seq<Step>)
    ensures Behaviour(states, steps)
    ensures forall k :: 0 <= k < |steps| ==> !steps[k].Local? && (steps[k].IdleTick? ==> Bound(states[k], steps[k].id))
    ensures var s := states[|steps|];
      && "x" in s.apps && "y" in s.apps && s.apps["x"] == 0 && s.apps["y"] == 1 && s.removed == {}
      && |s.insts| == 2 && s.insts[0] == Restarting(Signalling, Looping) && s.insts[1] == BOOTED
  {
    states, steps := Launch([INIT], [], "x", SHARED);
    var s := states[2];
    assert s == State(map["app-1" := 0, "x" := 0], [BOOTED], Free, [], {});
    var t := State(map["x" := 0], [Restarting(Signalling, Looping)], Free, [], {});
    Take(states, steps, IdleTick(0));
    assert Apply(s, IdleTick(0)) == t;
    ghost var ticked := states + [t];
    states, steps := Launch(ticked, steps + [IdleTick(0)], "y", SHARED);
    assert states[2] == ticked[2];
  }
}
