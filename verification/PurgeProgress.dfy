// A purge never gets stuck: from every reachable state there is a way on to its return, taken by
// the goroutines of its targets, the exit of their processes, and the lookup holding the lock.
module PurgeProgress {
  import opened Lifecycle

  // Steps taken one after the other from a state.
  ghost predicate Path(s: State, steps: seq<Step>)
    decreases |steps|
  {
    steps == [] || (Enabled(s, steps[0]) && Path(Apply(s, steps[0]), steps[1..]))
  }

  ghost function After(s: State, steps: seq<Step>): State
    requires Path(s, steps)
    decreases |steps|
  {
    if steps == [] then s else After(Apply(s, steps[0]), steps[1..])
  }

  lemma {:induction false} PathConcat(s: State, p: seq<Step>, q: seq<Step>)
    requires Path(s, p) && Path(After(s, p), q)
    ensures Path(s, p + q) && After(s, p + q) == After(After(s, p), q)
    decreases |p|
  {
    if p == [] {
      assert p + q == q;
    } else {
      PathConcat(Apply(s, p[0]), p[1..], q);
      assert (p + q)[1..] == p[1..] + q;
    }
  }

  lemma PathOne(s: State, step: Step)
    requires Enabled(s, step)
    ensures Path(s, [step]) && After(s, [step]) == Apply(s, step)
  {
  }

  // A path taken from the end of a run makes a longer run.
  lemma {:induction false} PathExtendsRun(states: seq<State>, steps: seq<Step>, more: seq<Step>)
    returns (states': seq<State>)
    requires Behaviour(states, steps) && Path(states[|steps|], more)
    ensures Behaviour(states', steps + more)
    ensures states'[|steps| + |more|] == After(states[|steps|], more)
    decreases |more|
  {
    if more == [] {
      assert steps + more == steps;
      return states;
    }
    var s := states[|steps|];
    Take(states, steps, more[0]);
    states' := PathExtendsRun(states + [Apply(s, more[0])], steps + [more[0]], more[1..]);
    assert steps + [more[0]] + more[1..] == steps + more;
  }

  // ---------------------------------------------------------------- one dying instance

  function WatchRank(w: WatchPc): nat {
    match w
    case Listening => 6
    case Terminating(_) => 5
    case Unmapping(_) => 4
    case Reaping(_) => 3
    case Cleaning(_) => 2
    case Returning(_) => 1
    case Stopped => 0
  }

  function MonitorRank(m: MonitorPc): nat {
    match m
    case Signalling => 3
    case Removing => 2
    case Looping => 1
    case Done => 0
  }

  // How many steps of its own an instance is away from the death of its tomb.
  function Rank(a: Instance): nat {
    match a
    case Proxy(_, _, waiting) => if waiting then 1 else 0
    case Launched(_, _, exited, _, watch, idle, restart, probing) =>
      (if exited then 0 else 1) + WatchRank(watch) + MonitorRank(idle) + MonitorRank(restart)
      + (if probing then 1 else 0)
  }

  function LockRank(s: State): nat {
    if s.lock.Held? then 1 else 0
  }

  // What an instance that was killed and is not dead yet does next.
  datatype Move = Own(l: LocalStep) | Leave(who: Remover)

  function NextMove(a: Instance): Move {
    if a.Proxy? then Own(ProxySeesDying)
    else match a.watch
      case Listening => Own(WatchSeesDying)
      case Terminating(_) => Own(WatchSignals(true))
      case Unmapping(_) => Leave(ByWatch)
      case Reaping(_) => if a.exited then Own(WatchReaps) else Own(ProcessExits)
      case Cleaning(_) => Leave(ByWatch)
      case Returning(_) => Own(WatchReturns)
      case Stopped =>
        match a.idle
        case Looping => Own(IdleSeesDying)
        case Signalling => Own(IdleSignals(true))
        case Removing => Leave(ByIdle)
        case Done =>
          match a.restart
          case Looping => Own(RestartReturns(false))
          case Signalling => Own(RestartSignals(true))
          case Removing => Leave(ByRestart)
          case Done => Own(ProbeSeesDying)
  }

  function StepOf(i: Id, m: Move): Step {
    match m
    case Own(l) => Local(i, l)
    case Leave(who) => Unmap(i, who)
  }

  // That move is possible and brings the tomb closer to its death.
  lemma NextMoveDescends(a: Instance)
    requires a.dying && !Finished(a)
    ensures match NextMove(a)
      case Own(l) => LocalEnabled(a, l) && Rank(LocalApply(a, l)) < Rank(a)
      case Leave(who) => AtRemove(a, who) && Rank(AfterRemove(a, who)) < Rank(a)
  {
  }

  // Purges are as they were, and everything else is no earlier.
  ghost predicate Meanwhile(s: State, t: State) {
    Later(s, t) && t.purges == s.purges && Inv(t)
  }

  // The tomb of a killed instance can die: no interleaving leads to a state from which its
  // goroutines cannot all return.
  lemma {:induction false} CanDie(s: State, i: Id) returns (steps: seq<Step>)
    requires Inv(s) && i < |s.insts| && s.insts[i].dying
    ensures Path(s, steps) && Meanwhile(s, After(s, steps))
    ensures Finished(After(s, steps).insts[i])
    decreases Rank(s.insts[i]) + LockRank(s)
  {
    if Finished(s.insts[i]) {
      return [];
    }
    var step := if s.lock.Held? then End else StepOf(i, NextMove(s.insts[i]));
    NextMoveDescends(s.insts[i]);
    StepKeeps(s, step);
    var t := Apply(s, step);
    var rest := CanDie(t, i);
    steps := [step] + rest;
    assert steps[1..] == rest;
    LaterTrans(s, t, After(t, rest));
  }

  // ---------------------------------------------------------------- a whole purge

  lemma {:induction false} CanKillAll(s: State, p: nat) returns (steps: seq<Step>)
    requires Inv(s) && p < |s.purges|
    ensures Path(s, steps)
    ensures var t := After(s, steps);
      Inv(t) && Later(s, t) && t.purges[p].killed == |s.purges[p].targets|
    decreases |s.purges[p].targets| - s.purges[p].killed
  {
    var q := s.purges[p];
    assert PurgeOk(s, q);
    if q.killed == |q.targets| {
      return [];
    }
    var step := PurgeKills(p);
    StepKeeps(s, step);
    var t := Apply(s, step);
    var rest := CanKillAll(t, p);
    steps := [step] + rest;
    assert steps[1..] == rest;
    LaterTrans(s, t, After(t, rest));
  }

  lemma {:induction false} CanWaitForAll(s: State, p: nat) returns (steps: seq<Step>)
    requires Inv(s) && p < |s.purges| && s.purges[p].killed == |s.purges[p].targets|
    ensures Path(s, steps)
    ensures var t := After(s, steps);
      Inv(t) && Later(s, t) && t.purges[p].waited == |s.purges[p].targets|
    decreases |s.purges[p].targets| - s.purges[p].waited
  {
    var q := s.purges[p];
    assert PurgeOk(s, q);
    if q.waited == |q.targets| {
      return [];
    }
    var dies := CanDie(s, q.targets[q.waited]);
    var t := After(s, dies);
    var step := PurgeWaits(p);
    StepKeeps(t, step);
    var u := Apply(t, step);
    var rest := CanWaitForAll(u, p);
    PathOne(t, step);
    PathConcat(s, dies, [step]);
    PathConcat(s, dies + [step], rest);
    steps := dies + [step] + rest;
    LaterTrans(s, t, u);
    LaterTrans(s, u, After(u, rest));
  }

  // From every state of every run, every purge begun can be brought to its return by steps the
  // model allows; the run so continued is a run.
  lemma PurgeCanReturn(states: seq<State>, steps: seq<Step>, p: nat) returns (states': seq<State>, more: seq<Step>)
    requires Behaviour(states, steps) && p < |states[|steps|].purges|
    ensures Behaviour(states', steps + more)
    ensures var t := states'[|steps| + |more|];
      p < |t.purges| && t.purges[p].waited == |t.purges[p].targets|
  {
    var s := states[|steps|];
    RunKeeps(states, steps, |steps|);
    var kills := CanKillAll(s, p);
    var t := After(s, kills);
    var waits := CanWaitForAll(t, p);
    PathConcat(s, kills, waits);
    more := kills + waits;
    states' := PathExtendsRun(states, steps, more);
  }
}
