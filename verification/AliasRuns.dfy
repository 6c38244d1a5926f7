// Several names for one application directory, over whole runs of the pool: with the file system
// holding still and everything else interleaved, every answer is an instance of what was asked for,
// and exactly when two names get one instance.
module AliasRuns {
  import opened Options
  import opened Lookup
  import opened Aliases
  import opened Lifecycle
  import opened CanonicalRuns

  // The canonical name a requested name leads to.
  function NameOfTarget(fs: FileSystem, tag: Tag, name: string): string {
    match LinkTarget(fs, name)
    case Some(target) => CanonicalOf(fs, target, tag)
    case None => name
  }

  // Every lookup of the run asks for one of these names and meets this file system.
  ghost predicate Against(steps: seq<Step>, fs: FileSystem, tag: Tag, names: set<string>) {
    forall k :: 0 <= k < |steps| && steps[k].Begin? ==>
      && steps[k].name in names
      && steps[k].resolution == Resolve(steps[k].name, AnswersOf(fs, steps[k].name), tag)
  }

  // None of the names is the canonical name of a link target.
  ghost predicate NamesApart(fs: FileSystem, tag: Tag, names: set<string>) {
    forall p, q :: p in names && q in names && LinkTarget(fs, p).Some? ==> NameOfTarget(fs, tag, p) != q
  }

  // The tags of the targets have one length and tell them apart.
  ghost predicate TagsApart(fs: FileSystem, tag: Tag, names: set<string>) {
    forall p, q :: p in names && q in names && LinkTarget(fs, p).Some? && LinkTarget(fs, q).Some? ==>
      var t, u := LinkTarget(fs, p).value, LinkTarget(fs, q).value;
      |tag(t)| == |tag(u)| && (tag(t) == tag(u) ==> t == u)
  }

  // What is mapped under a name, or under the canonical name it leads to, carries the latter; so
  // does the instance that the lookup holding the lock will answer with.
  ghost predicate Sound(s: State, fs: FileSystem, tag: Tag, names: set<string>) {
    && (forall q :: q in names ==>
          var c := NameOfTarget(fs, tag, q);
          (q in s.apps ==> NameIn(s)(s.apps[q]) == c) && (c in s.apps ==> NameIn(s)(s.apps[c]) == c))
    && (s.lock.Held? ==>
          && s.lock.name in names
          && s.lock.resolution == Resolve(s.lock.name, AnswersOf(fs, s.lock.name), tag)
          && NameIn(s)(s.lock.id) == NameOfTarget(fs, tag, s.lock.name))
  }

  lemma EndKeepsSound(s: State, fs: FileSystem, tag: Tag, names: set<string>)
    requires Inv(s) && Enabled(s, End) && NamesApart(fs, tag, names) && Sound(s, fs, tag, names)
    ensures Sound(Apply(s, End), fs, tag, names)
  {
    var t, p, r := Apply(s, End), s.lock.name, s.lock.resolution;
    ResolveOf(fs, p, tag);
    LookupExtends(s.apps, p, r, Started(s.lock.id));
    assert t.apps == Bind(s.apps, p, r, s.lock.id);
    forall q | q in names
      ensures var c := NameOfTarget(fs, tag, q);
        (q in t.apps ==> NameIn(t)(t.apps[q]) == c) && (c in t.apps ==> NameIn(t)(t.apps[c]) == c)
    {
    }
  }

  lemma BeginKeepsSound(s: State, q: string, fs: FileSystem, tag: Tag, names: set<string>)
    requires var begin := Begin(q, Resolve(q, AnswersOf(fs, q), tag));
             Inv(s) && Enabled(s, begin) && Sound(s, fs, tag, names) && q in names
    ensures Sound(Apply(s, Begin(q, Resolve(q, AnswersOf(fs, q), tag))), fs, tag, names)
  {
    ResolveOf(fs, q, tag);
  }

  lemma FewerKeysSound(s: State, t: State, fs: FileSystem, tag: Tag, names: set<string>)
    requires Inv(s) && Later(s, t) && Sound(s, fs, tag, names) && t.lock == s.lock
    requires forall k :: k in t.apps ==> k in s.apps && t.apps[k] == s.apps[k]
    ensures Sound(t, fs, tag, names)
  {
  }

  lemma StepKeepsSound(s: State, step: Step, fs: FileSystem, tag: Tag, names: set<string>)
    requires Inv(s) && Enabled(s, step) && NamesApart(fs, tag, names) && Sound(s, fs, tag, names)
    requires Against([step], fs, tag, names)
    ensures Sound(Apply(s, step), fs, tag, names)
  {
    if step.End? {
      EndKeepsSound(s, fs, tag, names);
    } else if step.Begin? {
      assert step == [step][0];
      BeginKeepsSound(s, step.name, fs, tag, names);
    } else {
      StepKeeps(s, step);
      FewerKeysSound(s, Apply(s, step), fs, tag, names);
    }
  }

  lemma {:induction false} RunKeepsSound(states: seq<State>, steps: seq<Step>, k: nat,
                                         fs: FileSystem, tag: Tag, names: set<string>)
    requires Behaviour(states, steps) && k < |states|
    requires Against(steps, fs, tag, names) && NamesApart(fs, tag, names)
    ensures Sound(states[k], fs, tag, names)
  {
    if k > 0 {
      RunKeepsSound(states, steps, k - 1, fs, tag, names);
      RunKeeps(states, steps, k - 1);
      StepKeepsSound(states[k - 1], steps[k - 1], fs, tag, names);
    }
  }

  // Step k answers a request for the name q with instance i, found under that name or looked up.
  ghost predicate Answered(states: seq<State>, steps: seq<Step>, k: nat, q: string, i: Id) {
    && k < |steps| && |states| == |steps| + 1
    && Enabled(states[k], steps[k]) && AnswerOf(states[k], steps[k]) == Given(i)
    && q == (if steps[k].Hit? then steps[k].name else states[k].lock.name)
  }

  // In every run, whatever a request is answered with, from the map or by a launch, is an instance
  // of what the requested name leads to; and one that is looked up owns its name.
  lemma AnswerIsOfTarget(states: seq<State>, steps: seq<Step>, k: nat, q: string, i: Id,
                         fs: FileSystem, tag: Tag, names: set<string>)
    requires Behaviour(states, steps) && Answered(states, steps, k, q, i) && q in names
    requires Against(steps, fs, tag, names) && NamesApart(fs, tag, names)
    ensures var t := states[k + 1];
      && i < |t.insts| && t.insts[i].name == NameOfTarget(fs, tag, q) && i !in t.removed && t.lock.Free?
      && (steps[k].End? ==> Bound(t, i))
  {
    RunKeeps(states, steps, k);
    RunKeepsSound(states, steps, k, fs, tag, names);
    if steps[k].End? {
      ResolveOf(fs, q, tag);
      LookupExtends(states[k].apps, q, states[k].lock.resolution, Started(i));
    }
  }

  // So is the instance at any later point.
  lemma AnswerStaysOfTarget(states: seq<State>, steps: seq<Step>, k: nat, q: string, i: Id, b: nat,
                            fs: FileSystem, tag: Tag, names: set<string>)
    requires Behaviour(states, steps) && Answered(states, steps, k, q, i) && q in names && k < b < |states|
    requires Against(steps, fs, tag, names) && NamesApart(fs, tag, names)
    ensures i < |states[b].insts| && states[b].insts[i].name == NameOfTarget(fs, tag, q)
  {
    AnswerIsOfTarget(states, steps, k, q, i, fs, tag, names);
    RunLater(states, steps, k + 1, b);
  }

  lemma OneOwner(s: State, evicted: set<Id>, i: Id, j: Id)
    requires Owners(s, evicted) && s.lock.Free? && i < |s.insts| && j < |s.insts|
    requires s.insts[i].name == s.insts[j].name && j !in s.removed
    ensures Bound(s, j) <==> j !in evicted
    ensures j !in evicted ==> (i == j <==> i !in s.removed && i !in evicted)
  {
    assert Bound(s, j) <==> j !in evicted;
    assert Bound(s, i) <==> i !in s.removed && i !in evicted;
  }

  // Requests for one name, or through links whose texts are the same. A directory is not the same as
  // a link to it, nor are two links that spell its path differently.
  predicate SameTarget(fs: FileSystem, p: string, q: string) {
    p == q || (LinkTarget(fs, p).Some? && LinkTarget(fs, p) == LinkTarget(fs, q))
  }

  lemma CanonicalByTargets(fs: FileSystem, tag: Tag, names: set<string>, p: string, q: string)
    requires NamesApart(fs, tag, names) && TagsApart(fs, tag, names) && p in names && q in names
    ensures NameOfTarget(fs, tag, p) == NameOfTarget(fs, tag, q) <==> SameTarget(fs, p, q)
  {
    if LinkTarget(fs, p).Some? && LinkTarget(fs, q).Some? {
      var t, u := LinkTarget(fs, p).value, LinkTarget(fs, q).value;
      CanonicalNamesDiffer(fs.stat(t).base, t, fs.stat(u).base, u, tag);
    }
  }

  // Any two answers. Names that do not lead to the same never get one instance, whatever is
  // removed, evicted or launched in between. Those that do get the same one if and only if it has
  // meanwhile been neither removed nor evicted by an idle tick; only where the later answer is
  // itself an evicted instance, found under an alias it has kept, is that not the condition. An
  // answer that is looked up rather than found under the requested name is never such a one.
  lemma OneTargetOneInstance(states: seq<State>, steps: seq<Step>, a: nat, p: string, i: Id,
                             b: nat, q: string, j: Id, fs: FileSystem, tag: Tag, names: set<string>)
    requires Behaviour(states, steps) && a <= b < |steps|
    requires Against(steps, fs, tag, names) && NamesApart(fs, tag, names) && TagsApart(fs, tag, names)
    requires Answered(states, steps, a, p, i) && p in names
    requires Answered(states, steps, b, q, j) && q in names
    ensures i == j ==> SameTarget(fs, p, q)
    ensures var evicted := Evicted(states, steps, b + 1);
      && (j !in evicted ==>
          (i == j <==> SameTarget(fs, p, q) && i !in states[b + 1].removed && i !in evicted))
      && (steps[b].End? ==> j !in evicted)
  {
    CanonicalByTargets(fs, tag, names, p, q);
    AnswerStaysOfTarget(states, steps, a, p, i, b + 1, fs, tag, names);
    AnswerIsOfTarget(states, steps, b, q, j, fs, tag, names);
    BoundUnlessEvicted(states, steps, b + 1);
    var t, evicted := states[b + 1], Evicted(states, steps, b + 1);
    OneOwner(t, evicted, j, j);
    if SameTarget(fs, p, q) {
      OneOwner(t, evicted, i, j);
    }
  }

  // ---------------------------------------------------------------- answers found under a kept key

  ghost predicate LookedUp(states: seq<State>, steps: seq<Step>, k: nat, q: string, i: Id) {
    Answered(states, steps, k, q, i) && steps[k].End?
  }

  lemma EndBindsRequested(s: State, q: string, fs: FileSystem, tag: Tag, names: set<string>)
    requires Inv(s) && Enabled(s, End) && NamesApart(fs, tag, names) && Sound(s, fs, tag, names) && q in names
    requires q in Apply(s, End).apps && !(q in s.apps && s.apps[q] == Apply(s, End).apps[q])
    ensures q == s.lock.name && s.lock.id == Apply(s, End).apps[q]
  {
    ResolveOf(fs, s.lock.name, tag);
    LookupExtends(s.apps, s.lock.name, s.lock.resolution, Started(s.lock.id));
  }

  // A key is not there before the lookup that binds it, and only a lookup of that name does.
  lemma NewKeyIsLookedUp(states: seq<State>, steps: seq<Step>, k: nat, q: string,
                         fs: FileSystem, tag: Tag, names: set<string>)
    requires Behaviour(states, steps) && k < |steps| && q in names
    requires Against(steps, fs, tag, names) && NamesApart(fs, tag, names)
    requires q in states[k + 1].apps && !(q in states[k].apps && states[k].apps[q] == states[k + 1].apps[q])
    ensures LookedUp(states, steps, k, q, states[k + 1].apps[q])
  {
    RunKeeps(states, steps, k);
    RunKeepsSound(states, steps, k, fs, tag, names);
    if steps[k].End? {
      EndBindsRequested(states[k], q, fs, tag, names);
    }
  }

  lemma {:induction false} KeyWasLookedUp(states: seq<State>, steps: seq<Step>, k: nat, q: string,
                                          fs: FileSystem, tag: Tag, names: set<string>)
    returns (c: nat)
    requires Behaviour(states, steps) && k < |states| && q in names && q in states[k].apps
    requires Against(steps, fs, tag, names) && NamesApart(fs, tag, names)
    ensures c < k && LookedUp(states, steps, c, q, states[k].apps[q])
  {
    if q in states[k - 1].apps && states[k - 1].apps[q] == states[k].apps[q] {
      c := KeyWasLookedUp(states, steps, k - 1, q, fs, tag, names);
    } else {
      c := k - 1;
      NewKeyIsLookedUp(states, steps, c, q, fs, tag, names);
    }
  }

  // An answer found under a requested name was looked up for that name before.
  lemma AnswerWasLookedUp(states: seq<State>, steps: seq<Step>, k: nat, q: string, i: Id,
                          fs: FileSystem, tag: Tag, names: set<string>)
    returns (c: nat)
    requires Behaviour(states, steps) && Answered(states, steps, k, q, i) && q in names
    requires Against(steps, fs, tag, names) && NamesApart(fs, tag, names)
    ensures c <= k && LookedUp(states, steps, c, q, i)
  {
    if steps[k].End? {
      c := k;
    } else {
      c := KeyWasLookedUp(states, steps, k, q, fs, tag, names);
    }
  }

  // After step k, the instance has been neither removed nor evicted.
  ghost predicate StillOwner(states: seq<State>, steps: seq<Step>, k: nat, i: Id)
    requires |states| == |steps| + 1 && k < |steps|
  {
    i !in states[k + 1].removed && i !in Evicted(states, steps, k + 1)
  }

  // The condition for any two answers, in either order and with nothing asked of them: they go back
  // to two lookups, of the same names and instances, and are one instance if and only if the names
  // lead to the same and the instance of the earlier lookup had been neither removed nor evicted
  // at the later.
  lemma OneInstanceExactly(states: seq<State>, steps: seq<Step>, a: nat, p: string, i: Id,
                           b: nat, q: string, j: Id, fs: FileSystem, tag: Tag, names: set<string>)
    returns (c: nat, d: nat)
    requires Behaviour(states, steps)
    requires Against(steps, fs, tag, names) && NamesApart(fs, tag, names) && TagsApart(fs, tag, names)
    requires Answered(states, steps, a, p, i) && p in names
    requires Answered(states, steps, b, q, j) && q in names
    ensures c <= a && LookedUp(states, steps, c, p, i)
    ensures d <= b && LookedUp(states, steps, d, q, j)
    ensures i == j <==> SameTarget(fs, p, q) &&
                        if c <= d then StillOwner(states, steps, d, i) else StillOwner(states, steps, c, j)
  {
    c := AnswerWasLookedUp(states, steps, a, p, i, fs, tag, names);
    d := AnswerWasLookedUp(states, steps, b, q, j, fs, tag, names);
    if c <= d {
      OneTargetOneInstance(states, steps, c, p, i, d, q, j, fs, tag, names);
    } else {
      OneTargetOneInstance(states, steps, d, q, j, c, p, i, fs, tag, names);
    }
  }

  // A request launches an instance if and only if every instance of what it leads to, if there is
  // any, has been removed or evicted.
  lemma LaunchesExactly(states: seq<State>, steps: seq<Step>, k: nat,
                        fs: FileSystem, tag: Tag, names: set<string>)
    requires Behaviour(states, steps) && k < |steps| && steps[k].Begin?
    requires Against(steps, fs, tag, names) && NamesApart(fs, tag, names)
    ensures var s, c := states[k], NameOfTarget(fs, tag, steps[k].name);
      |states[k + 1].insts| > |s.insts| <==>
        forall i :: 0 <= i < |s.insts| && s.insts[i].name == c ==> i in s.removed || i in Evicted(states, steps, k)
  {
    var s, c := states[k], NameOfTarget(fs, tag, steps[k].name);
    ResolveOf(fs, steps[k].name, tag);
    RunKeeps(states, steps, k);
    RunKeepsSound(states, steps, k, fs, tag, names);
    BoundUnlessEvicted(states, steps, k);
    if c in s.apps {
      assert Bound(s, s.apps[c]);
    } else {
      forall i | 0 <= i < |s.insts| && s.insts[i].name == c
        ensures i in s.removed || i in Evicted(states, steps, k)
      {
        LaunchFindsNoOwner(states, steps, k, i);
      }
    }
  }

  // ---------------------------------------------------------------- one link

  ghost predicate NoneNamed(s: State, q: string) {
    forall i :: 0 <= i < |s.insts| ==> s.insts[i].name != q
  }

  lemma StepNamesNone(s: State, step: Step, q: string)
    requires Inv(s) && Enabled(s, step) && NoneNamed(s, q)
    requires step.Begin? ==> step.resolution.canonical != q
    ensures NoneNamed(Apply(s, step), q)
  {
    StepKeeps(s, step);
  }

  lemma CanonicalIsNoLink(steps: seq<Step>, k: nat, q: string, fs: FileSystem, tag: Tag, names: set<string>)
    requires k < |steps| && steps[k].Begin? && steps[k].resolution.Target?
    requires q in names && LinkTarget(fs, q).Some?
    requires Against(steps, fs, tag, names) && NamesApart(fs, tag, names)
    ensures steps[k].resolution.canonical != q
  {
    ResolveOf(fs, steps[k].name, tag);
  }

  // No instance carries the name of a link.
  lemma {:induction false} NoneNamedByLink(states: seq<State>, steps: seq<Step>, k: nat, q: string,
                                           fs: FileSystem, tag: Tag, names: set<string>)
    requires Behaviour(states, steps) && k < |states| && q in names && LinkTarget(fs, q).Some?
    requires Against(steps, fs, tag, names) && NamesApart(fs, tag, names)
    ensures NoneNamed(states[k], q)
  {
    if k > 0 {
      NoneNamedByLink(states, steps, k - 1, q, fs, tag, names);
      RunKeeps(states, steps, k - 1);
      if steps[k - 1].Begin? {
        CanonicalIsNoLink(steps, k - 1, q, fs, tag, names);
      }
      StepNamesNone(states[k - 1], steps[k - 1], q);
    }
  }

  // The instance is mapped under q unless it has been removed.
  ghost predicate HeldUnder(s: State, q: string, i: Id) {
    (q in s.apps && s.apps[q] == i) <==> i !in s.removed
  }

  lemma StepKeepsHeld(s: State, step: Step, q: string, i: Id)
    requires Inv(s) && Enabled(s, step) && HeldUnder(s, q, i)
    requires NoneNamed(s, q)
    ensures HeldUnder(Apply(s, step), q, i)
  {
    StepKeeps(s, step);
    if step.End? {
      LookupExtends(s.apps, s.lock.name, s.lock.resolution, Started(s.lock.id));
    }
  }

  lemma {:induction false} LinkStays(states: seq<State>, steps: seq<Step>, a: nat, b: nat, q: string, i: Id,
                                     fs: FileSystem, tag: Tag, names: set<string>)
    requires Behaviour(states, steps) && a <= b < |states| && q in names && LinkTarget(fs, q).Some?
    requires Against(steps, fs, tag, names) && NamesApart(fs, tag, names)
    requires HeldUnder(states[a], q, i)
    ensures HeldUnder(states[b], q, i)
    decreases b
  {
    if a < b {
      LinkStays(states, steps, a, b - 1, q, i, fs, tag, names);
      NoneNamedByLink(states, steps, b - 1, q, fs, tag, names);
      RunKeeps(states, steps, b - 1);
      StepKeepsHeld(states[b - 1], steps[b - 1], q, i);
    }
  }

  lemma AnsweredUnder(states: seq<State>, steps: seq<Step>, k: nat, q: string, i: Id,
                      fs: FileSystem, tag: Tag, names: set<string>)
    requires Behaviour(states, steps) && Answered(states, steps, k, q, i) && q in names && q != ""
    requires Against(steps, fs, tag, names) && NamesApart(fs, tag, names)
    requires LinkTarget(fs, q).Some? && fs.stat(LinkTarget(fs, q).value).base != q
    ensures q in states[k + 1].apps && states[k + 1].apps[q] == i
  {
    RunKeeps(states, steps, k);
    RunKeepsSound(states, steps, k, fs, tag, names);
  }

  // A link that is called differently from its target is answered with the same instance until
  // that is removed, evicted or not.
  lemma OneLinkOneInstance(states: seq<State>, steps: seq<Step>, a: nat, i: Id, b: nat, j: Id, q: string,
                           fs: FileSystem, tag: Tag, names: set<string>)
    requires Behaviour(states, steps) && a <= b < |steps|
    requires Against(steps, fs, tag, names) && NamesApart(fs, tag, names) && q in names && q != ""
    requires LinkTarget(fs, q).Some? && fs.stat(LinkTarget(fs, q).value).base != q
    requires Answered(states, steps, a, q, i) && Answered(states, steps, b, q, j)
    ensures i == j <==> i !in states[b + 1].removed
  {
    AnsweredUnder(states, steps, a, q, i, fs, tag, names);
    AnsweredUnder(states, steps, b, q, j, fs, tag, names);
    RunKeeps(states, steps, a + 1);
    LinkStays(states, steps, a + 1, b + 1, q, i, fs, tag, names);
  }

  // ---------------------------------------------------------------- one application under two names

  lemma {:induction false} NoTicksNoneEvicted(states: seq<State>, steps: seq<Step>, k: nat)
    requires |states| == |steps| + 1 && k <= |steps|
    requires forall m :: 0 <= m < |steps| ==> !steps[m].IdleTick?
    ensures Evicted(states, steps, k) == {}
  {
    if k > 0 {
      NoTicksNoneEvicted(states, steps, k - 1);
    }
  }

  function Booting(name: string): Instance {
    Launched(name, false, false, false, Listening, Looping, Looping, true)
  }

  // A request that finds nothing under the canonical name, with nothing happening in between.
  lemma LaunchFor(states: seq<State>, steps: seq<Step>, name: string, r: Resolution)
    returns (states': seq<State>, steps': seq<Step>)
    requires Behaviour(states, steps) && states[|steps|].lock.Free? && r.Target? && r.isDir
    requires name !in states[|steps|].apps && r.canonical !in states[|steps|].apps
    ensures Behaviour(states', steps') && steps' == steps + [Begin(name, r), End]
    ensures var s := states[|steps|];
      states'[|steps'|]
      == s.(apps := Bind(s.apps, name, r, |s.insts|), insts := s.insts + [Booting(r.canonical)])
  {
    var s := states[|steps|];
    Take(states, steps, Begin(name, r));
    var t := Apply(s, Begin(name, r));
    Take(states + [t], steps + [Begin(name, r)], End);
    states', steps' := states + [t] + [Apply(t, End)], steps + [Begin(name, r)] + [End];
  }

  lemma LaunchBoth(p: string, r: Resolution, q: string, l: Resolution)
    returns (states: seq<State>, steps: seq<Step>)
    requires r.Target? && r.isDir && l.Target? && l.isDir
    requires p != q && r.canonical != q && l.canonical != p && l.canonical != r.canonical
    ensures Behaviour(states, steps) && steps == [Begin(p, r), End, Begin(q, l), End]
    ensures var s := states[4];
      && s.removed == {} && s.insts == [Booting(r.canonical), Booting(l.canonical)]
      && r.canonical in s.apps && s.apps[r.canonical] == 0 && l.canonical in s.apps && s.apps[l.canonical] == 1
  {
    states, steps := LaunchFor([INIT], [], p, r);
    states, steps := LaunchFor(states, steps, q, l);
  }

  // Two names of applications that do not lead to the same, though it may be one directory, get two
  // live instances when one is requested after the other, with no removal and no idle tick.
  lemma TwoNamesTwoInstances(p: string, q: string, fs: FileSystem, tag: Tag, names: set<string>)
    returns (states: seq<State>, steps: seq<Step>)
    requires NamesApart(fs, tag, names) && TagsApart(fs, tag, names) && p in names && q in names
    requires !SameTarget(fs, p, q)
    requires var r := Resolve(p, AnswersOf(fs, p), tag); r.Target? && r.isDir
    requires var r := Resolve(q, AnswersOf(fs, q), tag); r.Target? && r.isDir
    ensures Behaviour(states, steps) && Against(steps, fs, tag, names)
    ensures |steps| == 4 && Evicted(states, steps, 4) == {}
    ensures var s, c, d := states[4], NameOfTarget(fs, tag, p), NameOfTarget(fs, tag, q);
      && s.removed == {} && s.insts == [Booting(c), Booting(d)]
      && c in s.apps && s.apps[c] == 0 && d in s.apps && s.apps[d] == 1
  {
    var r, l := Resolve(p, AnswersOf(fs, p), tag), Resolve(q, AnswersOf(fs, q), tag);
    ResolveOf(fs, p, tag);
    ResolveOf(fs, q, tag);
    CanonicalByTargets(fs, tag, names, p, q);
    states, steps := LaunchBoth(p, r, q, l);
    NoTicksNoneEvicted(states, steps, 4);
  }

  // A directory with a link to it.
  const DIRECTORY := "foo"
  const LINK := "bar"
  const LINKED_DIRECTORY := FileSystem(
    (name: string) => name,
    (path: string) => if path == DIRECTORY || path == LINK then Found(true, path) else Missing,
    (path: string) => if path == LINK then DIRECTORY else "")

  // Such two names: a directory, requested as itself, and a link that leads to its very path.
  lemma DirectoryAndLinkSplit(tag: Tag) returns (states: seq<State>, steps: seq<Step>)
    requires |tag(DIRECTORY)| == 8
    ensures LinkTarget(LINKED_DIRECTORY, LINK) == Some(LINKED_DIRECTORY.path(DIRECTORY))
    ensures Behaviour(states, steps) && Against(steps, LINKED_DIRECTORY, tag, {DIRECTORY, LINK})
    ensures |steps| == 4 && Evicted(states, steps, 4) == {} && states[4].removed == {}
    ensures states[4].insts == [Booting(DIRECTORY), Booting(CanonicalName(DIRECTORY, DIRECTORY, tag))]
  {
    var fs := LINKED_DIRECTORY;
    assert DIRECTORY[0] != LINK[0];
    assert |CanonicalName(DIRECTORY, DIRECTORY, tag)| == 12;
    assert LinkTarget(fs, DIRECTORY) == None && LinkTarget(fs, LINK) == Some(DIRECTORY);
    states, steps := TwoNamesTwoInstances(DIRECTORY, LINK, fs, tag, {DIRECTORY, LINK});
  }
}
