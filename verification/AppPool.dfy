// The application pool and its instances as the objects of dev/app.go. Every method here is one
// sequence of locked regions run without interference; module Lifecycle interleaves them.
module AppPools {
  import opened Text
  import opened Lookup

  // ---------------------------------------------------------------- which name gets looked up

  // pruneSub: drops the first label.
  function PruneSub(name: string): (r: string)
    ensures name != "" ==> |r| < |name|
  {
    var dot := IndexByte(name, '.');
    if dot == -1 then "" else name[dot + 1..]
  }

  // t is the name itself or what follows one of its dots.
  ghost predicate DotSuffix(t: string, name: string) {
    t == name || HasSuffix(name, "." + t)
  }

  // Looking t up in such a map, with such a verdict of the file system, gives an answer other than
  // "unknown app".
  predicate KnownIn<A>(apps: map<string, A>, r: Resolution, t: string) {
    t in apps || !r.Nothing?
  }

  // Where a search ends: the name it looks up last, and the number of that probe.
  datatype Stop = Stop(name: string, at: nat)

  // The search of FindAppByDomainName from its k-th probe on. The lock is free between probes, so
  // the map and the file system may be different at each: maps(k) and probe(k, .) are what the k-th
  // probe meets.
  function Search<A>(name: string, k: nat, maps: nat -> map<string, A>, probe: (nat, string) -> Resolution): Stop
    decreases |name|
  {
    if name == "" then Stop("default", k)
    else if KnownIn(maps(k), probe(k, name), name) then Stop(name, k)
    else Search(PruneSub(name), k + 1, maps, probe)
  }

  function FindApp<A>(name: string, maps: nat -> map<string, A>, probe: (nat, string) -> Resolution,
                      boot: Boot<A>): Outcome<A>
  {
    var s := Search(name, 0, maps, probe);
    LookupApp(maps(s.at), s.name, probe(s.at, s.name), boot)
  }

  // What makes the search go on.
  lemma KnownExactly<A>(apps: map<string, A>, r: Resolution, t: string, boot: Boot<A>)
    ensures KnownIn(apps, r, t) <==> LookupApp(apps, t, r, boot).result != Err(UnknownApp)
  {
  }

  // The suffix u was probed by a search that began with probe k, before probe `at`, and the answer
  // was "unknown app".
  ghost predicate WasUnknown<A>(u: string, k: nat, at: nat, maps: nat -> map<string, A>,
                                probe: (nat, string) -> Resolution, boot: Boot<A>)
  {
    exists j :: k <= j < at && LookupApp(maps(j), u, probe(j, u), boot).result == Err(UnknownApp)
  }

  // What a search promises: it ends at a non-empty suffix at a dot whose answer was another when it
  // was probed, be it an application or an error, and for every longer one it was "unknown app"
  // before; or it was for all, and the search ends at "default".
  ghost predicate SearchEnds<A>(s: Stop, name: string, k: nat, maps: nat -> map<string, A>,
                                probe: (nat, string) -> Resolution, boot: Boot<A>)
  {
    && k <= s.at
    && (|| EndsAtSuffix(s, name, k, maps, probe, boot)
        || (s.name == "default"
            && forall u :: DotSuffix(u, name) && u != "" ==> WasUnknown(u, k, s.at, maps, probe, boot)))
  }

  ghost predicate EndsAtSuffix<A>(s: Stop, name: string, k: nat, maps: nat -> map<string, A>,
                                  probe: (nat, string) -> Resolution, boot: Boot<A>)
  {
    && s.name != "" && DotSuffix(s.name, name)
    && LookupApp(maps(s.at), s.name, probe(s.at, s.name), boot).result != Err(UnknownApp)
    && forall u :: DotSuffix(u, name) && |u| > |s.name| ==> WasUnknown(u, k, s.at, maps, probe, boot)
  }

  // Pruning visits exactly the dot-boundary suffixes.
  lemma PrunedSuffixes(name: string, t: string)
    requires name != "" && t != ""
    ensures DotSuffix(t, name) <==> t == name || DotSuffix(t, PruneSub(name))
  {
    var dot := IndexByte(name, '.');
    var rest := PruneSub(name);
    if dot == -1 {
      SuffixMember(name, '.', t);
    } else {
      assert HasSuffix(name, "." + rest) by {
        assert name[dot..] == "." + rest;
      }
      if HasSuffix(name, "." + t) {
        var at := |name| - |t| - 1;
        assert name[at] == '.';
        assert at >= dot;
        if at > dot {
          SuffixesNest(name, "." + t, rest);
        } else {
          assert t == rest by {
            assert name[at + 1..] == t;
          }
        }
      }
      if HasSuffix(rest, "." + t) {
        SuffixTrans(name, rest, "." + t);
      }
    }
  }

  // What the rest of a search says of the suffixes below `name` holds of all of them, once `name`
  // itself was unknown.
  lemma UnknownBefore<A>(u: string, name: string, k: nat, at: nat, maps: nat -> map<string, A>,
                         probe: (nat, string) -> Resolution, boot: Boot<A>)
    requires name != "" && k < at && LookupApp(maps(k), name, probe(k, name), boot).result == Err(UnknownApp)
    requires u != "" && DotSuffix(u, name)
    requires DotSuffix(u, PruneSub(name)) ==> WasUnknown(u, k + 1, at, maps, probe, boot)
    ensures WasUnknown(u, k, at, maps, probe, boot)
  {
    PrunedSuffixes(name, u);
    if u != name {
      var j :| k + 1 <= j < at && LookupApp(maps(j), u, probe(j, u), boot).result == Err(UnknownApp);
    }
  }

  lemma SearchOn<A>(s: Stop, name: string, k: nat, maps: nat -> map<string, A>,
                    probe: (nat, string) -> Resolution, boot: Boot<A>)
    requires name != "" && LookupApp(maps(k), name, probe(k, name), boot).result == Err(UnknownApp)
    requires SearchEnds(s, PruneSub(name), k + 1, maps, probe, boot)
    ensures SearchEnds(s, name, k, maps, probe, boot)
  {
    if EndsAtSuffix(s, PruneSub(name), k + 1, maps, probe, boot) {
      PrunedSuffixes(name, s.name);
      forall u | DotSuffix(u, name) && |u| > |s.name| ensures WasUnknown(u, k, s.at, maps, probe, boot) {
        UnknownBefore(u, name, k, s.at, maps, probe, boot);
      }
    } else {
      forall u | DotSuffix(u, name) && u != "" ensures WasUnknown(u, k, s.at, maps, probe, boot) {
        UnknownBefore(u, name, k, s.at, maps, probe, boot);
      }
    }
  }

  lemma NoLongerSuffix(u: string, name: string)
    requires DotSuffix(u, name)
    ensures |u| <= |name|
  {
    if u != name {
      assert HasSuffix(name, "." + u);
    }
  }

  // However the pool and the file system change between the probes.
  lemma {:induction false} SearchIsSound<A>(name: string, k: nat, maps: nat -> map<string, A>,
                                            probe: (nat, string) -> Resolution, boot: Boot<A>)
    ensures SearchEnds(Search(name, k, maps, probe), name, k, maps, probe, boot)
    decreases |name|
  {
    if name == "" {
      forall u | DotSuffix(u, name) ensures u == "" {
        NoLongerSuffix(u, name);
      }
    } else {
      KnownExactly(maps(k), probe(k, name), name, boot);
      if KnownIn(maps(k), probe(k, name), name) {
        forall u | DotSuffix(u, name) ensures |u| <= |name| {
          NoLongerSuffix(u, name);
        }
      } else {
        SearchIsSound(PruneSub(name), k + 1, maps, probe, boot);
        SearchOn(Search(PruneSub(name), k + 1, maps, probe), name, k, maps, probe, boot);
      }
    }
  }

  // ---------------------------------------------------------------- a pool that holds still

  function Still<A>(apps: map<string, A>): nat -> map<string, A> {
    (k: nat) => apps
  }

  function StillProbe(probe: string -> Resolution): (nat, string) -> Resolution {
    (k: nat, t: string) => probe(t)
  }

  // The longest non-empty dot-boundary suffix of the name whose answer is not "unknown app".
  ghost predicate LongestKnown<A>(apps: map<string, A>, probe: string -> Resolution, boot: Boot<A>,
                                  name: string, t: string)
  {
    && t != "" && DotSuffix(t, name) && LookupApp(apps, t, probe(t), boot).result != Err(UnknownApp)
    && forall u :: u != "" && DotSuffix(u, name) && LookupApp(apps, u, probe(u), boot).result != Err(UnknownApp)
         ==> |u| <= |t|
  }

  // With nothing changing in between, the search ends at the longest suffix with such an answer,
  // and at "default" only if there is none.
  lemma StopsAtLongestKnown<A>(apps: map<string, A>, name: string, probe: string -> Resolution, boot: Boot<A>)
    ensures var s := Search(name, 0, Still(apps), StillProbe(probe)).name;
      || LongestKnown(apps, probe, boot, name, s)
      || (s == "default" && forall t :: t != "" && DotSuffix(t, name) ==>
            LookupApp(apps, t, probe(t), boot).result == Err(UnknownApp))
  {
    SearchIsSound(name, 0, Still(apps), StillProbe(probe), boot);
    var s := Search(name, 0, Still(apps), StillProbe(probe));
    forall u | WasUnknown(u, 0, s.at, Still(apps), StillProbe(probe), boot)
      ensures LookupApp(apps, u, probe(u), boot).result == Err(UnknownApp)
    {
      var j :| 0 <= j < s.at && LookupApp(Still(apps)(j), u, StillProbe(probe)(j, u), boot).result == Err(UnknownApp);
    }
  }

  // ---------------------------------------------------------------- the objects

  // The code of "no such file or directory".
  const ENOENT := 2

  datatype Start = Starts | Fails(code: int)

  class App {
    const Name: string
    const proxy: bool
    const pool: AppPool
    var lastUse: int

    constructor (name: string, proxy: bool, pool: AppPool, now: int)
      ensures Name == name && this.proxy == proxy && this.pool == pool && lastUse == now
    {
      this.Name := name;
      this.proxy := proxy;
      this.pool := pool;
      this.lastUse := now;
    }

    // Kill: removal follows the signal only if that could be sent.
    method Kill(signalled: bool)
      modifies pool`apps, pool`closed
      ensures pool.apps == if signalled then Remove(old(pool.apps), this) else old(pool.apps)
      ensures pool.closed == old(pool.closed) + (if signalled && pool.notify then [this] else [])
    {
      if signalled {
        pool.RemoveApp(this);
      }
    }

    // watch, from the moment its select fires, on the end of the output or on a dying tomb: whatever
    // becomes of the signal, the instance ends up unmapped, and nothing else changes.
    method Watch(outputEnded: bool, signalled: bool) returns (failed: bool)
      modifies pool`apps, pool`closed
      ensures pool.apps == Remove(old(pool.apps), this)
      ensures pool.closed == old(pool.closed)
                             + (if !pool.notify then [] else if signalled then [this, this] else [this])
      ensures failed <==> outputEnded
    {
      failed := outputEnded;
      Kill(signalled);
      RemoveAgain(old(pool.apps), this, Remove(old(pool.apps), this));
      pool.RemoveApp(this);
    }

    // idleMonitor over what its select receives: it ends at the first tick past the idle time, or
    // when the tomb is dying.
    method IdleMonitor(wakes: seq<Wake>, signalled: bool) returns (idled: bool)
      modifies pool`apps, pool`closed
      ensures idled <==> exists k :: 0 <= k < |wakes| && IdleAt(wakes[k], lastUse, pool.IdleTime)
                                     && forall j :: 0 <= j < k ==> wakes[j].Tick?
      ensures !idled ==> pool.apps == old(pool.apps) && pool.closed == old(pool.closed)
      ensures idled ==> pool.closed == old(pool.closed) + (if signalled && pool.notify then [this] else [])
      ensures idled ==>
        (pool.apps == if signalled then Remove(Evict(old(pool.apps), Name), this) else Evict(old(pool.apps), Name))
    {
      for k := 0 to |wakes|
        invariant pool.apps == old(pool.apps) && pool.closed == old(pool.closed)
        invariant forall j :: 0 <= j < k ==> wakes[j].Tick? && !IdleAt(wakes[j], lastUse, pool.IdleTime)
      {
        match wakes[k] {
          case TombDying =>
            return false;
          case Tick(now) =>
            var idle := pool.MaybeIdle(this, now);
            if idle {
              Kill(signalled);
              return true;
            }
        }
      }
      return false;
    }
  }

  // What wakes idleMonitor up.
  datatype Wake = Tick(now: int) | TombDying

  predicate IdleAt(w: Wake, lastUse: int, idleTime: int) {
    w.Tick? && w.now - lastUse > idleTime
  }

  class AppPool {
    var IdleTime: int
    const tag: Tag
    // Whether AppClosed is set, and the instances it has been called with.
    const notify: bool
    var closed: seq<App>
    var apps: map<string, App>

    constructor (idleTime: int, tag: Tag, notify: bool)
      ensures apps == map[] && IdleTime == idleTime && this.tag == tag && this.notify == notify && closed == []
    {
      IdleTime := idleTime;
      this.tag := tag;
      this.notify := notify;
      closed := [];
      apps := map[];
    }

    method MaybeIdle(app: App, now: int) returns (idle: bool)
      modifies `apps
      ensures idle <==> now - app.lastUse > IdleTime
      ensures apps == if idle then old(apps) - {app.Name} else old(apps)
    {
      var diff := now - app.lastUse;
      if diff > IdleTime {
        apps := apps - {app.Name};
        return true;
      }
      return false;
    }

    // Deletes while ranging over the map; the range order is arbitrary. AppClosed is called even if
    // the instance was not mapped.
    method RemoveApp(app: App)
      modifies `apps, `closed
      ensures apps == Remove(old(apps), app)
      ensures closed == old(closed) + (if notify then [app] else [])
    {
      var todo := apps.Keys;
      while todo != {}
        invariant todo <= apps.Keys <= old(apps).Keys
        invariant closed == old(closed)
        invariant forall k :: k in apps ==> apps[k] == old(apps)[k]
        invariant forall k :: k in todo ==> k in apps
        invariant forall k :: k in old(apps) && k !in todo ==> (k in apps <==> old(apps)[k] != app)
        decreases todo
      {
        var name :| name in todo;
        var candidate := apps[name];
        if candidate == app {
          apps := apps - {name};
        }
        todo := todo - {name};
      }
      if notify {
        closed := closed + [app];
      }
    }

    // LaunchApp for a directory, readProxy for a file.
    method Launch(name: string, isDir: bool, start: Start, now: int) returns (app: App?, err: int)
      ensures app == null <==> start.Fails?
      ensures start.Fails? ==> err == start.code
      ensures app != null ==> fresh(app) && app.Name == name && app.proxy == !isDir && app.pool == this
                              && app.lastUse == now
    {
      match start {
        case Fails(code) =>
          app, err := null, code;
        case Starts =>
          app := new App(name, !isDir, this, now);
          err := 0;
      }
    }

    // lookupApp. The error of the link-target stat stays in `err` unless the launch overwrites it.
    method LookupApp(name: string, a: Answers, start: Start, now: int)
      returns (result: Result<App>, ghost boot: Boot<App>)
      modifies `apps
      ensures var o := Lookup.LookupApp(old(apps), name, Resolve(name, a, tag), boot);
              apps == o.apps && result == o.result && (o.booted ==> fresh(result.app))
      ensures boot.Started? ==> start.Starts? && fresh(boot.app)
      ensures NamedFor(Resolve(name, a, tag), boot, (x: App) => x.Name)
      ensures boot.Started? ==> boot.app.pool == this && boot.app.lastUse == now
      ensures boot.Started? ==> Resolve(name, a, tag).Target? && boot.app.proxy == !Resolve(name, a, tag).isDir
      ensures boot.NotStarted? && start.Fails? ==> boot.code == start.code
      ensures start.Starts? && result.Err? ==> !result.error.BootFailed?
    {
      boot := NotStarted(match start case Fails(code) => code case Starts => 0);
      if name in apps {
        return Ok(apps[name]), boot;
      }
      var stat, destPath := a.first, a.firstLink;
      if !stat.Found? {
        if stat.StatError? {
          return Err(ProbeFailed(stat.code)), boot;
        }
        var possible := ReplaceAll(name, '-', '/');
        if possible == name {
          return Err(UnknownApp), boot;
        }
        stat, destPath := a.second, a.secondLink;
        if !stat.Found? {
          if stat.StatError? {
            return Err(ProbeFailed(stat.code)), boot;
          }
          return Err(UnknownApp), boot;
        }
      }
      var canonicalName, aliasName := name, "";
      var failed, err := !a.dest.Found?, ProbeFailed(if a.dest.StatError? then a.dest.code else ENOENT);
      if a.dest.Found? {
        canonicalName := a.dest.base + "-" + tag(destPath);
        if a.dest.base != name {
          aliasName := name;
        }
      }
      var ok := canonicalName in apps;
      var app: App? := if ok then apps[canonicalName] else null;
      if !ok {
        var code;
        app, code := Launch(canonicalName, stat.isDir, start, now);
        failed, err := app == null, BootFailed(code);
        if app != null {
          boot := Started(app);
        }
      }
      if failed {
        return Err(err), boot;
      }
      apps := apps[canonicalName := app];
      if aliasName != "" {
        apps := apps[aliasName := app];
      }
      return Ok(app), boot;
    }

    // The search for an application by host name. Other requests and the goroutines of the
    // instances run between the probes: others(k) is the map when the k-th probe takes the lock, and
    // answers(k, .) what the file system answers it.
    method FindAppByDomainName(host: string, others: nat -> map<string, App>,
                               answers: (nat, string) -> Answers, start: Start, now: int)
      returns (result: Result<App>, ghost boot: Boot<App>)
      modifies `apps
      ensures var o := FindApp(host, others, (k: nat, t: string) => Resolve(t, answers(k, t), tag), boot);
              apps == o.apps && result == o.result && (o.booted ==> fresh(result.app))
      ensures boot.Started? ==> start.Starts? && fresh(boot.app)
      ensures boot.NotStarted? && start.Fails? ==> boot.code == start.code
      ensures start.Starts? && result.Err? ==> !result.error.BootFailed?
    {
      ghost var probe := (k: nat, t: string) => Resolve(t, answers(k, t), tag);
      var name, k := host, 0;
      while name != ""
        invariant Search(host, 0, others, probe) == Search(name, k, others, probe)
        decreases |name|
      {
        apps := others(k);
        result, boot := LookupApp(name, answers(k, name), start, now);
        if result.Err? && result.error.UnknownApp? {
          assert !KnownIn(others(k), probe(k, name), name) && apps == others(k);
          name, k := PruneSub(name), k + 1;
          continue;
        }
        assert KnownIn(others(k), probe(k, name), name);
        return;
      }
      apps := others(k);
      result, boot := LookupApp("default", answers(k, "default"), start, now);
    }
  }
}
