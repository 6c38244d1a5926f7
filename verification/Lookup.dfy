// What one locked region of the application pool (dev/app.go) does to the map of running
// applications, as functions of the map. Instances are values of any type with equality.
module Lookup {
  import opened Text

  // Answer of os.Stat: the last component of the path comes with success.
  datatype Stat = Missing | StatError(code: int) | Found(isDir: bool, base: string)

  // The answers of the file system to the probes of one lookup, in the order they are made:
  // the path itself, the path with '-' expanded to '/', and the target of the link read there.
  datatype Answers = Answers(first: Stat, firstLink: string, second: Stat, secondLink: string, dest: Stat)

  datatype Error = UnknownApp | ProbeFailed(code: int) | BootFailed(code: int)

  datatype Result<A> = Ok(app: A) | Err(error: Error)

  // Starting an application: a new instance, or an error that is never "unknown app".
  datatype Boot<A> = Started(app: A) | NotStarted(code: int)

  // Eight hexadecimal digits of the SHA-1 of a link target.
  type Tag = string -> string

  // What the probes say about a requested name.
  datatype Resolution =
    | Nothing
    | Broken(code: int)
    | Target(canonical: string, aliased: bool, isDir: bool)

  function CanonicalName(base: string, link: string, tag: Tag): string {
    base + "-" + tag(link)
  }

  function ResolveAt(name: string, stat: Stat, link: string, dest: Stat, tag: Tag): Resolution
    requires stat.Found?
  {
    if dest.Found? then
      Target(CanonicalName(dest.base, link, tag), dest.base != name, stat.isDir)
    else
      Target(name, false, stat.isDir)
  }

  // Lookup up to the second consultation of the map.
  function Resolve(name: string, a: Answers, tag: Tag): (r: Resolution) {
    match a.first
    case Found(_, _) => ResolveAt(name, a.first, a.firstLink, a.dest, tag)
    case StatError(code) => Broken(code)
    case Missing =>
      if ReplaceAll(name, '-', '/') == name then Nothing
      else match a.second
        case Found(_, _) => ResolveAt(name, a.second, a.secondLink, a.dest, tag)
        case StatError(code) => Broken(code)
        case Missing => Nothing
  }

  datatype Outcome<A> = Outcome(apps: map<string, A>, result: Result<A>, booted: bool)

  // The keys a successful lookup leads to its instance: the canonical name and, when the link
  // is called differently from its target, the requested name (the empty name stands for none).
  function Bind<A>(apps: map<string, A>, name: string, r: Resolution, app: A): (m: map<string, A>)
    requires r.Target?
    ensures m.Keys == apps.Keys + {r.canonical} + (if r.aliased && name != "" then {name} else {})
    ensures m[r.canonical] == app
    ensures forall k :: k in m ==> m[k] == app || (k in apps && m[k] == apps[k])
    ensures forall k :: k in apps && k != r.canonical && k != name ==> k in m && m[k] == apps[k]
  {
    var m := apps[r.canonical := app];
    if r.aliased && name != "" then m[name := app] else m
  }

  function LookupApp<A>(apps: map<string, A>, name: string, r: Resolution, boot: Boot<A>): Outcome<A> {
    if name in apps then Outcome(apps, Ok(apps[name]), false)
    else match r
      case Nothing => Outcome(apps, Err(UnknownApp), false)
      case Broken(code) => Outcome(apps, Err(ProbeFailed(code)), false)
      case Target(canonical, _, _) =>
        if canonical in apps then
          Outcome(Bind(apps, name, r, apps[canonical]), Ok(apps[canonical]), false)
        else match boot
          case NotStarted(code) => Outcome(apps, Err(BootFailed(code)), false)
          case Started(app) => Outcome(Bind(apps, name, r, app), Ok(app), true)
  }

  // "Unknown app" means: not mapped, nothing at the path, and nothing at its expansion if it has one.
  lemma UnknownExactly<A>(apps: map<string, A>, name: string, a: Answers, tag: Tag, boot: Boot<A>)
    ensures LookupApp(apps, name, Resolve(name, a, tag), boot).result == Err(UnknownApp) <==>
            name !in apps && a.first.Missing? && ('-' in name ==> a.second.Missing?)
  {
  }

  // An error of the file system other than "does not exist" is answered as it is, from the path or,
  // nothing being there, from its expansion.
  lemma ProbeFailedExactly<A>(apps: map<string, A>, name: string, a: Answers, tag: Tag, boot: Boot<A>, code: int)
    ensures LookupApp(apps, name, Resolve(name, a, tag), boot).result == Err(ProbeFailed(code)) <==>
            name !in apps
            && (a.first == StatError(code) || (a.first.Missing? && '-' in name && a.second == StatError(code)))
  {
  }

  // What a lookup does with something found, at the path or at its expansion. With a stat-able link
  // target the instance is that of the canonical name, and the requested name is bound too if the
  // target is called differently; otherwise it is that of the requested name.
  lemma FoundExactly<A>(apps: map<string, A>, name: string, a: Answers, tag: Tag, boot: Boot<A>,
                        stat: Stat, link: string)
    requires name !in apps && stat.Found?
    requires (stat == a.first && link == a.firstLink)
             || (a.first.Missing? && '-' in name && stat == a.second && link == a.secondLink)
    ensures var o := LookupApp(apps, name, Resolve(name, a, tag), boot);
            var c := if a.dest.Found? then a.dest.base + "-" + tag(link) else name;
            var alias := if a.dest.Found? && a.dest.base != name && name != "" then {name} else {};
      && (c !in apps && boot.NotStarted? ==> o.result == Err(BootFailed(boot.code)))
      && (c in apps ==> o.result == Ok(apps[c]) && !o.booted)
      && (c !in apps && boot.Started? ==> o.result == Ok(boot.app) && o.booted)
      && (o.result.Ok? ==> o.apps == map k | k in apps.Keys + {c} + alias ::
                                       if k in {c} + alias then o.result.app else apps[k])
  {
  }

  // Lookup only extends the map, whatever the file system answers: old entries keep their value,
  // only the requested and the canonical key may be added, an error changes nothing, and the
  // result is the instance now found under the canonical key (or was there under the name).
  lemma LookupExtends<A>(apps: map<string, A>, name: string, r: Resolution, boot: Boot<A>)
    ensures var o := LookupApp(apps, name, r, boot);
      && (forall k :: k in apps ==> k in o.apps && o.apps[k] == apps[k])
      && (o.result.Err? ==> o.apps == apps && !o.booted)
      && (o.result.Ok? ==> forall k :: k in o.apps && k !in apps ==> o.apps[k] == o.result.app)
      && (o.apps.Keys - apps.Keys <= {name} + if r.Target? then {r.canonical} else {})
      && (o.booted ==> r.Target? && boot == Started(o.result.app) && r.canonical !in apps)
      && (o.result.Ok? && !o.booted ==> o.result.app in apps.Values)
      && (o.result.Ok? && name !in apps ==>
            (r.Target? && r.canonical in o.apps && o.apps[r.canonical] == o.result.app))
      && (o.result.Ok? && name !in apps ==>
            (name in o.apps <==> name == r.canonical || (r.aliased && name != "")))
      && (name in apps ==> o.result == Ok(apps[name]) && o.apps == apps)
  {
  }

  // Looking the same name up again changes nothing and starts nothing, whatever the answers.
  lemma RepeatedLookup<A>(apps: map<string, A>, name: string, r: Resolution, boot: Boot<A>, boot': Boot<A>)
    requires LookupApp(apps, name, r, boot).result.Ok?
    ensures var o := LookupApp(apps, name, r, boot);
            var again := LookupApp(o.apps, name, r, boot');
            again.apps == o.apps && again.result == o.result && !again.booted
  {
  }

  // ---------------------------------------------------------------- remove and maybeIdle

  // AppPool.remove: every key of the instance goes, and only those.
  function Remove<A(==)>(apps: map<string, A>, app: A): (m: map<string, A>)
    ensures app !in m.Values
    ensures forall k :: k in m <==> k in apps && apps[k] != app
    ensures forall k :: k in m ==> m[k] == apps[k]
  {
    map k | k in apps && apps[k] != app :: apps[k]
  }

  // Removing again, or removing what was never mapped, is no change; a replacement that took
  // over a name of the instance in between keeps all its keys.
  lemma RemoveAgain<A>(apps: map<string, A>, app: A, later: map<string, A>)
    requires app !in later.Values
    ensures Remove(later, app) == later
    ensures Remove(Remove(apps, app), app) == Remove(apps, app)
  {
  }

  // AppPool.maybeIdle evicts by name.
  function Evict<A>(apps: map<string, A>, name: string): map<string, A> {
    apps - {name}
  }

  // ---------------------------------------------------------------- the canonical key

  // Every mapped instance is also mapped under its own name, `except` aside.
  ghost predicate Canonical<A>(apps: map<string, A>, nameOf: A -> string, except: set<A>) {
    forall k :: k in apps && apps[k] !in except ==> nameOf(apps[k]) in apps && apps[nameOf(apps[k])] == apps[k]
  }

  // An instance is started under the canonical key it is looked up by.
  ghost predicate NamedFor<A>(r: Resolution, boot: Boot<A>, nameOf: A -> string) {
    r.Target? && boot.Started? ==> nameOf(boot.app) == r.canonical
  }

  lemma LookupKeepsCanonical<A>(apps: map<string, A>, name: string, r: Resolution, boot: Boot<A>,
                                nameOf: A -> string, except: set<A>)
    requires Canonical(apps, nameOf, except) && NamedFor(r, boot, nameOf)
    ensures Canonical(LookupApp(apps, name, r, boot).apps, nameOf, except)
  {
  }

  lemma RemoveKeepsCanonical<A>(apps: map<string, A>, app: A, nameOf: A -> string, except: set<A>)
    requires Canonical(apps, nameOf, except)
    ensures Canonical(Remove(apps, app), nameOf, except - {app})
  {
  }

  datatype Request<A> = Request(name: string, resolution: Resolution, boot: Boot<A>)

  function Lookups<A>(apps: map<string, A>, requests: seq<Request<A>>): map<string, A> {
    if requests == [] then apps
    else
      var n := |requests| - 1;
      var q := requests[n];
      LookupApp(Lookups(apps, requests[..n]), q.name, q.resolution, q.boot).apps
  }

  lemma {:induction false} LookupsKeepCanonical<A>(apps: map<string, A>, requests: seq<Request<A>>,
                                                   nameOf: A -> string, except: set<A>)
    requires Canonical(apps, nameOf, except)
    requires forall q :: q in requests ==> NamedFor(q.resolution, q.boot, nameOf)
    ensures Canonical(Lookups(apps, requests), nameOf, except)
  {
    if requests != [] {
      var n := |requests| - 1;
      LookupsKeepCanonical(apps, requests[..n], nameOf, except);
      var q := requests[n];
      LookupKeepsCanonical(Lookups(apps, requests[..n]), q.name, q.resolution, q.boot, nameOf, except);
    }
  }

  // Idling an instance that still owns its name, then any lookups, then removing it: whole again.
  lemma IdleLookupsRemove<A>(apps: map<string, A>, app: A, requests: seq<Request<A>>, nameOf: A -> string)
    requires Canonical(apps, nameOf, {})
    requires nameOf(app) in apps ==> apps[nameOf(app)] == app
    requires forall q :: q in requests ==> NamedFor(q.resolution, q.boot, nameOf)
    ensures Canonical(Remove(Lookups(Evict(apps, nameOf(app)), requests), app), nameOf, {})
  {
    var evicted := Evict(apps, nameOf(app));
    assert Canonical(evicted, nameOf, {app});
    LookupsKeepCanonical(evicted, requests, nameOf, {app});
    RemoveKeepsCanonical(Lookups(evicted, requests), app, nameOf, {app});
    assert {app} - {app} == {};
  }

  // Later lookups of a run only add entries to what earlier ones left.
  lemma {:induction false} LookupsExtend<A>(apps: map<string, A>, run: seq<Request<A>>, i: nat, j: nat)
    requires i <= j <= |run|
    ensures var m, n := Lookups(apps, run[..i]), Lookups(apps, run[..j]);
            forall k :: k in m ==> k in n && n[k] == m[k]
    decreases j
  {
    if i < j {
      LookupsExtend(apps, run, i, j - 1);
      assert run[..j][..j - 1] == run[..j - 1];
      var q := run[j - 1];
      LookupExtends(Lookups(apps, run[..j - 1]), q.name, q.resolution, q.boot);
    }
  }

  // Every instance these requests start is new: none of `old`.
  ghost predicate StartsNew<A>(requests: seq<Request<A>>, before: set<A>) {
    forall q :: q in requests && q.boot.Started? ==> q.boot.app !in before
  }

  // This request, met by this map, binds the name to x: it goes through a link of that name, an alias
  // of a target that x is mapped for.
  predicate Gives<A(==)>(apps: map<string, A>, q: Request<A>, name: string, x: A) {
    && name !in apps && q.name == name && name != ""
    && q.resolution.Target? && q.resolution.aliased
    && q.resolution.canonical in apps && apps[q.resolution.canonical] == x
  }

  // One of these requests does, made in their order.
  ghost predicate GivesBack<A>(apps: map<string, A>, requests: seq<Request<A>>, name: string, x: A) {
    exists k :: 0 <= k < |requests| && Gives(Lookups(apps, requests[..k]), requests[k], name, x)
  }

  lemma GivesBackOrLast<A>(apps: map<string, A>, requests: seq<Request<A>>, name: string, x: A)
    requires requests != []
    ensures var n := |requests| - 1;
      GivesBack(apps, requests, name, x)
      <==> GivesBack(apps, requests[..n], name, x) || Gives(Lookups(apps, requests[..n]), requests[n], name, x)
  {
    var n := |requests| - 1;
    assert forall k :: 0 <= k < n ==> requests[..n][..k] == requests[..k] && requests[..n][k] == requests[k];
    if GivesBack(apps, requests, name, x) {
      var k :| 0 <= k < |requests| && Gives(Lookups(apps, requests[..k]), requests[k], name, x);
      assert k < n ==> Gives(Lookups(apps, requests[..n][..k]), requests[..n][k], name, x);
    }
    if GivesBack(apps, requests[..n], name, x) {
      var k :| 0 <= k < n && Gives(Lookups(apps, requests[..n][..k]), requests[..n][k], name, x);
      assert Gives(Lookups(apps, requests[..k]), requests[k], name, x);
    }
  }

  // An instance that has lost a name gets it back from such a request only.
  lemma {:induction false} LostNameReturns<A>(apps: map<string, A>, requests: seq<Request<A>>, name: string, x: A)
    requires name !in apps || apps[name] != x
    requires StartsNew(requests, {x})
    ensures var m := Lookups(apps, requests); name in m && m[name] == x <==> GivesBack(apps, requests, name, x)
  {
    if requests != [] {
      var n := |requests| - 1;
      LostNameReturns(apps, requests[..n], name, x);
      GivesBackOrLast(apps, requests, name, x);
      assert requests[n] in requests;
      LookupExtends(Lookups(apps, requests[..n]), requests[n].name, requests[n].resolution, requests[n].boot);
    }
  }

  // An instance that is not mapped is not mapped again.
  lemma {:induction false} AbsentStaysAbsent<A>(apps: map<string, A>, requests: seq<Request<A>>, x: A)
    requires x !in apps.Values && StartsNew(requests, {x})
    ensures x !in Lookups(apps, requests).Values
  {
    if requests != [] {
      var n := |requests| - 1;
      AbsentStaysAbsent(apps, requests[..n], x);
      var q := requests[n];
      assert q in requests;
      LookupExtends(Lookups(apps, requests[..n]), q.name, q.resolution, q.boot);
    }
  }

  // What removing `app` should leave: every other instance that was mapped still is, and every
  // mapped instance is mapped under its own name.
  ghost predicate OthersUnharmed<A>(apps: map<string, A>, app: A, after: map<string, A>, nameOf: A -> string) {
    Canonical(after, nameOf, {}) && apps.Values - {app} <= after.Values
  }

  // The map after `app` is idled, any lookups are made, and `app` is removed.
  function AfterIdling<A(==)>(apps: map<string, A>, name: string, requests: seq<Request<A>>, app: A): map<string, A> {
    Remove(Lookups(Evict(apps, name), requests), app)
  }

  lemma SurvivesWithKey<A>(apps: map<string, A>, name: string, requests: seq<Request<A>>, app: A, k: string)
    requires k in apps && k != name && apps[k] != app
    ensures var after := AfterIdling(apps, name, requests, app); k in after && after[k] == apps[k]
  {
    var evicted := Evict(apps, name);
    assert requests[..|requests|] == requests;
    assert Lookups(evicted, requests[..0]) == evicted;
    LookupsExtend(evicted, requests, 0, |requests|);
    assert k in evicted;
    assert k in Lookups(evicted, requests) && Lookups(evicted, requests)[k] == apps[k];
  }

  lemma OthersSurvive<A>(apps: map<string, A>, app: A, requests: seq<Request<A>>, nameOf: A -> string)
    requires Canonical(apps, nameOf, {})
    requires var n := nameOf(app); n !in apps || apps[n] == app || nameOf(apps[n]) != n
    ensures apps.Values - {app} <= AfterIdling(apps, nameOf(app), requests, app).Values
  {
    var n := nameOf(app);
    forall x | x in apps.Values && x != app ensures x in AfterIdling(apps, n, requests, app).Values {
      var k :| k in apps && apps[k] == x;
      SurvivesWithKey(apps, n, requests, app, if k == n then nameOf(x) else k);
    }
  }

  // A holder of the name other than `app`, evicted: it is back under it exactly when a request gives
  // it back, and it is mapped at all exactly when it had another key.
  lemma HolderEvicted<A>(apps: map<string, A>, app: A, requests: seq<Request<A>>, n: string)
    requires n in apps && apps[n] != app && StartsNew(requests, apps.Values + {app})
    ensures var after := AfterIdling(apps, n, requests, app);
      && (n in after && after[n] == apps[n] <==> GivesBack(Evict(apps, n), requests, n, apps[n]))
      && (apps[n] in after.Values <==> exists k :: k in apps && k != n && apps[k] == apps[n])
  {
    var holder, evicted := apps[n], Evict(apps, n);
    assert holder in apps.Values;
    LostNameReturns(evicted, requests, n, holder);
    if k :| k in apps && k != n && apps[k] == holder {
      SurvivesWithKey(apps, n, requests, app, k);
      assert AfterIdling(apps, n, requests, app)[k] == holder;
    } else {
      assert holder !in evicted.Values;
      AbsentStaysAbsent(evicted, requests, holder);
    }
  }

  lemma HolderRestored<A>(apps: map<string, A>, app: A, requests: seq<Request<A>>, nameOf: A -> string)
    requires Canonical(apps, nameOf, {})
    requires forall q :: q in requests ==> NamedFor(q.resolution, q.boot, nameOf)
    requires StartsNew(requests, apps.Values + {app})
    requires var n := nameOf(app); n in apps && apps[n] != app && nameOf(apps[n]) == n
    requires GivesBack(Evict(apps, nameOf(app)), requests, nameOf(app), apps[nameOf(app)])
    ensures OthersUnharmed(apps, app, AfterIdling(apps, nameOf(app), requests, app), nameOf)
  {
    var n := nameOf(app);
    var holder, evicted, after := apps[n], Evict(apps, n), AfterIdling(apps, n, requests, app);
    HolderEvicted(apps, app, requests, n);
    assert Canonical(evicted, nameOf, {holder});
    LookupsKeepCanonical(evicted, requests, nameOf, {holder});
    RemoveKeepsCanonical(Lookups(evicted, requests), app, nameOf, {holder});
    forall x | x in apps.Values && x != app ensures x in after.Values {
      var k :| k in apps && apps[k] == x;
      if k != n {
        SurvivesWithKey(apps, n, requests, app, k);
      }
    }
  }

  // Idling evicts by name, so a stale instance takes the key of its replacement. With any lookups
  // before the removal, this harms nobody exactly when the name was free, the instance's own, a
  // mere alias of its holder, or given back to the holder by a link of that name. Otherwise the
  // holder loses its name: with another key it stays mapped beside its successor, and with no
  // other key it is dropped altogether.
  lemma StaleIdleExactly<A>(apps: map<string, A>, app: A, requests: seq<Request<A>>, nameOf: A -> string)
    requires Canonical(apps, nameOf, {})
    requires forall q :: q in requests ==> NamedFor(q.resolution, q.boot, nameOf)
    requires StartsNew(requests, apps.Values + {app})
    ensures var n := nameOf(app);
            var after := AfterIdling(apps, n, requests, app);
      && (OthersUnharmed(apps, app, after, nameOf)
          <==> (n !in apps || apps[n] == app || nameOf(apps[n]) != n
                || GivesBack(Evict(apps, n), requests, n, apps[n])))
      && (n in apps && apps[n] != app ==>
          (apps[n] in after.Values <==> exists k :: k in apps && k != n && apps[k] == apps[n]))
  {
    var n := nameOf(app);
    if n in apps && apps[n] != app {
      HolderEvicted(apps, app, requests, n);
    }
    if n !in apps || apps[n] == app {
      IdleLookupsRemove(apps, app, requests, nameOf);
      OthersSurvive(apps, app, requests, nameOf);
    } else if nameOf(apps[n]) != n {
      LookupsKeepCanonical(Evict(apps, n), requests, nameOf, {});
      OthersSurvive(apps, app, requests, nameOf);
    } else if GivesBack(Evict(apps, n), requests, n, apps[n]) {
      HolderRestored(apps, app, requests, nameOf);
    } else {
      assert apps[n] in apps.Values;
    }
  }
}
