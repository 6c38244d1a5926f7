// Several links to one application directory: with the file system holding still and nothing
// being removed, they share one instance, and different targets never do (dev/app.go, lookupApp).
module Aliases {
  import opened Options
  import opened Text
  import opened Lookup

  // A file system that does not change: answers are functions of the path asked about.
  // `path` is filepath.Join(pool.Dir, .).
  datatype FileSystem = FileSystem(path: string -> string, stat: string -> Stat, link: string -> string)

  function Expanded(fs: FileSystem, name: string): string {
    fs.path(ReplaceAll(name, '-', '/'))
  }

  // The probes lookupApp makes: the link read where the stat succeeded is followed once.
  function AnswersOf(fs: FileSystem, name: string): Answers {
    var p, e := fs.path(name), Expanded(fs, name);
    Answers(fs.stat(p), fs.link(p), fs.stat(e), fs.link(e),
            fs.stat(if fs.stat(p).Found? then fs.link(p) else fs.link(e)))
  }

  // Where a requested name leads: the stat-able target of the link found for it.
  function LinkTarget(fs: FileSystem, name: string): Option<string> {
    var p, e := fs.path(name), Expanded(fs, name);
    var target := if fs.stat(p).Found? then fs.link(p) else fs.link(e);
    if Resolve(name, AnswersOf(fs, name), _ => "").Target? && fs.stat(target).Found?
    then Some(target) else None
  }

  function CanonicalOf(fs: FileSystem, target: string, tag: Tag): string
    requires fs.stat(target).Found?
  {
    CanonicalName(fs.stat(target).base, target, tag)
  }

  lemma ResolveOf(fs: FileSystem, name: string, tag: Tag)
    ensures var r := Resolve(name, AnswersOf(fs, name), tag);
            var t := LinkTarget(fs, name);
      && (t.Some? ==> r.Target? && fs.stat(t.value).Found? && r.canonical == CanonicalOf(fs, t.value, tag))
      && (t.None? && r.Target? ==> r.canonical == name && !r.aliased)
      && (r.Target? ==>
            var found := if fs.stat(fs.path(name)).Found? then fs.path(name) else Expanded(fs, name);
            fs.stat(found).Found? && r.isDir == fs.stat(found).isDir)
  {
  }

  // Where something is found for a name: at its own path, or, only if nothing is there, at the path
  // that has the parts between its hyphens as directories.
  predicate FoundAt(fs: FileSystem, name: string, path: string) {
    fs.stat(path).Found?
    && (path == fs.path(name)
        || (fs.stat(fs.path(name)).Missing? && '-' in name && path == fs.path(Join(Split(name, '-'), '/'))))
  }

  // What a lookup does with it, told from the file system.
  lemma LookupByFiles<A>(apps: map<string, A>, name: string, fs: FileSystem, tag: Tag, boot: Boot<A>, path: string)
    requires name !in apps && FoundAt(fs, name, path)
    ensures var o, target := LookupApp(apps, name, Resolve(name, AnswersOf(fs, name), tag), boot), fs.link(path);
            var linked := fs.stat(target).Found?;
            var c := if linked then fs.stat(target).base + "-" + tag(target) else name;
            var alias := if linked && fs.stat(target).base != name && name != "" then {name} else {};
      && Resolve(name, AnswersOf(fs, name), tag).Target?
      && Resolve(name, AnswersOf(fs, name), tag).isDir == fs.stat(path).isDir
      && LinkTarget(fs, name) == (if linked then Some(target) else None)
      && (c !in apps && boot.NotStarted? ==> o.result == Err(BootFailed(boot.code)))
      && (c in apps ==> o.result == Ok(apps[c]) && !o.booted)
      && (c !in apps && boot.Started? ==> o.result == Ok(boot.app) && o.booted)
      && (o.result.Ok? ==> o.apps == map k | k in apps.Keys + {c} + alias ::
                                       if k in {c} + alias then o.result.app else apps[k])
  {
    ReplaceIsSplitJoin(name, '-', '/');
    var a := AnswersOf(fs, name);
    if path == fs.path(name) {
      FoundExactly(apps, name, a, tag, boot, a.first, a.firstLink);
    } else {
      FoundExactly(apps, name, a, tag, boot, a.second, a.secondLink);
    }
  }

  lemma UnknownByFiles<A>(apps: map<string, A>, name: string, fs: FileSystem, tag: Tag, boot: Boot<A>)
    ensures LookupApp(apps, name, Resolve(name, AnswersOf(fs, name), tag), boot).result == Err(UnknownApp) <==>
            name !in apps && fs.stat(fs.path(name)).Missing?
            && ('-' in name ==> fs.stat(fs.path(Join(Split(name, '-'), '/'))).Missing?)
  {
    ReplaceIsSplitJoin(name, '-', '/');
    UnknownExactly(apps, name, AnswersOf(fs, name), tag, boot);
  }

  // A base name and a tag of fixed length can be read back from a canonical name.
  lemma CanonicalNamesDiffer(base: string, link: string, base': string, link': string, tag: Tag)
    requires |tag(link)| == |tag(link')|
    ensures CanonicalName(base, link, tag) == CanonicalName(base', link', tag)
            <==> base == base' && tag(link) == tag(link')
  {
    var c, c' := CanonicalName(base, link, tag), CanonicalName(base', link', tag);
    assert c[|base| + 1..] == tag(link);
    assert c'[|base'| + 1..] == tag(link');
    assert c[..|base|] == base;
    assert c'[..|base'|] == base';
  }

  // A run of lookups against one file system, each start producing an instance of the asked name.
  ghost predicate RunOf<A>(fs: FileSystem, tag: Tag, nameOf: A -> string, run: seq<Request<A>>) {
    forall q :: q in run ==>
      q.resolution == Resolve(q.name, AnswersOf(fs, q.name), tag) && NamedFor(q.resolution, q.boot, nameOf)
  }

  // No requested name is the canonical name of a link target.
  ghost predicate Disjoint<A>(fs: FileSystem, tag: Tag, run: seq<Request<A>>) {
    forall q, p :: q in run && p in run && LinkTarget(fs, p.name).Some? && p.resolution.Target?
      ==> p.resolution.canonical != q.name
  }

  // Tags of the targets in play have one length and tell targets apart.
  ghost predicate TagsTellApart<A>(fs: FileSystem, tag: Tag, run: seq<Request<A>>) {
    forall q, p :: q in run && p in run && LinkTarget(fs, q.name).Some? && LinkTarget(fs, p.name).Some? ==>
      var t, u := LinkTarget(fs, q.name).value, LinkTarget(fs, p.name).value;
      |tag(t)| == |tag(u)| && (tag(t) == tag(u) ==> t == u)
  }

  // Whatever a requested name leads to is the instance under its canonical name, and carries it.
  ghost predicate Coherent<A>(apps: map<string, A>, run: seq<Request<A>>, nameOf: A -> string) {
    forall q :: q in run && q.resolution.Target? ==>
      var c := q.resolution.canonical;
      && (c in apps ==> nameOf(apps[c]) == c)
      && (q.name in apps ==> c in apps && apps[c] == apps[q.name])
  }

  lemma LookupKeepsCoherent<A>(apps: map<string, A>, run: seq<Request<A>>, q: Request<A>,
                               fs: FileSystem, tag: Tag, nameOf: A -> string)
    requires RunOf(fs, tag, nameOf, run) && Disjoint(fs, tag, run) && q in run
    requires Coherent(apps, run, nameOf)
    ensures var o := LookupApp(apps, q.name, q.resolution, q.boot);
      && Coherent(o.apps, run, nameOf)
      && (o.result.Ok? && q.resolution.Target? ==>
            (q.resolution.canonical in o.apps && o.apps[q.resolution.canonical] == o.result.app))
  {
    LookupExtends(apps, q.name, q.resolution, q.boot);
    var o := LookupApp(apps, q.name, q.resolution, q.boot);
    forall p | p in run && p.resolution.Target?
      ensures var c := p.resolution.canonical;
        (c in o.apps ==> nameOf(o.apps[c]) == c) && (p.name in o.apps ==> c in o.apps && o.apps[c] == o.apps[p.name])
    {
      ResolveOf(fs, p.name, tag);
      ResolveOf(fs, q.name, tag);
    }
  }

  lemma {:induction false} LookupsKeepCoherent<A>(apps: map<string, A>, run: seq<Request<A>>, k: nat,
                                                  fs: FileSystem, tag: Tag, nameOf: A -> string)
    requires RunOf(fs, tag, nameOf, run) && Disjoint(fs, tag, run) && k <= |run|
    requires Coherent(apps, run, nameOf)
    ensures Coherent(Lookups(apps, run[..k]), run, nameOf)
  {
    if k > 0 {
      LookupsKeepCoherent(apps, run, k - 1, fs, tag, nameOf);
      assert run[..k][..k - 1] == run[..k - 1];
      LookupKeepsCoherent(Lookups(apps, run[..k - 1]), run, run[k - 1], fs, tag, nameOf);
    }
  }

  // The answer to the k-th request of a run.
  function OutcomeAt<A>(apps: map<string, A>, run: seq<Request<A>>, k: nat): Outcome<A>
    requires k < |run|
  {
    LookupApp(Lookups(apps, run[..k]), run[k].name, run[k].resolution, run[k].boot)
  }

  // An answer to a request through a link is the instance under, and named by, the canonical key.
  lemma AnswerIsCanonical<A>(apps: map<string, A>, run: seq<Request<A>>, fs: FileSystem, tag: Tag,
                             nameOf: A -> string, i: nat)
    requires RunOf(fs, tag, nameOf, run) && Disjoint(fs, tag, run)
    requires Coherent(apps, run, nameOf)
    requires i < |run| && LinkTarget(fs, run[i].name).Some?
    ensures var c := CanonicalOf(fs, LinkTarget(fs, run[i].name).value, tag);
            var before, o := Lookups(apps, run[..i]), OutcomeAt(apps, run, i);
      && o.apps == Lookups(apps, run[..i + 1])
      && (o.result.Ok? ==> c in o.apps && o.apps[c] == o.result.app && nameOf(o.result.app) == c)
      && (c in before ==> !o.booted && o.result == Ok(before[c]))
  {
    var q, before := run[i], Lookups(apps, run[..i]);
    ResolveOf(fs, q.name, tag);
    LookupsKeepCoherent(apps, run, i, fs, tag, nameOf);
    LookupKeepsCoherent(before, run, q, fs, tag, nameOf);
    LookupExtends(before, q.name, q.resolution, q.boot);
    assert run[..i + 1][..i] == run[..i];
  }

  lemma CanonicalByTarget<A>(run: seq<Request<A>>, fs: FileSystem, tag: Tag, i: nat, j: nat)
    requires TagsTellApart(fs, tag, run) && i < |run| && j < |run|
    requires LinkTarget(fs, run[i].name).Some? && LinkTarget(fs, run[j].name).Some?
    ensures var t, u := LinkTarget(fs, run[i].name).value, LinkTarget(fs, run[j].name).value;
            CanonicalOf(fs, t, tag) == CanonicalOf(fs, u, tag) <==> t == u
  {
    var t, u := LinkTarget(fs, run[i].name).value, LinkTarget(fs, run[j].name).value;
    assert run[i] in run && run[j] in run;
    CanonicalNamesDiffer(fs.stat(t).base, t, fs.stat(u).base, u, tag);
  }

  // In any run of lookups from a coherent pool (an empty one is), the answers to two requests
  // through links are one instance exactly when the links have one target; once a target has
  // been answered every later request for it gets that answer, and it is never started twice.
  lemma AliasCoherence<A>(apps: map<string, A>, run: seq<Request<A>>, fs: FileSystem, tag: Tag,
                          nameOf: A -> string, i: nat, j: nat)
    requires RunOf(fs, tag, nameOf, run) && Disjoint(fs, tag, run) && TagsTellApart(fs, tag, run)
    requires Coherent(apps, run, nameOf)
    requires i < j < |run|
    requires LinkTarget(fs, run[i].name).Some? && LinkTarget(fs, run[j].name).Some?
    ensures var t, u := LinkTarget(fs, run[i].name).value, LinkTarget(fs, run[j].name).value;
            var o, p := OutcomeAt(apps, run, i), OutcomeAt(apps, run, j);
      && (o.result.Ok? && p.result.Ok? ==> (o.result == p.result <==> t == u))
      && (t == u && o.result.Ok? ==> p.result == o.result && !p.booted)
  {
    CanonicalByTarget(run, fs, tag, i, j);
    AnswerIsCanonical(apps, run, fs, tag, nameOf, i);
    AnswerIsCanonical(apps, run, fs, tag, nameOf, j);
    LookupsExtend(apps, run, i + 1, j);
  }
}
