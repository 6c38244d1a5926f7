// From a request's host to its application: removeTLD and FindAppByDomainName composed
// (dev/http.go, dev/app.go).
module Routing {
  import opened Text
  import opened Lookup
  import opened Domains
  import opened AppPools

  // What ServeHTTP asks of the pool for a host; maps(k) and probe(k, .) are what the k-th probe of
  // the search meets.
  function Route<A>(hostport: string, domains: seq<string>, maps: nat -> map<string, A>,
                    probe: (nat, string) -> Resolution, boot: Boot<A>): Outcome<A>
  {
    FindApp(StripTLD(hostport, domains), maps, probe, boot)
  }

  // The answer is that of one lookup, at the end of a search for `name`: of the longest suffix at a
  // dot whose answer, when it was probed, was not "unknown app", all longer ones having been unknown
  // when they were; and of "default" only if all were unknown.
  ghost predicate AnswersSearch<A>(o: Outcome<A>, name: string, maps: nat -> map<string, A>,
                                   probe: (nat, string) -> Resolution, boot: Boot<A>)
  {
    exists s :: SearchEnds(s, name, 0, maps, probe, boot)
                && o == LookupApp(maps(s.at), s.name, probe(s.at, s.name), boot)
  }

  // A host put together from a name and its longest configured domain, with or without a port,
  // reaches the application for the longest known suffix of the name, however the domains were
  // listed, whatever the sort did with ties, and whatever happens to the pool during the search.
  lemma EndToEnd<A>(name: string, d: string, hostport: string, domains: seq<string>, swaps: seq<(nat, nat)>,
                    maps: nat -> map<string, A>, probe: (nat, string) -> Resolution, boot: Boot<A>)
    requires ValidSwaps(|domains|, swaps) && Sorted(AfterSwaps(domains, swaps))
    requires var host := name + "." + d;
             && HostOf(hostport, host) && LongestDomain(host, domains, d)
             && !HasSuffix(host, ".xip.io") && !HasSuffix(host, ".nip.io")
    ensures AnswersSearch(Route(hostport, AfterSwaps(domains, swaps), maps, probe, boot), name, maps, probe, boot)
  {
    StripsLongestDomain(name, d, hostport, domains, swaps);
    SearchIsSound(name, 0, maps, probe, boot);
  }

  // And every other host the application for the longest known suffix of what it is stripped to.
  lemma AnyHostEndToEnd<A>(hostport: string, host: string, domains: seq<string>, swaps: seq<(nat, nat)>,
                           maps: nat -> map<string, A>, probe: (nat, string) -> Resolution, boot: Boot<A>)
    requires ValidSwaps(|domains|, swaps) && Sorted(AfterSwaps(domains, swaps)) && HostOf(hostport, host)
    ensures exists name ::
      && StrippedTo(host, domains, name)
      && AnswersSearch(Route(hostport, AfterSwaps(domains, swaps), maps, probe, boot), name, maps, probe, boot)
  {
    var name := StripTLD(hostport, AfterSwaps(domains, swaps));
    StripsExactly(hostport, host, domains, swaps);
    SearchIsSound(name, 0, maps, probe, boot);
    assert AnswersSearch(Route(hostport, AfterSwaps(domains, swaps), maps, probe, boot), name, maps, probe, boot);
  }

  // Through a wildcard-DNS service, the domains configured do not matter.
  lemma WildcardEndToEnd<A>(name: string, tail: seq<string>, hostport: string, domains: seq<string>,
                            maps: nat -> map<string, A>, probe: (nat, string) -> Resolution, boot: Boot<A>)
    requires AddressLabels(tail) && HostOf(hostport, name + "." + Join(tail, '.'))
    ensures AnswersSearch(Route(hostport, domains, maps, probe, boot), name, maps, probe, boot)
  {
    WildcardRoundTrip(name, tail, hostport, domains);
    SearchIsSound(name, 0, maps, probe, boot);
  }

  // In a pool that holds still during the search: the longest known suffix, or "default" if none is.
  lemma StillPoolAnswer<A>(name: string, apps: map<string, A>, probe: string -> Resolution, boot: Boot<A>)
    ensures var o := FindApp(name, Still(apps), StillProbe(probe), boot);
      || (exists t :: LongestKnown(apps, probe, boot, name, t) && o == LookupApp(apps, t, probe(t), boot))
      || ((forall t :: t != "" && DotSuffix(t, name) ==> LookupApp(apps, t, probe(t), boot).result == Err(UnknownApp))
          && o == LookupApp(apps, "default", probe("default"), boot))
  {
    StopsAtLongestKnown(apps, name, probe, boot);
    var s := Search(name, 0, Still(apps), StillProbe(probe));
    assert StillProbe(probe)(s.at, s.name) == probe(s.name);
  }

  // A virtual host answers for its subdomains unless one of them, or a name in between, has an
  // application of its own.
  lemma SubdomainsShare<A>(host: string, name: string, apps: map<string, A>,
                           probe: string -> Resolution, boot: Boot<A>)
    requires name != "" && LookupApp(apps, name, probe(name), boot).result != Err(UnknownApp)
    requires HasSuffix(host, "." + name)
    requires forall t :: |t| > |name| && DotSuffix(t, host) ==>
      LookupApp(apps, t, probe(t), boot).result == Err(UnknownApp)
    ensures FindApp(host, Still(apps), StillProbe(probe), boot) == LookupApp(apps, name, probe(name), boot)
  {
    StopsAtLongestKnown(apps, host, probe, boot);
    assert DotSuffix(name, host);
    OnlyLongest(apps, probe, boot, host, name, Search(host, 0, Still(apps), StillProbe(probe)).name);
  }

  lemma OnlyLongest<A>(apps: map<string, A>, probe: string -> Resolution, boot: Boot<A>,
                       host: string, name: string, s: string)
    requires HasSuffix(host, "." + name) && LongestKnown(apps, probe, boot, host, s)
    requires name != "" && LookupApp(apps, name, probe(name), boot).result != Err(UnknownApp)
    requires forall t :: |t| > |name| && DotSuffix(t, host) ==>
      LookupApp(apps, t, probe(t), boot).result == Err(UnknownApp)
    ensures s == name
  {
    assert DotSuffix(name, host);
    if s != host {
      SuffixesNest(host, "." + name, "." + s);
      assert ("." + s)[1..] == s && ("." + name)[1..] == name;
    }
  }
}
