// Host names to application names: the order the configured domains are sorted in
// (cmd/puma-dev/main.go) and the stripping of domain, port and wildcard-DNS suffix (dev/http.go).
module Domains {
  import opened Options
  import opened Text

  // ---------------------------------------------------------------- the sort order

  // ByDecreasingTLDComplexity.Less
  predicate Less(a: seq<string>, i: nat, j: nat)
    requires i < |a| && j < |a|
  {
    Count(a[i], '.') > Count(a[j], '.')
  }

  // Domains with more labels come first.
  lemma LessIsMoreLabels(a: seq<string>, i: nat, j: nat)
    requires i < |a| && j < |a|
    ensures Less(a, i, j) <==> |Split(a[i], '.')| > |Split(a[j], '.')|
  {
    PiecesCount(a[i], '.');
    PiecesCount(a[j], '.');
  }

  function SwapAt(a: seq<string>, i: nat, j: nat): (r: seq<string>)
    requires i < |a| && j < |a|
    ensures |r| == |a|
  {
    a[i := a[j]][j := a[i]]
  }

  method Swap(a: array<string>, i: nat, j: nat)
    requires i < a.Length && j < a.Length
    modifies a
    ensures a[..] == SwapAt(old(a[..]), i, j)
    ensures multiset(a[..]) == multiset(old(a[..]))
  {
    a[i], a[j] := a[j], a[i];
    SwapKeepsElements(old(a[..]), i, j);
  }

  lemma SwapKeepsElements(a: seq<string>, i: nat, j: nat)
    requires i < |a| && j < |a|
    ensures multiset(SwapAt(a, i, j)) == multiset(a)
  {
  }

  // What sort.Sort may do with Len, Less and Swap: any number of swaps, in any order.
  ghost predicate ValidSwaps(n: nat, swaps: seq<(nat, nat)>) {
    forall k :: 0 <= k < |swaps| ==> swaps[k].0 < n && swaps[k].1 < n
  }

  ghost function AfterSwaps(a: seq<string>, swaps: seq<(nat, nat)>): (r: seq<string>)
    requires ValidSwaps(|a|, swaps)
    ensures |r| == |a|
  {
    if swaps == [] then a
    else
      var n := |swaps| - 1;
      SwapAt(AfterSwaps(a, swaps[..n]), swaps[n].0, swaps[n].1)
  }

  // ... until no element must precede one before it. The sort need not be stable.
  ghost predicate Sorted(a: seq<string>) {
    forall i, j :: 0 <= i < j < |a| ==> !Less(a, j, i)
  }

  lemma {:induction false} SwapsKeepElements(a: seq<string>, swaps: seq<(nat, nat)>)
    requires ValidSwaps(|a|, swaps)
    ensures multiset(AfterSwaps(a, swaps)) == multiset(a)
  {
    if swaps != [] {
      var n := |swaps| - 1;
      SwapsKeepElements(a, swaps[..n]);
      SwapKeepsElements(AfterSwaps(a, swaps[..n]), swaps[n].0, swaps[n].1);
    }
  }

  // In an order that begins with the first k, nothing must precede one of these.
  ghost predicate SortedUpTo(a: seq<string>, k: nat) {
    forall i, j :: 0 <= i < j < |a| && i < k ==> !Less(a, j, i)
  }

  lemma {:induction false} FirstOf(a: seq<string>, k: nat) returns (m: nat)
    requires k < |a|
    ensures k <= m < |a| && forall j :: k <= j < |a| ==> !Less(a, j, m)
    decreases |a| - k
  {
    m := k;
    if k + 1 < |a| {
      var r := FirstOf(a, k + 1);
      if Less(a, r, k) {
        m := r;
      }
      forall j | k <= j < |a| ensures !Less(a, j, m) {
        assert j > k ==> !Less(a, j, r);
      }
    }
  }

  // There is such an order for every list of domains, and swaps lead to it.
  lemma {:induction false} CanBeSorted(a: seq<string>, swaps: seq<(nat, nat)>, k: nat)
    returns (more: seq<(nat, nat)>)
    requires ValidSwaps(|a|, swaps) && k <= |a| && SortedUpTo(AfterSwaps(a, swaps), k)
    ensures ValidSwaps(|a|, more) && Sorted(AfterSwaps(a, more))
    decreases |a| - k
  {
    if k == |a| {
      return swaps;
    }
    var b := AfterSwaps(a, swaps);
    var m := FirstOf(b, k);
    var next := swaps + [(k, m)];
    assert next[..|swaps|] == swaps;
    var c := SwapAt(b, k, m);
    forall i, j | 0 <= i < j < |c| && i < k + 1 ensures !Less(c, j, i) {
      var was := if j == k then m else if j == m then k else j;
      assert c[j] == b[was];
      if i < k {
        assert !Less(b, was, i);
      } else {
        assert c[i] == b[m] && !Less(b, was, m);
      }
    }
    more := CanBeSorted(a, next, k + 1);
  }

  // ---------------------------------------------------------------- removeTLD

  // The domain d ends the host at a label boundary.
  predicate EndsWithDomain(host: string, d: string) {
    HasSuffix(host, "." + d)
  }

  lemma EndsWithDomainExactly(host: string, d: string)
    ensures EndsWithDomain(host, d) <==> exists name :: host == name + "." + d
  {
    if EndsWithDomain(host, d) {
      assert host == host[..|host| - |d| - 1] + ("." + d);
      assert host == host[..|host| - |d| - 1] + "." + d;
    }
    if name :| host == name + "." + d {
      assert host == name + ("." + d);
    }
  }

  // net.SplitHostPort, host part only; None stands for its errors.
  function SplitHostPort(hostport: string): Option<string> {
    var i := LastIndexByte(hostport, ':');
    if i == -1 then None
    else if hostport[0] == '[' then
      var end := IndexByte(hostport, ']');
      if end == -1 || end + 1 != i then None
      else if '[' in hostport[1..] || ']' in hostport[end + 1..] then None
      else Some(hostport[1..end])
    else if ':' in hostport[..i] || '[' in hostport || ']' in hostport then None
    else Some(hostport[..i])
  }

  function DropPort(host: string): string {
    match SplitHostPort(host)
    case Some(h) => h
    case None => host
  }

  predicate WildcardHost(host: string) {
    HasSuffix(host, ".xip.io") || HasSuffix(host, ".nip.io")
  }

  // Removes a dotted IPv4 address and the two labels of the wildcard-DNS service.
  function StripWildcard(host: string): string {
    var parts := Split(host, '.');
    if |parts| < 6 then "" else Join(parts[..|parts| - 6], '.')
  }

  function FirstMatch(host: string, domains: seq<string>): (m: Option<string>)
    ensures m.Some? ==> m.value in domains && EndsWithDomain(host, m.value)
  {
    if domains == [] then None
    else if EndsWithDomain(host, domains[0]) then Some(domains[0])
    else FirstMatch(host, domains[1..])
  }

  function StripLastLabel(host: string): string {
    var dot := LastIndexByte(host, '.');
    if dot == -1 then host else host[..dot]
  }

  function StripDomain(host: string, domains: seq<string>): string {
    match FirstMatch(host, domains)
    case Some(d) => host[..|host| - |d| - 1]
    case None => StripLastLabel(host)
  }

  function StripHost(host: string, domains: seq<string>): string {
    if WildcardHost(host) then StripWildcard(host) else StripDomain(host, domains)
  }

  function StripTLD(hostport: string, domains: seq<string>): string {
    StripHost(DropPort(hostport), domains)
  }

  method RemoveTLD(hostport: string, domains: seq<string>) returns (name: string)
    ensures name == StripTLD(hostport, domains)
  {
    var host := hostport;
    var colon := LastIndexByte(host, ':');
    if colon != -1 {
      match SplitHostPort(host) {
        case Some(h) => host := h;
        case None =>
      }
    }
    if HasSuffix(host, ".xip.io") || HasSuffix(host, ".nip.io") {
      var parts := Split(host, '.');
      if |parts| < 6 {
        return "";
      }
      name := Join(parts[..|parts| - 6], '.');
      return;
    }
    for k := 0 to |domains|
      invariant FirstMatch(host, domains) == FirstMatch(host, domains[k..])
    {
      var tld := domains[k];
      if HasSuffix(host, "." + tld) {
        return host[..|host| - |"." + tld|];
      }
    }
    var dot := LastIndexByte(host, '.');
    if dot == -1 {
      return host;
    } else {
      return host[..dot];
    }
  }

  // ---------------------------------------------------------------- longest-domain match

  // d is the answer a longest-match search over the configured domains would give.
  ghost predicate LongestDomain(host: string, domains: seq<string>, d: string) {
    && d in domains
    && EndsWithDomain(host, d)
    && forall d' :: d' in domains && EndsWithDomain(host, d') ==> |d'| <= |d|
  }

  // Two domains ending one host at a dot are nested, so the longer has strictly more dots.
  lemma LongerHasMoreDots(host: string, d: string, e: string)
    requires EndsWithDomain(host, d) && EndsWithDomain(host, e)
    requires |d| < |e|
    ensures HasSuffix(e, "." + d)
    ensures Count(d, '.') < Count(e, '.')
  {
    SuffixesNest(host, "." + d, "." + e);
    assert ("." + e)[|e| - |d|..] == e[|e| - |d| - 1..];
    var front := e[..|e| - |d| - 1];
    assert e == front + ("." + d);
    CountConcat(front, "." + d, '.');
    assert ("." + d)[1..] == d;
  }

  lemma SameLengthSameDomain(host: string, d: string, e: string)
    requires EndsWithDomain(host, d) && EndsWithDomain(host, e)
    requires |d| == |e|
    ensures d == e
  {
    assert ("." + d)[1..] == d;
    assert ("." + e)[1..] == e;
  }

  lemma {:induction false} FirstMatchIndex(host: string, domains: seq<string>)
    ensures FirstMatch(host, domains).None? ==>
              forall d :: d in domains ==> !EndsWithDomain(host, d)
    ensures FirstMatch(host, domains).Some? ==>
              exists k :: 0 <= k < |domains| && domains[k] == FirstMatch(host, domains).value
                && EndsWithDomain(host, domains[k])
                && forall j :: 0 <= j < k ==> !EndsWithDomain(host, domains[j])
  {
    if domains != [] && !EndsWithDomain(host, domains[0]) {
      var rest := domains[1..];
      FirstMatchIndex(host, rest);
      if FirstMatch(host, rest).Some? {
        var k :| 0 <= k < |rest| && rest[k] == FirstMatch(host, rest).value
                 && EndsWithDomain(host, rest[k])
                 && forall j :: 0 <= j < k ==> !EndsWithDomain(host, rest[j]);
        assert domains[k + 1] == rest[k];
        forall j | 0 <= j < k + 1 ensures !EndsWithDomain(host, domains[j]) {
          if j > 0 {
            assert domains[j] == rest[j - 1];
          }
        }
      }
    }
  }

  // In an order by decreasing dot count, the first match is the longest match.
  lemma FirstIsLongest(host: string, sorted: seq<string>)
    requires Sorted(sorted)
    ensures FirstMatch(host, sorted).None? <==> forall d :: d in sorted ==> !EndsWithDomain(host, d)
    ensures FirstMatch(host, sorted).Some? ==> LongestDomain(host, sorted, FirstMatch(host, sorted).value)
  {
    FirstMatchIndex(host, sorted);
    if FirstMatch(host, sorted).Some? {
      var d := FirstMatch(host, sorted).value;
      var k :| 0 <= k < |sorted| && sorted[k] == d && EndsWithDomain(host, sorted[k])
               && forall j :: 0 <= j < k ==> !EndsWithDomain(host, sorted[j]);
      forall e | e in sorted && EndsWithDomain(host, e) ensures |e| <= |d| {
        var m :| 0 <= m < |sorted| && sorted[m] == e;
        assert k < m ==> !Less(sorted, m, k);
        if |e| > |d| {
          LongerHasMoreDots(host, d, e);
          assert false;
        }
      }
    }
  }

  // Whatever swaps the sort makes, the answer is that of a longest-match search over the
  // configured domains, so it depends neither on their order nor on how ties are broken.
  lemma SortedMatchIsLongest(host: string, domains: seq<string>, swaps: seq<(nat, nat)>)
    requires ValidSwaps(|domains|, swaps) && Sorted(AfterSwaps(domains, swaps))
    ensures var m := FirstMatch(host, AfterSwaps(domains, swaps));
            && (m.None? <==> forall d :: d in domains ==> !EndsWithDomain(host, d))
            && (forall d :: m == Some(d) <==> LongestDomain(host, domains, d))
  {
    var sorted := AfterSwaps(domains, swaps);
    SwapsKeepElements(domains, swaps);
    FirstIsLongest(host, sorted);
    forall d ensures d in domains <==> d in sorted {
      assert d in multiset(domains) <==> d in multiset(sorted);
    }
    var m := FirstMatch(host, sorted);
    forall d ensures m == Some(d) <==> LongestDomain(host, domains, d) {
      if LongestDomain(host, domains, d) {
        assert EndsWithDomain(host, m.value);
        SameLengthSameDomain(host, d, m.value);
      }
    }
  }

  lemma OrderDoesNotMatter(hostport: string, domains: seq<string>, s1: seq<(nat, nat)>,
                           domains': seq<string>, s2: seq<(nat, nat)>)
    requires multiset(domains) == multiset(domains')
    requires ValidSwaps(|domains|, s1) && Sorted(AfterSwaps(domains, s1))
    requires ValidSwaps(|domains'|, s2) && Sorted(AfterSwaps(domains', s2))
    ensures StripTLD(hostport, AfterSwaps(domains, s1)) == StripTLD(hostport, AfterSwaps(domains', s2))
  {
    var host := DropPort(hostport);
    SortedMatchIsLongest(host, domains, s1);
    SortedMatchIsLongest(host, domains', s2);
    forall d ensures d in domains <==> d in domains' {
      assert d in multiset(domains) <==> d in multiset(domains');
    }
    var m1 := FirstMatch(host, AfterSwaps(domains, s1));
    var m2 := FirstMatch(host, AfterSwaps(domains', s2));
    if m1.Some? {
      assert LongestDomain(host, domains', m1.value);
    } else {
      assert m2.None?;
    }
  }

  // ---------------------------------------------------------------- hosts put together again

  predicate PlainHost(h: string) {
    ':' !in h && '[' !in h && ']' !in h
  }

  // A host with at most one colon loses exactly its port.
  lemma DropPortOf(host: string, port: string)
    requires PlainHost(host) && PlainHost(port)
    ensures DropPort(host) == host
    ensures DropPort(host + ":" + port) == host
  {
  }

  // A bracketed address loses its port and its brackets; several colons without brackets, or a
  // bracketed address without a port, are left alone.
  lemma DropPortElsewhere(host: string, port: string)
    requires PlainHost(port) && '[' !in host && ']' !in host
    ensures DropPort("[" + host + "]" + ":" + port) == host
    ensures DropPort("[" + host + "]") == "[" + host + "]"
    ensures ':' in host ==> DropPort(host + ":" + port) == host + ":" + port
  {
    BracketedPort(host, port);
    BracketedAlone(host);
    if ':' in host {
      var hp := host + ":" + port;
      LastColon(host, port);
      assert hp[..|host|] == host;
      assert hp[0] == host[0];
    }
  }

  // host:port without other colons, or [host]:port.
  predicate Bracketed(hp: string, host: string, port: string) {
    PlainHost(port) && '[' !in host && ']' !in host && hp == "[" + host + "]" + ":" + port
  }

  predicate Unbracketed(hp: string, host: string, port: string) {
    PlainHost(port) && PlainHost(host) && hp == host + ":" + port
  }

  // These are the forms that are split, into these parts, and there is no other.
  lemma SplitHostPortExactly(hp: string, host: string)
    ensures SplitHostPort(hp) == Some(host) <==>
            exists port :: Bracketed(hp, host, port) || Unbracketed(hp, host, port)
  {
    if SplitHostPort(hp) == Some(host) {
      if hp[0] == '[' {
        SplitBracketed(hp, host);
      } else {
        SplitUnbracketed(hp, host);
      }
    }
    if port :| Bracketed(hp, host, port) || Unbracketed(hp, host, port) {
      FormIsSplit(hp, host, port);
    }
  }

  // The host in what a request names: without its port if it has one of these forms, else all of it.
  ghost predicate HostOf(hp: string, host: string) {
    || (exists port :: Bracketed(hp, host, port) || Unbracketed(hp, host, port))
    || (host == hp && forall h, port :: !Bracketed(hp, h, port) && !Unbracketed(hp, h, port))
  }

  lemma DropPortExactly(hp: string, host: string)
    ensures DropPort(hp) == host <==> HostOf(hp, host)
  {
    SplitHostPortExactly(hp, host);
    match SplitHostPort(hp)
    case Some(h) =>
      SplitHostPortExactly(hp, h);
    case None =>
      forall h, port ensures !Bracketed(hp, h, port) && !Unbracketed(hp, h, port) {
        SplitHostPortExactly(hp, h);
      }
  }

  lemma PlainHostOf(host: string, port: string)
    requires PlainHost(host) && PlainHost(port)
    ensures HostOf(host, host) && HostOf(host + ":" + port, host)
  {
    DropPortOf(host, port);
    DropPortExactly(host, host);
    DropPortExactly(host + ":" + port, host);
  }

  lemma FormIsSplit(hp: string, host: string, port: string)
    requires Bracketed(hp, host, port) || Unbracketed(hp, host, port)
    ensures SplitHostPort(hp) == Some(host)
  {
    if Bracketed(hp, host, port) {
      BracketedPort(host, port);
    } else {
      LastColon(host, port);
      assert hp[..|host|] == host;
      assert host != "" ==> hp[0] == host[0];
    }
  }

  lemma SplitBracketed(hp: string, host: string)
    requires hp != "" && hp[0] == '[' && SplitHostPort(hp) == Some(host)
    ensures Bracketed(hp, host, hp[LastIndexByte(hp, ':') + 1..])
  {
    var end := IndexByte(hp, ']');
    assert host == hp[1..end] && hp[end] == ']' && end + 1 == LastIndexByte(hp, ':');
    BracketParts(hp, end);
  }

  lemma BracketParts(hp: string, end: nat)
    requires 1 <= end < |hp| - 1 && hp[0] == '[' && hp[end] == ']' && hp[end + 1] == ':'
    requires ']' !in hp[..end] && '[' !in hp[1..] && ']' !in hp[end + 1..] && ':' !in hp[end + 2..]
    ensures Bracketed(hp, hp[1..end], hp[end + 2..])
  {
    var host, port := hp[1..end], hp[end + 2..];
    InMiddle(hp, 1, end);
    assert forall c :: c in port ==> c in hp[1..] && c in hp[end + 1..] by {
      assert hp[1..][end + 1..] == port && hp[end + 1..][1..] == port;
    }
    assert hp == ['['] + host + [']'] + [':'] + port;
  }

  lemma InMiddle(s: string, lo: nat, hi: nat)
    requires lo <= hi <= |s|
    ensures forall c :: c in s[lo..hi] ==> c in s[lo..] && c in s[..hi]
  {
    assert forall k :: lo <= k < hi ==> s[lo..hi][k - lo] == s[lo..][k - lo] == s[..hi][k];
  }

  lemma SplitUnbracketed(hp: string, host: string)
    requires hp != "" && hp[0] != '[' && SplitHostPort(hp) == Some(host)
    ensures Unbracketed(hp, host, hp[LastIndexByte(hp, ':') + 1..])
  {
    var i := LastIndexByte(hp, ':');
    var port := hp[i + 1..];
    assert host == hp[..i] && ':' !in host && ':' !in port && '[' !in hp && ']' !in hp;
    SubrangeOf(hp, i + 1, |hp|);
    SubrangeOf(hp, 0, i);
    assert hp[0..i] == host && hp[i + 1..|hp|] == port;
    CutAt(hp, i);
  }

  lemma CutAt(s: string, i: nat)
    requires i < |s|
    ensures s == s[..i] + [s[i]] + s[i + 1..]
  {
  }

  lemma SubrangeOf(s: string, lo: nat, hi: nat)
    requires lo <= hi <= |s|
    ensures forall c :: c in s[lo..hi] ==> c in s
  {
  }

  lemma LastColon(front: string, port: string)
    requires ':' !in port
    ensures LastIndexByte(front + ":" + port, ':') == |front|
  {
    var hp := front + ":" + port;
    var i := LastIndexByte(hp, ':');
    assert hp[|front|] == ':';
    assert hp[|front| + 1..] == port;
  }

  lemma BracketedPort(host: string, port: string)
    requires PlainHost(port) && '[' !in host && ']' !in host
    ensures SplitHostPort("[" + host + "]" + ":" + port) == Some(host)
  {
    var front := "[" + host + "]";
    var hp := front + ":" + port;
    LastColon(front, port);
    ClosingBracket(host, ":" + port);
    assert front + (":" + port) == hp;
    NoBrackets(hp, host, port);
  }

  lemma NoBrackets(hp: string, host: string, port: string)
    requires hp == "[" + host + "]" + ":" + port
    requires PlainHost(port) && '[' !in host && ']' !in host
    ensures '[' !in hp[1..] && ']' !in hp[|host| + 2..]
  {
  }

  lemma ClosingBracket(host: string, rest: string)
    requires ']' !in host
    ensures IndexByte("[" + host + "]" + rest, ']') == |host| + 1
    ensures ("[" + host + "]" + rest)[1..|host| + 1] == host
  {
    var hp := "[" + host + "]" + rest;
    assert hp[|host| + 1] == ']';
    assert forall j :: 0 < j <= |host| ==> hp[j] == host[j - 1];
  }

  lemma BracketedAlone(host: string)
    requires '[' !in host && ']' !in host
    ensures SplitHostPort("[" + host + "]").None?
  {
  }

  // Stripping a host built from a name and its longest configured domain gives back the name.
  lemma StripsLongestDomain(name: string, d: string, hostport: string, domains: seq<string>,
                            swaps: seq<(nat, nat)>)
    requires ValidSwaps(|domains|, swaps) && Sorted(AfterSwaps(domains, swaps))
    requires var host := name + "." + d;
             && HostOf(hostport, host) && LongestDomain(host, domains, d)
             && !HasSuffix(host, ".xip.io") && !HasSuffix(host, ".nip.io")
    ensures StripTLD(hostport, AfterSwaps(domains, swaps)) == name
  {
    DropPortExactly(hostport, name + "." + d);
    StripsMatched(name + "." + d, name, d, domains, swaps);
  }

  lemma StripsMatched(host: string, name: string, d: string, domains: seq<string>, swaps: seq<(nat, nat)>)
    requires ValidSwaps(|domains|, swaps) && Sorted(AfterSwaps(domains, swaps))
    requires host == name + "." + d && LongestDomain(host, domains, d)
    requires !HasSuffix(host, ".xip.io") && !HasSuffix(host, ".nip.io")
    ensures StripHost(host, AfterSwaps(domains, swaps)) == name
  {
    SortedMatchIsLongest(host, domains, swaps);
    assert FirstMatch(host, AfterSwaps(domains, swaps)) == Some(d);
  }

  // With no configured domain matching, exactly the last label goes, and a host of one label stays.
  lemma StripsUnlisted(host: string, name: string, last: string, hostport: string, domains: seq<string>)
    requires forall d :: d in domains ==> !EndsWithDomain(host, d)
    requires HostOf(hostport, host) && '.' !in last && (host == last || host == name + "." + last)
    requires !HasSuffix(host, ".xip.io") && !HasSuffix(host, ".nip.io")
    ensures StripTLD(hostport, domains) == if host == last then last else name
  {
    DropPortExactly(hostport, host);
    FirstMatchIndex(host, domains);
    if host != last {
      var i := LastIndexByte(host, '.');
      assert host[|name|] == '.';
      assert host[..i] == name;
    }
  }

  // The labels a wildcard-DNS name ends with: an address and the service.
  predicate AddressLabels(tail: seq<string>) {
    && |tail| == 6
    && (forall p :: p in tail ==> '.' !in p)
    && (tail[4] == "xip" || tail[4] == "nip")
    && tail[5] == "io"
  }

  // xip/nip round trip, for any name with any number of labels and any four address labels.
  lemma WildcardRoundTrip(name: string, tail: seq<string>, hostport: string, domains: seq<string>)
    requires AddressLabels(tail) && HostOf(hostport, name + "." + Join(tail, '.'))
    ensures StripTLD(hostport, domains) == name
  {
    DropPortExactly(hostport, name + "." + Join(tail, '.'));
    IsWildcard(name + ".", tail);
    StripsTail(name, tail);
  }

  lemma IsWildcard(front: string, tail: seq<string>)
    requires AddressLabels(tail)
    ensures WildcardHost(front + Join(tail, '.'))
  {
    JoinSuffix(tail, 4, '.');
    var t := "." + Join(tail[4..], '.');
    SuffixOfConcat(front, Join(tail, '.'));
    SuffixTrans(front + Join(tail, '.'), Join(tail, '.'), t);
    ServiceSuffix(tail[4..]);
  }

  lemma ServiceSuffix(last: seq<string>)
    requires |last| == 2 && (last[0] == "xip" || last[0] == "nip") && last[1] == "io"
    ensures "." + Join(last, '.') == ".xip.io" || "." + Join(last, '.') == ".nip.io"
  {
  }

  lemma {:induction false} JoinSuffix(parts: seq<string>, k: nat, sep: char)
    requires 0 < k < |parts|
    ensures HasSuffix(Join(parts, sep), [sep] + Join(parts[k..], sep))
  {
    var t := [sep] + Join(parts[k..], sep);
    if k > 1 {
      JoinSuffix(parts[1..], k - 1, sep);
      assert parts[1..][k - 1..] == parts[k..];
      SuffixOfConcat(parts[0] + [sep], Join(parts[1..], sep));
      SuffixTrans(Join(parts, sep), Join(parts[1..], sep), t);
    } else {
      assert Join(parts, sep) == parts[0] + t;
      SuffixOfConcat(parts[0], t);
    }
  }

  lemma StripsTail(name: string, tail: seq<string>)
    requires |tail| == 6 && forall p :: p in tail ==> '.' !in p
    ensures StripWildcard(name + "." + Join(tail, '.')) == name
  {
    SplitConcat(name, Join(tail, '.'), '.');
    SplitJoin(tail, '.');
    JoinSplit(name, '.');
    assert (Split(name, '.') + tail)[..|Split(name, '.')|] == Split(name, '.');
  }

  // Of any host under a wildcard-DNS service exactly the last six labels and the dot before them go;
  // nothing is left of one that has no more.
  lemma WildcardStrips(host: string, hostport: string, domains: seq<string>)
    requires HasSuffix(host, ".xip.io") || HasSuffix(host, ".nip.io")
    requires HostOf(hostport, host)
    ensures var labels, name := Split(host, '.'), StripTLD(hostport, domains);
      && (|labels| <= 6 ==> name == "")
      && (|labels| > 6 ==> host == name + "." + Join(labels[|labels| - 6..], '.'))
  {
    DropPortExactly(hostport, host);
    var labels := Split(host, '.');
    JoinSplit(host, '.');
    if |labels| > 6 {
      JoinCut(labels, |labels| - 6, '.');
    }
  }

  // What is stripped from a host, whatever it is: under a wildcard-DNS service, the last six labels
  // or everything; otherwise its longest configured domain; and with none, its last label unless it
  // is the only one.
  ghost predicate StrippedTo(host: string, domains: seq<string>, name: string) {
    var labels := Split(host, '.');
    if HasSuffix(host, ".xip.io") || HasSuffix(host, ".nip.io") then
      if |labels| <= 6 then name == "" else host == name + "." + Join(labels[|labels| - 6..], '.')
    else if exists d :: d in domains && EndsWithDomain(host, d) then
      exists d :: LongestDomain(host, domains, d) && host == name + "." + d
    else if |labels| == 1 then name == host
    else host == name + "." + labels[|labels| - 1]
  }

  // For every host, with or without a port, every list of domains and every outcome of the sort.
  lemma StripsExactly(hostport: string, host: string, domains: seq<string>, swaps: seq<(nat, nat)>)
    requires ValidSwaps(|domains|, swaps) && Sorted(AfterSwaps(domains, swaps)) && HostOf(hostport, host)
    ensures StrippedTo(host, domains, StripTLD(hostport, AfterSwaps(domains, swaps)))
  {
    var sorted := AfterSwaps(domains, swaps);
    if HasSuffix(host, ".xip.io") || HasSuffix(host, ".nip.io") {
      WildcardStrips(host, hostport, sorted);
    } else {
      SortedMatchIsLongest(host, domains, swaps);
      var m := FirstMatch(host, sorted);
      if m.Some? {
        assert LongestDomain(host, domains, m.value);
        DomainStrips(host, m.value, hostport, domains, swaps);
      } else {
        FirstMatchIndex(host, sorted);
        LastLabelStrips(host, hostport, sorted);
      }
    }
  }

  lemma DomainStrips(host: string, d: string, hostport: string, domains: seq<string>, swaps: seq<(nat, nat)>)
    requires ValidSwaps(|domains|, swaps) && Sorted(AfterSwaps(domains, swaps))
    requires HostOf(hostport, host) && LongestDomain(host, domains, d)
    requires !HasSuffix(host, ".xip.io") && !HasSuffix(host, ".nip.io")
    ensures host == StripTLD(hostport, AfterSwaps(domains, swaps)) + "." + d
  {
    EndsWithDomainExactly(host, d);
    var name :| host == name + "." + d;
    StripsLongestDomain(name, d, hostport, domains, swaps);
  }

  lemma LastLabelStrips(host: string, hostport: string, sorted: seq<string>)
    requires HostOf(hostport, host) && forall d :: d in sorted ==> !EndsWithDomain(host, d)
    requires !HasSuffix(host, ".xip.io") && !HasSuffix(host, ".nip.io")
    ensures var labels, name := Split(host, '.'), StripTLD(hostport, sorted);
            if |labels| == 1 then name == host else host == name + "." + labels[|labels| - 1]
  {
    var labels := Split(host, '.');
    JoinSplit(host, '.');
    var last := labels[|labels| - 1];
    if |labels| == 1 {
      StripsUnlisted(host, "", last, hostport, sorted);
    } else {
      JoinCut(labels, |labels| - 1, '.');
      assert labels[|labels| - 1..] == [last];
      var name := Join(labels[..|labels| - 1], '.');
      assert '.' in host by {
        assert host[|name|] == '.';
      }
      StripsUnlisted(host, name, last, hostport, sorted);
    }
  }

  // The empty name comes out exactly when nothing is left before the address.
  lemma WildcardEmpty(host: string)
    ensures StripWildcard(host) == "" <==>
            |Split(host, '.')| <= 6 || (|Split(host, '.')| == 7 && Split(host, '.')[0] == "")
  {
  }
}
