/** The proxy-profile list of src/pages/ProxyProfiles.tsx: the sample
    profiles, the search box filter, and the initially selected profile. */
module ProxyProfiles {
  import opened Text
  import opened Seqs

  /** A proxy profile; the floating-point `uptime` shown by the metrics
      panel is left out. */
  datatype Proxy = Proxy(
    id: int,
    name: string,
    proxyType: string,
    location: string,
    os: string,
    browser: string,
    version: string,
    active: bool,
    responseTime: int,
    ipAddress: string,
    port: int,
    lastUsed: string)

  /** `sampleProxies`. */
  const SampleProxies: seq<Proxy> := [
    Proxy(1, "US Marketing Profile", "HTTP", "New York, US", "Windows", "Chrome", "120", true, 320, "192.168.1.1", 8080, "2023-08-29T14:22:00Z"),
    Proxy(2, "UK Research Team", "SOCKS5", "London, UK", "MacOS", "Firefox", "119", true, 280, "192.168.2.2", 1080, "2023-08-30T09:15:00Z"),
    Proxy(3, "Asia Pacific Sales", "SOCKS4", "Singapore", "Linux", "Chrome", "118", false, 450, "192.168.3.3", 1080, "2023-08-28T11:40:00Z"),
    Proxy(4, "Europe Support", "HTTP", "Berlin, DE", "Windows", "Edge", "120", true, 310, "192.168.4.4", 8080, "2023-08-30T15:10:00Z"),
    Proxy(5, "South America Team", "SOCKS5", "Sao Paulo, BR", "MacOS", "Chrome", "119", false, 520, "192.168.5.5", 1080, "2023-08-27T18:30:00Z")
  ]

  /** `useState(sampleProxies[0])`: the first sample profile starts selected. */
  function InitialSelection(): (p: Proxy)
    ensures p in SampleProxies && p.id == 1
    ensures forall q :: q in SampleProxies ==> p.id <= q.id
  {
    SampleProxies[0]
  }

  /** The filter callback, for a search term `term`. */
  predicate Matches(p: Proxy, term: string) {
    || Contains(Lower(p.name), Lower(term))
    || Contains(Lower(p.location), Lower(term))
    || Contains(Lower(p.proxyType), Lower(term))
  }

  function MatchesTerm(term: string): Proxy -> bool {
    (p: Proxy) => Matches(p, term)
  }

  /** `filteredProxies`. */
  function FilterProxies(proxies: seq<Proxy>, term: string): (r: seq<Proxy>)
    ensures IsSubseq(r, proxies)
    ensures forall p :: p in r <==> p in proxies && Matches(p, term)
    ensures forall p :: multiset(r)[p] == if Matches(p, term) then multiset(proxies)[p] else 0
  {
    FilterIsSubseq(proxies, MatchesTerm(term));
    FilterCounts(proxies, MatchesTerm(term));
    Filter(proxies, MatchesTerm(term))
  }

  /** An empty search term lists every profile. */
  lemma EmptyTermKeepsAll(proxies: seq<Proxy>)
    ensures FilterProxies(proxies, "") == proxies
  {
    forall p | p in proxies ensures Matches(p, "") {
      ContainsEmpty(Lower(p.name));
    }
    FilterKeepsAll(proxies, MatchesTerm(""));
  }

  /** Terms that differ only in letter case list the same profiles. */
  lemma CaseInsensitive(proxies: seq<Proxy>, t1: string, t2: string)
    requires Lower(t1) == Lower(t2)
    ensures FilterProxies(proxies, t1) == FilterProxies(proxies, t2)
  {
    FilterCongruent(proxies, MatchesTerm(t1), MatchesTerm(t2));
  }

  /** A term that is a prefix of a profile's type, in any letter case, finds it. */
  lemma TypePrefixFinds(p: Proxy, term: string)
    requires |term| <= |p.proxyType| && Lower(p.proxyType)[..|term|] == Lower(term)
    ensures Matches(p, term)
  {
    assert OccursAt(Lower(p.proxyType), Lower(term), 0);
  }

  /** "socks" finds every SOCKS4 and SOCKS5 profile. */
  lemma SocksTypesMatch(p: Proxy)
    requires p.proxyType == "SOCKS4" || p.proxyType == "SOCKS5"
    ensures Matches(p, "socks")
  {
    var socks := "socks";
    assert Lower(socks) == socks;
    assert Lower(p.proxyType)[..5] == socks;
    TypePrefixFinds(p, socks);
  }

  /** "socks" finds both the SOCKS4 and the SOCKS5 sample profiles. */
  lemma SocksFindsSocksProfiles()
    ensures SampleProxies[1] in FilterProxies(SampleProxies, "socks")
    ensures SampleProxies[2] in FilterProxies(SampleProxies, "socks")
    ensures SampleProxies[4] in FilterProxies(SampleProxies, "socks")
  {
    var ps := SampleProxies;
    SocksTypesMatch(ps[1]);
    SocksTypesMatch(ps[2]);
    SocksTypesMatch(ps[4]);
    MatchingProfileListed(ps, "socks", 1);
    MatchingProfileListed(ps, "socks", 2);
    MatchingProfileListed(ps, "socks", 4);
  }

  lemma MatchingProfileListed(proxies: seq<Proxy>, term: string, i: int)
    requires 0 <= i < |proxies| && Matches(proxies[i], term)
    ensures proxies[i] in FilterProxies(proxies, term)
  {
  }
}
