/**
 The routing table: two indexes over the running containers, and the decision
 where a request goes.
 */
module Routing {
  import opened Prelude
  import opened Digests
  import opened Texts

  datatype RuntimeConfig = RuntimeConfig(access: Option<map<Text, Text>>)

  datatype PublishedContainer = PublishedContainer(
    hostAddr: Text,
    reference: ManifestReference,
    config: RuntimeConfig)

  datatype RoutingTable = RoutingTable(
    pathMaps: map<ImageLocation, PublishedContainer>,
    domainMaps: map<Text, PublishedContainer>)

  datatype Uri = Uri(path: Text, query: Option<Text>)

  /** What of a request decides its destination; `host` is the header, if there is a readable one. */
  datatype Request = Request(host: Option<Text>, uri: Uri)

  datatype Destination =
    | ReverseProxied(addr: Text, pathAndQuery: Text, scriptName: Option<Text>, config: RuntimeConfig)
    | Internal(uri: Uri)
    | NotFound

  const INTERNAL_PREFIX := "/_rockslide"

  /** A domain is any text with a dot, in lower case. */
  function Domain(raw: Text): Option<Text> {
    if '.' in ToLower(raw) then Some(ToLower(raw)) else None
  }

  function LocationOf(c: PublishedContainer): ImageLocation {
    c.reference.location
  }

  function ShowLocation(location: ImageLocation): Text {
    location.repository + "/" + location.image
  }

  function QueryPart(uri: Uri): Text {
    match uri.query
    case Some(query) => "?" + query
    case None => ""
  }

  // ---------- Building ----------

  const EMPTY_TABLE := RoutingTable(map[], map[])

  function Insert(t: RoutingTable, c: PublishedContainer): RoutingTable {
    RoutingTable(
      t.pathMaps[LocationOf(c) := c],
      match Domain(LocationOf(c).repository)
      case Some(domain) => t.domainMaps[domain := c]
      case None => t.domainMaps)
  }

  function TableOf(containers: seq<PublishedContainer>): RoutingTable {
    if containers == [] then EMPTY_TABLE
    else Insert(TableOf(containers[..|containers| - 1]), containers[|containers| - 1])
  }

  method FromContainers(containers: seq<PublishedContainer>) returns (t: RoutingTable)
    ensures t == TableOf(containers)
  {
    var pathMaps: map<ImageLocation, PublishedContainer> := map[];
    var domainMaps: map<Text, PublishedContainer> := map[];
    for k := 0 to |containers|
      invariant RoutingTable(pathMaps, domainMaps) == TableOf(containers[..k])
    {
      var container := containers[k];
      assert containers[..k + 1][..k] == containers[..k];
      match Domain(LocationOf(container).repository) {
        case Some(domain) => domainMaps := domainMaps[domain := container];
        case None =>
      }
      pathMaps := pathMaps[LocationOf(container) := container];
    }
    assert containers[..|containers|] == containers;
    t := RoutingTable(pathMaps, domainMaps);
  }

  /** Container `i` is the last one at the location. */
  ghost predicate LastAt(cs: seq<PublishedContainer>, location: ImageLocation, i: int) {
    0 <= i < |cs| && LocationOf(cs[i]) == location && forall j | i < j < |cs| :: LocationOf(cs[j]) != location
  }

  lemma DotSurvivesLowering(s: Text)
    ensures '.' in ToLower(s) <==> '.' in s
  {
    if i :| 0 <= i < |s| && s[i] == '.' {
      assert ToLower(s)[i] == '.';
    }
    if i :| 0 <= i < |s| && ToLower(s)[i] == '.' {
      assert s[i] == '.';
    }
  }

  /** The domain is the container's dotted repository with its letters in lower case. */
  predicate Serves(c: PublishedContainer, domain: Text) {
    var repository := LocationOf(c).repository;
    '.' in repository && SameLetters(repository, domain) && NoUpper(domain)
  }

  lemma ServesExactly(c: PublishedContainer, domain: Text)
    ensures Serves(c, domain) <==> Domain(LocationOf(c).repository) == Some(domain)
  {
    hide ToLower, SameLetters, NoUpper;
    LoweredExactly(LocationOf(c).repository, domain);
    DotSurvivesLowering(LocationOf(c).repository);
  }

  /** Container `i` is the last one whose lower-case dotted repository is the domain. */
  ghost predicate LastFor(cs: seq<PublishedContainer>, domain: Text, i: int) {
    0 <= i < |cs| && Serves(cs[i], domain) && forall j | i < j < |cs| :: !Serves(cs[j], domain)
  }

  lemma NothingIndexed()
    ensures TableOf([]) == EMPTY_TABLE
  {
  }

  lemma PathIndexSnoc(cs: seq<PublishedContainer>)
    requires cs != []
    ensures var front, last := cs[..|cs| - 1], cs[|cs| - 1];
            TableOf(cs).pathMaps == TableOf(front).pathMaps[LocationOf(last) := last]
  {
  }

  /** The path index holds, for each location, the last container of the list there. */
  lemma {:induction false} PathIndexHoldsLast(cs: seq<PublishedContainer>, location: ImageLocation)
    ensures location in TableOf(cs).pathMaps <==> exists i :: 0 <= i < |cs| && LocationOf(cs[i]) == location
    ensures location in TableOf(cs).pathMaps ==>
              exists i :: LastAt(cs, location, i) && TableOf(cs).pathMaps[location] == cs[i]
  {
    hide TableOf;
    if cs == [] {
      NothingIndexed();
    } else {
      var front, n := cs[..|cs| - 1], |cs| - 1;
      PathIndexSnoc(cs);
      if LocationOf(cs[n]) == location {
        assert LastAt(cs, location, n);
      } else {
        PathIndexHoldsLast(front, location);
        if location in TableOf(front).pathMaps {
          var i :| LastAt(front, location, i) && TableOf(front).pathMaps[location] == front[i];
          assert LastAt(cs, location, i);
        } else {
          assert forall i | 0 <= i < n :: cs[i] == front[i];
        }
      }
    }
  }

  lemma DomainIndexSnoc(cs: seq<PublishedContainer>, domain: Text)
    requires cs != []
    ensures var front, last := cs[..|cs| - 1], cs[|cs| - 1];
            if Serves(last, domain) then domain in TableOf(cs).domainMaps && TableOf(cs).domainMaps[domain] == last
            else
              (domain in TableOf(cs).domainMaps <==> domain in TableOf(front).domainMaps)
              && (domain in TableOf(cs).domainMaps ==>
                    TableOf(cs).domainMaps[domain] == TableOf(front).domainMaps[domain])
  {
    hide Domain, Serves;
    ServesExactly(cs[|cs| - 1], domain);
  }

  lemma {:induction false} DomainIndexHoldsLast(cs: seq<PublishedContainer>, domain: Text)
    ensures domain in TableOf(cs).domainMaps <==> exists i :: 0 <= i < |cs| && Serves(cs[i], domain)
    ensures domain in TableOf(cs).domainMaps ==>
              exists i :: LastFor(cs, domain, i) && TableOf(cs).domainMaps[domain] == cs[i]
  {
    hide TableOf, Serves;
    if cs == [] {
      NothingIndexed();
    } else {
      var front, n := cs[..|cs| - 1], |cs| - 1;
      DomainIndexSnoc(cs, domain);
      if Serves(cs[n], domain) {
        assert LastFor(cs, domain, n);
      } else {
        DomainIndexHoldsLast(front, domain);
        if domain in TableOf(front).domainMaps {
          var i :| LastFor(front, domain, i) && TableOf(front).domainMaps[domain] == front[i];
          assert LastFor(cs, domain, i);
        } else {
          assert forall i | 0 <= i < n :: cs[i] == front[i];
        }
      }
    }
  }

  /** Whatever the domain index holds, the path index holds at that container's own location. */
  lemma IndexesAgree(cs: seq<PublishedContainer>, domain: Text)
    requires domain in TableOf(cs).domainMaps
    ensures var c := TableOf(cs).domainMaps[domain];
            LocationOf(c) in TableOf(cs).pathMaps && TableOf(cs).pathMaps[LocationOf(c)] == c
  {
    hide TableOf, Domain, SameLetters, NoUpper;
    DomainIndexHoldsLast(cs, domain);
    var i :| LastFor(cs, domain, i) && TableOf(cs).domainMaps[domain] == cs[i];
    var location := LocationOf(cs[i]);
    PathIndexHoldsLast(cs, location);
    var j :| LastAt(cs, location, j) && TableOf(cs).pathMaps[location] == cs[j];
    assert Serves(cs[j], domain);
  }

  ghost predicate AllDistinct(cs: seq<PublishedContainer>) {
    && (forall i, j | 0 <= i < |cs| && 0 <= j < |cs| && LocationOf(cs[i]) == LocationOf(cs[j]) :: cs[i] == cs[j])
    && (forall i, j, domain | 0 <= i < |cs| && 0 <= j < |cs| && Serves(cs[i], domain) && Serves(cs[j], domain) ::
          cs[i] == cs[j])
  }

  lemma PathIndexIgnoresOrder(cs: seq<PublishedContainer>, ds: seq<PublishedContainer>, location: ImageLocation)
    requires AllDistinct(cs) && (forall c :: c in cs <==> c in ds)
    ensures location in TableOf(cs).pathMaps <==> location in TableOf(ds).pathMaps
    ensures location in TableOf(cs).pathMaps ==> TableOf(cs).pathMaps[location] == TableOf(ds).pathMaps[location]
  {
    hide TableOf, Domain;
    PathIndexHoldsLast(cs, location);
    PathIndexHoldsLast(ds, location);
    LocationsCarryOver(cs, ds, location);
    LocationsCarryOver(ds, cs, location);
    if location in TableOf(cs).pathMaps {
      var i :| LastAt(cs, location, i) && TableOf(cs).pathMaps[location] == cs[i];
      var j :| LastAt(ds, location, j) && TableOf(ds).pathMaps[location] == ds[j];
      assert ds[j] in cs;
    }
  }

  lemma DomainIndexIgnoresOrder(cs: seq<PublishedContainer>, ds: seq<PublishedContainer>, domain: Text)
    requires AllDistinct(cs) && (forall c :: c in cs <==> c in ds)
    ensures domain in TableOf(cs).domainMaps <==> domain in TableOf(ds).domainMaps
    ensures domain in TableOf(cs).domainMaps ==> TableOf(cs).domainMaps[domain] == TableOf(ds).domainMaps[domain]
  {
    hide TableOf, Domain, SameLetters, NoUpper;
    DomainIndexHoldsLast(cs, domain);
    DomainIndexHoldsLast(ds, domain);
    DomainsCarryOver(cs, ds, domain);
    DomainsCarryOver(ds, cs, domain);
    if domain in TableOf(cs).domainMaps {
      var i :| LastFor(cs, domain, i) && TableOf(cs).domainMaps[domain] == cs[i];
      var j :| LastFor(ds, domain, j) && TableOf(ds).domainMaps[domain] == ds[j];
      assert ds[j] in cs;
    }
  }

  /** With distinct locations and domains only the set of containers matters, not their order. */
  lemma TableIgnoresOrder(cs: seq<PublishedContainer>, ds: seq<PublishedContainer>)
    requires AllDistinct(cs) && (forall c :: c in cs <==> c in ds)
    ensures TableOf(cs) == TableOf(ds)
  {
    hide TableOf, AllDistinct;
    var s, t := TableOf(cs), TableOf(ds);
    forall location
      ensures location in s.pathMaps <==> location in t.pathMaps
      ensures location in s.pathMaps ==> s.pathMaps[location] == t.pathMaps[location]
    {
      PathIndexIgnoresOrder(cs, ds, location);
    }
    forall domain
      ensures domain in s.domainMaps <==> domain in t.domainMaps
      ensures domain in s.domainMaps ==> s.domainMaps[domain] == t.domainMaps[domain]
    {
      DomainIndexIgnoresOrder(cs, ds, domain);
    }
    assert s.pathMaps == t.pathMaps && s.domainMaps == t.domainMaps;
  }

  lemma LocationsCarryOver(cs: seq<PublishedContainer>, ds: seq<PublishedContainer>, location: ImageLocation)
    requires forall c :: c in cs ==> c in ds
    ensures (exists i :: 0 <= i < |cs| && LocationOf(cs[i]) == location)
            ==> exists i :: 0 <= i < |ds| && LocationOf(ds[i]) == location
  {
    if i :| 0 <= i < |cs| && LocationOf(cs[i]) == location {
      assert cs[i] in ds;
    }
  }

  lemma DomainsCarryOver(cs: seq<PublishedContainer>, ds: seq<PublishedContainer>, domain: Text)
    requires forall c :: c in cs ==> c in ds
    ensures (exists i :: 0 <= i < |cs| && Serves(cs[i], domain)) ==> exists i :: 0 <= i < |ds| && Serves(ds[i], domain)
  {
    if i :| 0 <= i < |cs| && Serves(cs[i], domain) {
      assert cs[i] in ds;
    }
  }

  // ---------- Deciding ----------

  /** The host without what follows its last colon. */
  function WithoutPort(host: Text): Text {
    match LastIndexOf(host, ':')
    case Some(colon) => host[..colon]
    case None => host
  }

  function HostDomain(request: Request): Option<Text> {
    match request.host
    case Some(host) => Domain(WithoutPort(host))
    case None => None
  }

  /** The location in a path's first two segments, and the path after them. */
  function SplitPath(path: Text): Option<(ImageLocation, Text)> {
    var segments := Segments(path);
    if |segments| < 2 then None
    else Some((ImageLocation(segments[0], segments[1]), Slashed(segments[2..])))
  }

  lemma {:induction false} SlashedSnoc(segments: seq<Text>, last: Text)
    ensures Slashed(segments + [last]) == Slashed(segments) + "/" + last
  {
    if segments == [] {
      assert [last][1..] == [];
    } else {
      assert (segments + [last])[1..] == segments[1..] + [last];
      SlashedSnoc(segments[1..], last);
    }
  }

  method SplitPathBaseUrl(uri: Uri) returns (r: Option<(ImageLocation, Text)>)
    ensures r == SplitPath(uri.path)
  {
    hide Segments;
    var segments := Segments(uri.path);
    if |segments| < 2 {
      return None;
    }
    var remainder := "";
    var rest := segments[2..];
    assert rest[..0] == [];
    for k := 0 to |rest|
      invariant remainder == Slashed(rest[..k])
    {
      SlashedSnoc(rest[..k], rest[k]);
      assert rest[..k + 1] == rest[..k] + [rest[k]];
      remainder := remainder + "/";
      remainder := remainder + rest[k];
    }
    assert rest[..|rest|] == rest;
    r := Some((ImageLocation(segments[0], segments[1]), remainder));
  }

  function Route(t: RoutingTable, request: Request): Destination {
    var uri := request.uri;
    var domain := HostDomain(request);
    if domain.Some? && domain.value in t.domainMaps then
      var c := t.domainMaps[domain.value];
      ReverseProxied(c.hostAddr, uri.path + QueryPart(uri), None, c.config)
    else if StartsWith(uri.path, INTERNAL_PREFIX) then Internal(uri)
    else
      match SplitPath(uri.path)
      case Some((location, remainder)) =>
        if location in t.pathMaps then
          var c := t.pathMaps[location];
          ReverseProxied(c.hostAddr, remainder + Tail(uri.path) + QueryPart(uri), Some("/" + ShowLocation(location)), c.config)
        else NotFound
      case None => NotFound
  }

  method GetDestination(t: RoutingTable, request: Request) returns (d: Destination)
    ensures d == Route(t, request)
  {
    hide Domain, SplitPath, ShowLocation, LastIndexOf;
    var uri := request.uri;
    var domain: Option<Text> := None;
    match request.host {
      case Some(host) =>
        var colon := LastIndexOf(host, ':');
        var candidate := if colon.Some? then host[..colon.value] else host;
        domain := Domain(candidate);
      case None =>
    }
    if domain.Some? && domain.value in t.domainMaps {
      var c := t.domainMaps[domain.value];
      return ReverseProxied(c.hostAddr, uri.path + QueryPart(uri), None, c.config);
    }
    if StartsWith(uri.path, INTERNAL_PREFIX) {
      return Internal(uri);
    }
    var split := SplitPathBaseUrl(uri);
    if split.Some? && split.value.0 in t.pathMaps {
      var c := t.pathMaps[split.value.0];
      var pathAndQuery := split.value.1;
      if EndsWithSlash(uri.path) {
        pathAndQuery := pathAndQuery + "/";
      }
      match uri.query {
        case Some(query) =>
          pathAndQuery := pathAndQuery + "?";
          pathAndQuery := pathAndQuery + query;
        case None =>
      }
      return ReverseProxied(c.hostAddr, pathAndQuery, Some("/" + ShowLocation(split.value.0)), c.config);
    }
    d := NotFound;
  }

  // ---------- Deciding on the list directly ----------

  /** The name in a host header ends at its last colon, or with it if it has none. */
  predicate NameEndsAt(host: Text, n: nat) {
    n <= |host| && if n == |host| then ':' !in host else host[n] == ':' && ':' !in host[n + 1..]
  }

  /** The host header names the container's repository, which has a dot, up to letter case and port. */
  ghost predicate NamedByHost(c: PublishedContainer, request: Request) {
    && request.host.Some?
    && '.' in LocationOf(c).repository
    && exists n: nat :: NameEndsAt(request.host.value, n)
                        && SameLetters(LocationOf(c).repository, request.host.value[..n])
  }

  /** A path with the query of a request, if it has one, after a question mark. */
  predicate HasQuery(pathAndQuery: Text, path: Text, uri: Uri) {
    match uri.query
    case Some(query) => pathAndQuery == path + "?" + query
    case None => pathAndQuery == path
  }

  lemma QueryIsKept(path: Text, uri: Uri)
    ensures HasQuery(path + QueryPart(uri), path, uri)
  {
    assert path + "" == path;
    if uri.query.Some? {
      assert path + ("?" + uri.query.value) == path + "?" + uri.query.value;
    }
  }

  predicate GoesTo(d: Destination, c: PublishedContainer, path: Text, uri: Uri, scriptName: Option<Text>) {
    && d.ReverseProxied? && d.addr == c.hostAddr && d.config == c.config && d.scriptName == scriptName
    && HasQuery(d.pathAndQuery, path, uri)
  }

  predicate NamedByPath(c: PublishedContainer, request: Request) {
    var segments := Segments(request.uri.path);
    |segments| >= 2 && LocationOf(c).repository == segments[0] && LocationOf(c).image == segments[1]
  }

  /** The destination a scan of the list gives: by host, else internal, else by path; the last match wins. */
  ghost predicate DecidedByScan(cs: seq<PublishedContainer>, request: Request, d: Destination) {
    var uri := request.uri;
    if exists i :: 0 <= i < |cs| && NamedByHost(cs[i], request) then
      exists i :: && 0 <= i < |cs| && NamedByHost(cs[i], request)
                  && (forall j | i < j < |cs| :: !NamedByHost(cs[j], request))
                  && GoesTo(d, cs[i], uri.path, uri, None)
    else if "/_rockslide" <= uri.path then d == Internal(uri)
    else if exists i :: 0 <= i < |cs| && NamedByPath(cs[i], request) then
      exists i :: && 0 <= i < |cs| && NamedByPath(cs[i], request)
                  && (forall j | i < j < |cs| :: !NamedByPath(cs[j], request))
                  && GoesTo(d, cs[i], Slashed(Segments(uri.path)[2..]) + Tail(uri.path), uri,
                            Some("/" + LocationOf(cs[i]).repository + "/" + LocationOf(cs[i]).image))
    else d == NotFound
  }

  lemma HostNameEnds(host: Text, n: nat)
    ensures NameEndsAt(host, n) <==> n <= |host| && WithoutPort(host) == host[..n]
  {
    hide LastIndexOf;
    if ':' in host {
      var i := LastIndexOf(host, ':').value;
      assert host[i] == ':' && ':' !in host[i + 1..];
      if NameEndsAt(host, n) {
        assert forall k | n < k < |host| :: host[k] == host[n + 1..][k - n - 1];
        LastIndexIs(host, ':', n);
      }
      assert n <= |host| && host[..n] == host[..i] ==> |host[..n]| == |host[..i]|;
    } else {
      assert host[..|host|] == host;
      assert n < |host| ==> host[n] in host;
      assert n <= |host| && host[..n] == host ==> |host[..n]| == |host|;
    }
  }

  lemma HostMatchIsServing(c: PublishedContainer, request: Request)
    ensures NamedByHost(c, request) <==> HostDomain(request).Some? && Serves(c, HostDomain(request).value)
  {
    hide ToLower, SameLetters, NoUpper, WithoutPort, NameEndsAt;
    if request.host.Some? {
      var host, repository := request.host.value, LocationOf(c).repository;
      var name := WithoutPort(host);
      var n := |name|;
      NameIsFront(host);
      HostNameEnds(host, n);
      forall k: nat | NameEndsAt(host, k)
        ensures k <= |host| && host[..k] == name
      {
        HostNameEnds(host, k);
      }
      DotSurvivesLowering(name);
      DotSurvivesLowering(repository);
      LoweringIgnoresCase(repository, name);
      ServesExactly(c, ToLower(name));
    }
  }

  lemma NameIsFront(host: Text)
    ensures |WithoutPort(host)| <= |host| && WithoutPort(host) == host[..|WithoutPort(host)|]
  {
  }

  lemma DomainRouteGoes(t: RoutingTable, request: Request, domain: Text)
    requires HostDomain(request) == Some(domain) && domain in t.domainMaps
    ensures GoesTo(Route(t, request), t.domainMaps[domain], request.uri.path, request.uri, None)
  {
    hide HostDomain, QueryPart, HasQuery, SplitPath, Tail;
    QueryIsKept(request.uri.path, request.uri);
  }

  lemma PathRouteGoes(t: RoutingTable, request: Request, location: ImageLocation)
    requires HostDomain(request).Some? ==> HostDomain(request).value !in t.domainMaps
    requires !StartsWith(request.uri.path, INTERNAL_PREFIX) && |Segments(request.uri.path)| >= 2
    requires location == ImageLocation(Segments(request.uri.path)[0], Segments(request.uri.path)[1])
    ensures var segments := Segments(request.uri.path);
            if location in t.pathMaps then
              GoesTo(Route(t, request), t.pathMaps[location], Slashed(segments[2..]) + Tail(request.uri.path), request.uri,
                     Some("/" + location.repository + "/" + location.image))
            else Route(t, request) == NotFound
  {
    hide HostDomain, QueryPart, HasQuery, Segments, Slashed, Tail, StartsWith;
    QueryIsKept(Slashed(Segments(request.uri.path)[2..]) + Tail(request.uri.path), request.uri);
    assert "/" + ShowLocation(location) == "/" + location.repository + "/" + location.image;
  }

  /** A path that begins with the internal prefix is handled inside, whatever is published by path. */
  lemma InternalPathsStay(t: RoutingTable, uri: Uri)
    requires "/_rockslide" <= uri.path
    ensures Route(t, Request(None, uri)) == Internal(uri)
  {
    hide QueryPart, Segments, Slashed, Tail;
  }

  lemma OtherRoutes(t: RoutingTable, request: Request)
    requires HostDomain(request).Some? ==> HostDomain(request).value !in t.domainMaps
    ensures StartsWith(request.uri.path, INTERNAL_PREFIX) ==> Route(t, request) == Internal(request.uri)
    ensures !StartsWith(request.uri.path, INTERNAL_PREFIX) && |Segments(request.uri.path)| < 2 ==>
              Route(t, request) == NotFound
  {
    hide HostDomain, QueryPart, Segments, Slashed, Tail, StartsWith;
  }

  /** Routing through the built table is deciding on the container list. */
  lemma RoutingIsScanning(cs: seq<PublishedContainer>, request: Request)
    ensures DecidedByScan(cs, request, Route(TableOf(cs), request))
  {
    hide TableOf, Domain, Serves, NamedByHost, HostDomain, Segments, Slashed, Tail, QueryPart, GoesTo, Route;
    forall c
      ensures NamedByHost(c, request) <==> HostDomain(request).Some? && Serves(c, HostDomain(request).value)
    {
      HostMatchIsServing(c, request);
    }
    var domain := HostDomain(request);
    if domain.Some? {
      DomainIndexHoldsLast(cs, domain.value);
    }
    var segments := Segments(request.uri.path);
    if domain.Some? && domain.value in TableOf(cs).domainMaps {
      DomainRouteGoes(TableOf(cs), request, domain.value);
      var i :| LastFor(cs, domain.value, i) && TableOf(cs).domainMaps[domain.value] == cs[i];
      assert NamedByHost(cs[i], request);
    } else {
      OtherRoutes(TableOf(cs), request);
      if !StartsWith(request.uri.path, INTERNAL_PREFIX) && |segments| >= 2 {
        var location := ImageLocation(segments[0], segments[1]);
        PathIndexHoldsLast(cs, location);
        PathRouteGoes(TableOf(cs), request, location);
        forall i | 0 <= i < |cs|
          ensures NamedByPath(cs[i], request) <==> LocationOf(cs[i]) == location
        {
        }
        if location in TableOf(cs).pathMaps {
          var i :| LastAt(cs, location, i) && TableOf(cs).pathMaps[location] == cs[i];
          assert NamedByPath(cs[i], request);
        }
      }
    }
  }

  lemma LastColonSplits(host: Text, port: Text)
    requires ':' !in port
    ensures WithoutPort(host + ":" + port) == host
  {
    var full := host + ":" + port;
    assert full[|host|] == ':';
    assert forall i | |host| < i < |full| :: full[i] == port[i - |host| - 1];
    var colon := LastIndexOf(full, ':').value;
    assert colon == |host|;
    assert full[..|host|] == host;
  }

  /** The letter case of the host changes nothing, whatever the host. */
  lemma CaseDoesNotMatter(t: RoutingTable, uri: Uri, host: Text, otherCase: Text)
    requires SameLetters(otherCase, host)
    ensures Route(t, Request(Some(otherCase), uri)) == Route(t, Request(Some(host), uri))
  {
    LoweringIgnoresCase(otherCase, host);
    ColonsMatch(host, otherCase);
    SameDomainSameRoute(t, uri, otherCase, host);
  }

  lemma ColonsMatch(host: Text, otherCase: Text)
    requires ToLower(otherCase) == ToLower(host)
    ensures Domain(WithoutPort(otherCase)) == Domain(WithoutPort(host))
  {
    hide ToLower, WithoutPort;
    SameColons(host, otherCase);
    var n := SameFront(host, otherCase);
    LoweredFront(host, n);
    LoweredFront(otherCase, n);
  }

  lemma SameColons(host: Text, otherCase: Text)
    requires ToLower(otherCase) == ToLower(host)
    ensures |host| == |otherCase| && forall i | 0 <= i < |host| :: host[i] == ':' <==> otherCase[i] == ':'
  {
    hide ToLower, LowerChar;
    assert |ToLower(host)| == |host| && |ToLower(otherCase)| == |otherCase|;
    forall i | 0 <= i < |host|
      ensures host[i] == ':' <==> otherCase[i] == ':'
    {
      LowerColon(host[i]);
      LowerColon(otherCase[i]);
      assert ToLower(host)[i] == ToLower(otherCase)[i];
    }
  }

  lemma LowerColon(c: char)
    ensures LowerChar(c) == ':' <==> c == ':'
  {
  }

  /** Texts with colons at the same places are cut at the same place. */
  lemma SameFront(a: Text, b: Text) returns (n: nat)
    requires |a| == |b| && forall i | 0 <= i < |a| :: a[i] == ':' <==> b[i] == ':'
    ensures n <= |a| && WithoutPort(a) == a[..n] && WithoutPort(b) == b[..n]
  {
    hide LastIndexOf;
    if ':' in a {
      var i := LastIndexOf(a, ':').value;
      assert forall k | i < k < |a| :: a[k] == a[i + 1..][k - i - 1];
      LastIndexIs(b, ':', i);
      n := i;
    } else {
      assert forall i | 0 <= i < |b| :: a[i] in a;
      assert LastIndexOf(a, ':') == None == LastIndexOf(b, ':');
      n := |a|;
    }
  }

  lemma LoweredFront(s: Text, n: nat)
    requires n <= |s|
    ensures ToLower(s[..n]) == ToLower(s)[..n]
  {
  }

  const ANY_CONTAINER :=
    PublishedContainer("", ManifestReference(ImageLocation("", ""), Tag("")), RuntimeConfig(None))

  /**
   A port after the host changes nothing for any table and request, exactly when the host names the
   same domain with and without what follows its own last colon.
   */
  lemma PortMattersExactly(host: Text, port: Text)
    requires ':' !in port
    ensures (forall t, uri :: Route(t, Request(Some(host + ":" + port), uri)) == Route(t, Request(Some(host), uri)))
            <==> Domain(WithoutPort(host)) == Domain(host)
  {
    LastColonSplits(host, port);
    var long, short := Domain(host), Domain(WithoutPort(host));
    if long == short {
      forall t, uri
        ensures Route(t, Request(Some(host + ":" + port), uri)) == Route(t, Request(Some(host), uri))
      {
        SameDomainSameRoute(t, uri, host + ":" + port, host);
      }
    } else {
      DotInFront(host);
      var domain := long.value;
      var t, uri := RoutingTable(map[], map[domain := ANY_CONTAINER]), Uri("/", None);
      OneDomainRoutes(domain, Request(Some(host + ":" + port), uri));
      OneDomainRoutes(domain, Request(Some(host), uri));
      assert Route(t, Request(Some(host + ":" + port), uri)) != Route(t, Request(Some(host), uri));
    }
  }

  lemma DotInFront(host: Text)
    ensures Domain(WithoutPort(host)).Some? ==> Domain(host).Some?
  {
    DotSurvivesLowering(host);
    DotSurvivesLowering(WithoutPort(host));
  }

  lemma OneDomainRoutes(domain: Text, request: Request)
    ensures Route(RoutingTable(map[], map[domain := ANY_CONTAINER]), request).ReverseProxied?
            <==> HostDomain(request) == Some(domain)
  {
    hide Domain, SplitPath, QueryPart, Tail;
  }

  /** So a port on a host without a colon, and the letter case of the host, change nothing. */
  lemma PortAndCaseDoNotMatter(t: RoutingTable, uri: Uri, host: Text, port: Text, otherCase: Text)
    requires ':' !in host && ':' !in port && SameLetters(otherCase, host)
    ensures Route(t, Request(Some(host + ":" + port), uri)) == Route(t, Request(Some(host), uri))
    ensures Route(t, Request(Some(otherCase), uri)) == Route(t, Request(Some(host), uri))
  {
    PortMattersExactly(host, port);
    assert WithoutPort(host) == host;
    CaseDoesNotMatter(t, uri, host, otherCase);
  }

  lemma SameDomainSameRoute(t: RoutingTable, uri: Uri, a: Text, b: Text)
    requires Domain(WithoutPort(a)) == Domain(WithoutPort(b))
    ensures Route(t, Request(Some(a), uri)) == Route(t, Request(Some(b), uri))
  {
    hide Domain, WithoutPort, SplitPath, QueryPart, Tail;
  }

  // ---------- Path rewriting ----------

  /** The path a request routed by path is forwarded under. */
  function Forwarded(path: Text): Text
    requires |Segments(path)| >= 2
  {
    Slashed(Segments(path)[2..]) + Tail(path)
  }

  function ScriptName(path: Text): Text
    requires |Segments(path)| >= 2
  {
    "/" + ShowLocation(ImageLocation(Segments(path)[0], Segments(path)[1]))
  }

  lemma SlashedFirstTwo(segments: seq<Text>)
    requires |segments| >= 2
    ensures Slashed(segments) == "/" + ShowLocation(ImageLocation(segments[0], segments[1])) + Slashed(segments[2..])
  {
    var a, b, rest := segments[0], segments[1], Slashed(segments[2..]);
    assert segments[1..][1..] == segments[2..] && segments[1..][0] == b;
    assert Slashed(segments[1..]) == "/" + b + rest;
    assert Slashed(segments) == "/" + a + ("/" + b + rest);
    RegroupTwo(a, b, rest);
  }

  lemma RegroupTwo(a: Text, b: Text, rest: Text)
    ensures "/" + a + ("/" + b + rest) == "/" + (a + "/" + b) + rest
  {
  }

  lemma SuffixHasNoDoubleSlash(front: Text, back: Text)
    requires NoDoubleSlash(front + back)
    ensures NoDoubleSlash(back)
  {
    forall i | 0 <= i < |back| - 1
      ensures !(back[i] == '/' && back[i + 1] == '/')
    {
      assert (front + back)[|front| + i] == back[i] && (front + back)[|front| + i + 1] == back[i + 1];
    }
  }

  /** The script name and the forwarded path put together are the request path, runs of slashes collapsed. */
  lemma RewritingIsExact(path: Text)
    requires StartsWith(path, "/") && |Segments(path)| >= 2
    ensures ScriptName(path) + Forwarded(path) == Collapse(path)
    ensures Segments(Forwarded(path)) == Segments(path)[2..]
    ensures EndsWithSlash(Forwarded(path)) <==> EndsWithSlash(path)
    ensures NoDoubleSlash(Forwarded(path))
  {
    hide Segments, Collapse, Split, NonEmpty, Slashed, NoDoubleSlash, ShowLocation;
    var segments := Segments(path);
    SlashedFirstTwo(segments);
    CollapseIsSlashed(path);
    assert [] + Collapse(path) == Collapse(path);
    assert ScriptName(path) + Forwarded(path) == Slashed(segments) + Tail(path);
    SegmentsOfSlashed(segments[2..], Tail(path));
    SlashedEndsInSegment(segments[2..]);
    CollapseHasNoDoubleSlash(path);
    SuffixHasNoDoubleSlash(ScriptName(path), Forwarded(path));
  }

  /** For every table and request routed by path, the destination carries exactly that rewriting and the query. */
  lemma PathRoutingRewrites(t: RoutingTable, request: Request)
    requires Route(t, request).ReverseProxied? && Route(t, request).scriptName.Some?
    requires StartsWith(request.uri.path, "/")
    ensures var d, path := Route(t, request), request.uri.path;
            && |Segments(path)| >= 2
            && d.scriptName == Some(ScriptName(path))
            && HasQuery(d.pathAndQuery, Forwarded(path), request.uri)
            && HasQuery(d.scriptName.value + d.pathAndQuery, Collapse(path), request.uri)
  {
    hide Segments, Collapse, Split, NonEmpty, Slashed, QueryPart, Tail, HostDomain, NoDoubleSlash, HasQuery;
    var path := request.uri.path;
    RewritingIsExact(path);
    QueryIsKept(Forwarded(path), request.uri);
    QueryIsKept(Collapse(path), request.uri);
    assert Route(t, request).pathAndQuery == Forwarded(path) + QueryPart(request.uri);
    assert ScriptName(path) + (Forwarded(path) + QueryPart(request.uri)) == Collapse(path) + QueryPart(request.uri);
  }

  /** How a destination shows a path when it is printed: an empty one as the root. */
  function Shown(path: Text): Text {
    if path == "" then "/" else path
  }

  /** The same for a path with its query. */
  function ShownUri(pathAndQuery: Text): Text {
    if pathAndQuery == "" || pathAndQuery[0] == '?' then "/" + pathAndQuery else pathAndQuery
  }

  /**
   The path in the text of the destination: put behind the script name it is the collapsed request path
   exactly when the request goes below its location or ends in a slash. For a bare location a slash is added.
   */
  lemma ShownPathExactly(path: Text)
    requires StartsWith(path, "/") && |Segments(path)| >= 2
    ensures ScriptName(path) + Shown(Forwarded(path)) == Collapse(path) <==> |Segments(path)| > 2 || EndsWithSlash(path)
    ensures EndsWithSlash(Shown(Forwarded(path))) <==> |Segments(path)| == 2 || EndsWithSlash(path)
    ensures Segments(Shown(Forwarded(path))) == Segments(path)[2..]
    ensures NoDoubleSlash(Shown(Forwarded(path)))
  {
    hide Segments, Collapse, NoDoubleSlash, ShowLocation, ScriptName;
    RewritingIsExact(path);
    var rest := Segments(path)[2..];
    if rest == [] {
      TailHasNoSegment("");
      TailHasNoSegment("/");
      SlashIsSingle();
      assert Forwarded(path) == Tail(path);
    } else {
      assert Slashed(rest) != "";
      assert Forwarded(path) != "";
    }
  }

  lemma SlashIsSingle()
    ensures NoDoubleSlash("/")
  {
  }

  /** For every request routed by path, the text of the destination has that path and the query. */
  lemma PathRoutingShows(t: RoutingTable, request: Request)
    requires Route(t, request).ReverseProxied? && Route(t, request).scriptName.Some?
    requires StartsWith(request.uri.path, "/")
    ensures |Segments(request.uri.path)| >= 2
    ensures HasQuery(ShownUri(Route(t, request).pathAndQuery), Shown(Forwarded(request.uri.path)), request.uri)
  {
    hide Segments, Route, HostDomain, ScriptName, Collapse;
    var path := request.uri.path;
    PathRoutingRewrites(t, request);
    assert Forwarded(path) != "" ==> Forwarded(path)[0] == '/' by {
      if Segments(path)[2..] == [] {
        assert Forwarded(path) == Tail(path);
      } else {
        assert Slashed(Segments(path)[2..])[0] == '/';
      }
    }
  }

  // ---------- Dot segments ----------

  /** A dot, or its percent-encoding in either letter case. */
  predicate IsDot(segment: Text) {
    segment == "." || segment == "%2e" || segment == "%2E"
  }

  predicate IsDoubleDot(segment: Text) {
    (|segment| >= 1 && segment[0] == '.' && IsDot(segment[1..]))
    || (|segment| >= 3 && IsDot(segment[..3]) && IsDot(segment[3..]))
  }

  predicate IsDots(segment: Text) {
    IsDot(segment) || IsDoubleDot(segment)
  }

  /** Dot segments taken out of a path, each double one with the segment before it. */
  function WithoutDots(before: seq<Text>, segments: seq<Text>): seq<Text>
    decreases |segments|
  {
    if segments == [] then before
    else if IsDot(segments[0]) then WithoutDots(before, segments[1..])
    else if IsDoubleDot(segments[0]) then
      WithoutDots(if before == [] then [] else before[..|before| - 1], segments[1..])
    else WithoutDots(before + [segments[0]], segments[1..])
  }

  predicate HasDots(segments: seq<Text>) {
    exists i :: 0 <= i < |segments| && IsDots(segments[i])
  }

  /** A path as section 5.2.4 of RFC 3986 resolves it, for the encoded spellings too; a final dot leaves a slash. */
  function Resolved(path: Text): Text {
    var segments := Segments(path);
    var tail := if EndsWithSlash(path) || (segments != [] && IsDots(segments[|segments| - 1])) then "/" else "";
    Shown(Slashed(WithoutDots([], segments)) + tail)
  }

  lemma {:induction false} NoDotsAreLeft(before: seq<Text>, segments: seq<Text>)
    requires !HasDots(before)
    ensures !HasDots(WithoutDots(before, segments))
    decreases |segments|
  {
    hide IsDots;
    if segments != [] {
      if !IsDots(segments[0]) {
        NotDots(segments[0]);
        NoDotsAreLeft(before + [segments[0]], segments[1..]);
      } else {
        DotsAreOne(segments[0]);
        NoDotsAreLeft(before, segments[1..]);
        NoDotsAreLeft(if before == [] then [] else before[..|before| - 1], segments[1..]);
      }
    }
  }

  lemma NotDots(segment: Text)
    requires !IsDots(segment)
    ensures !IsDot(segment) && !IsDoubleDot(segment)
  {
  }

  lemma DotsAreOne(segment: Text)
    requires IsDots(segment)
    ensures IsDot(segment) || IsDoubleDot(segment)
  {
  }

  lemma {:induction false} NothingToTakeOut(before: seq<Text>, segments: seq<Text>)
    requires !HasDots(segments)
    ensures WithoutDots(before, segments) == before + segments
    decreases |segments|
  {
    hide IsDots;
    if segments == [] {
      assert before + [] == before;
    } else {
      assert !IsDots(segments[0]);
      NotDots(segments[0]);
      assert !HasDots(segments[1..]);
      NothingToTakeOut(before + [segments[0]], segments[1..]);
      assert before + [segments[0]] + segments[1..] == before + segments;
    }
  }

  /** Taking dot segments out leaves a path as it is exactly when it has none. */
  lemma WithoutDotsExactly(segments: seq<Text>)
    ensures WithoutDots([], segments) == segments <==> !HasDots(segments)
  {
    NoDotsAreLeft([], segments);
    if !HasDots(segments) {
      NothingToTakeOut([], segments);
      assert [] + segments == segments;
    }
  }

  lemma {:induction false} SegmentsStaySegments(before: seq<Text>, segments: seq<Text>)
    requires forall i | 0 <= i < |before| :: IsSegment(before[i])
    requires forall i | 0 <= i < |segments| :: IsSegment(segments[i])
    ensures forall i | 0 <= i < |WithoutDots(before, segments)| :: IsSegment(WithoutDots(before, segments)[i])
    decreases |segments|
  {
    hide IsSegment, IsDot, IsDoubleDot;
    if segments != [] {
      SegmentsStaySegments(before, segments[1..]);
      SegmentsStaySegments(if before == [] then [] else before[..|before| - 1], segments[1..]);
      SegmentsStaySegments(before + [segments[0]], segments[1..]);
    }
  }

  lemma SegmentsOfResolved(path: Text)
    ensures Segments(Resolved(path)) == WithoutDots([], Segments(path))
  {
    hide Segments, IsDots, WithoutDots;
    var segments := Segments(path);
    var kept := WithoutDots([], segments);
    var tail := if EndsWithSlash(path) || (segments != [] && IsDots(segments[|segments| - 1])) then "/" else "";
    SegmentsStaySegments([], segments);
    SegmentsOfSlashed(kept, tail);
    if Slashed(kept) + tail == "" {
      TailHasNoSegment("/");
      TailHasNoSegment("");
    }
  }

  /**
   A recipient that resolves dot segments sees, of the path in the destination, the segments that follow the
   location exactly when none of them is a dot segment. Put behind the script name it then is the collapsed
   request path, if also the request goes below its location or ends in a slash; and never otherwise.
   */
  lemma ResolvedPathExactly(path: Text)
    requires StartsWith(path, "/") && |Segments(path)| >= 2
    ensures Segments(Resolved(Forwarded(path))) == Segments(path)[2..] <==> !HasDots(Segments(path)[2..])
    ensures ScriptName(path) + Resolved(Forwarded(path)) == Collapse(path)
            <==> !HasDots(Segments(path)[2..]) && (|Segments(path)| > 2 || EndsWithSlash(path))
  {
    hide Segments, Collapse, HasDots, WithoutDots, NoDoubleSlash, Shown, Slashed, Forwarded, ScriptName, Resolved;
    var rest := Segments(path)[2..];
    RewritingIsExact(path);
    ShownPathExactly(path);
    SegmentsOfResolved(Forwarded(path));
    WithoutDotsExactly(rest);
    if HasDots(rest) {
      ScriptThenResolved(path);
    } else {
      ResolvedIsShown(path);
    }
  }

  lemma ResolvedIsShown(path: Text)
    requires StartsWith(path, "/") && |Segments(path)| >= 2 && !HasDots(Segments(path)[2..])
    ensures Resolved(Forwarded(path)) == Shown(Forwarded(path))
  {
    hide Segments, Collapse, WithoutDots, NoDoubleSlash, Shown, Slashed, ScriptName, IsDots, EndsWithSlash;
    var rest := Segments(path)[2..];
    RewritingIsExact(path);
    WithoutDotsExactly(rest);
    assert rest != [] ==> !IsDots(rest[|rest| - 1]);
  }

  lemma ScriptThenResolved(path: Text)
    requires StartsWith(path, "/") && |Segments(path)| >= 2 && HasDots(Segments(path)[2..])
    ensures ScriptName(path) + Resolved(Forwarded(path)) != Collapse(path)
  {
    hide Segments, HasDots, WithoutDots, NoDoubleSlash, Shown, Slashed, Forwarded, Resolved, ShowLocation;
    var segments, shown := Segments(path), Resolved(Forwarded(path));
    RewritingIsExact(path);
    SegmentsOfResolved(Forwarded(path));
    WithoutDotsExactly(segments[2..]);
    ResolvedStartsWithSlash(Forwarded(path));
    SegmentsBelow(ImageLocation(segments[0], segments[1]), shown);
    SegmentsOfBelow(ImageLocation(segments[0], segments[1]), shown);
    SegmentsOfCollapsed(path);
    assert segments == [segments[0], segments[1]] + segments[2..];
    assert ([segments[0], segments[1]] + Segments(shown))[2..] == Segments(shown);
  }

  lemma ResolvedStartsWithSlash(path: Text)
    ensures Resolved(path) != "" && Resolved(path)[0] == '/'
  {
    hide Segments, WithoutDots, IsDots;
    var kept := WithoutDots([], Segments(path));
    if kept != [] {
      assert Slashed(kept)[0] == '/';
    }
  }

  lemma SegmentsOfBelow(location: ImageLocation, rest: Text)
    requires IsSegment(location.repository) && IsSegment(location.image) && (rest == "" || rest[0] == '/')
    ensures Segments("/" + ShowLocation(location) + rest)
            == [location.repository, location.image] + Segments(rest)
  {
    hide Segments, Split, NonEmpty;
    var r, i := location.repository, location.image;
    var afterImage := i + rest;
    var afterRepository := "/" + afterImage;
    assert "/" + ShowLocation(location) + rest == "/" + (r + afterRepository);
    SplitSlash(r + afterRepository);
    SplitSlash(afterImage);
    assert Split(afterRepository)[0] == [];
    SegmentThenRest(r, afterRepository);
    RestStartsEmpty(rest);
    SegmentThenRest(i, rest);
    assert [r] + ([i] + Segments(rest)) == [r, i] + Segments(rest);
  }

  /** Collapsing slashes keeps the segments. */
  lemma SegmentsOfCollapsed(path: Text)
    requires StartsWith(path, "/")
    ensures Segments(Collapse(path)) == Segments(path)
  {
    hide Segments, Collapse, Slashed;
    CollapseIsSlashed(path);
    assert [] + Collapse(path) == Collapse(path);
    SegmentsOfSlashed(Segments(path), Tail(path));
  }

  lemma DottedSlashed()
    ensures Slashed(["foo", "bar", "..", "x"]) == "/foo/bar/../x" && Slashed(["..", "x"]) == "/../x"
            && Slashed(["x"]) == "/x"
  {
    assert ["foo", "bar", "..", "x"][1..] == ["bar", "..", "x"] && ["bar", "..", "x"][1..] == ["..", "x"];
    assert ["..", "x"][1..] == ["x"] && ["x"][1..] == [];
    assert Slashed(["x"]) == "/x";
    assert Slashed(["..", "x"]) == "/.." + "/x";
    assert Slashed(["bar", "..", "x"]) == "/bar" + "/../x";
  }

  lemma DottedResolves()
    ensures WithoutDots([], ["..", "x"]) == ["x"] && !IsDots("x")
  {
    assert ["..", "x"][1..] == ["x"] && ["x"][1..] == [] && ".."[1..] == ".";
    assert WithoutDots([], ["x"]) == ["x"];
  }

  lemma DottedSegments()
    ensures Segments("/foo/bar/../x") == ["foo", "bar", "..", "x"] && Segments("/../x") == ["..", "x"]
  {
    hide Segments, Slashed;
    DottedSlashed();
    SegmentsOfSlashed(["foo", "bar", "..", "x"], "");
    SegmentsOfSlashed(["..", "x"], "");
    assert "/foo/bar/../x" + "" == "/foo/bar/../x" && "/../x" + "" == "/../x";
  }

  /** A request with a double dot. */
  lemma DotsLeaveThePath()
    ensures var path := "/foo/bar/../x";
            |Segments(path)| == 4 && Shown(Forwarded(path)) == "/../x" && Resolved(Forwarded(path)) == "/x"
  {
    hide Segments, Slashed, WithoutDots, IsDots;
    DottedSlashed();
    DottedSegments();
    DottedResolves();
    var segments: seq<Text> := ["foo", "bar", "..", "x"];
    assert segments[2..] == ["..", "x"];
    assert Forwarded("/foo/bar/../x") == "/../x" + "";
    assert "/../x" + "" == "/../x" && "/x" + "" == "/x";
  }

  lemma BareSlashed()
    ensures Slashed(["foo", "bar"]) == "/foo/bar" && Slashed([]) == ""
  {
    assert ["foo", "bar"][1..] == ["bar"] && ["bar"][1..] == [];
    assert Slashed(["bar"]) == "/bar";
  }

  /** The request for a bare location. */
  lemma BareLocationShowsRoot()
    ensures var path := "/foo/bar";
            && |Segments(path)| == 2 && Forwarded(path) == "" && Shown(Forwarded(path)) == "/"
            && ScriptName(path) + Shown(Forwarded(path)) == "/foo/bar/" != Collapse(path)
  {
    hide Segments, Slashed, Collapse;
    var segments: seq<Text> := ["foo", "bar"];
    BareSlashed();
    assert "/foo/bar" + "" == "/foo/bar";
    SegmentsOfSlashed(segments, "");
    assert segments[2..] == [];
    RewritingIsExact("/foo/bar");
    ShownPathExactly("/foo/bar");
  }

  const INTERNAL_WORD := "_rockslide"

  /**
   A request below a location, without a host, is proxied exactly when the location is published and its
   repository does not begin with the word of the internal paths; then it goes to the location's container.
   */
  lemma PublishedIsReachedExactly(t: RoutingTable, location: ImageLocation, rest: Text, query: Option<Text>)
    requires IsSegment(location.repository) && IsSegment(location.image)
    requires rest == "" || rest[0] == '/'
    ensures var path := "/" + ShowLocation(location) + rest;
            var d := Route(t, Request(None, Uri(path, query)));
            && (d.ReverseProxied? <==> location in t.pathMaps && !("_rockslide" <= location.repository))
            && (d.ReverseProxied? ==> && d.addr == t.pathMaps[location].hostAddr
                                      && d.config == t.pathMaps[location].config
                                      && d.scriptName == Some("/" + ShowLocation(location)))
  {
    hide Segments, Slashed, Tail, QueryPart;
    var path := "/" + ShowLocation(location) + rest;
    InternalPrefixIsOfRepository(location, rest);
    SegmentsBelow(location, rest);
  }

  lemma SegmentsBelow(location: ImageLocation, rest: Text)
    requires IsSegment(location.repository) && IsSegment(location.image) && (rest == "" || rest[0] == '/')
    ensures var segments := Segments("/" + ShowLocation(location) + rest);
            |segments| >= 2 && segments[0] == location.repository && segments[1] == location.image
  {
    hide Segments, Split, NonEmpty;
    var r, i := location.repository, location.image;
    var afterImage := i + rest;
    var afterRepository := "/" + afterImage;
    assert "/" + ShowLocation(location) + rest == "/" + (r + afterRepository);
    SplitSlash(r + afterRepository);
    SplitSlash(afterImage);
    assert Split(afterRepository)[0] == [];
    SegmentThenRest(r, afterRepository);
    RestStartsEmpty(rest);
    SegmentThenRest(i, rest);
  }

  lemma RestStartsEmpty(rest: Text)
    requires rest == "" || rest[0] == '/'
    ensures Split(rest)[0] == []
  {
  }

  lemma InternalPrefixIsOfRepository(location: ImageLocation, rest: Text)
    ensures var path := "/" + ShowLocation(location) + rest;
            StartsWith(path, INTERNAL_PREFIX) <==> StartsWith(location.repository, INTERNAL_WORD)
  {
    var r, n := location.repository, |INTERNAL_WORD|;
    var path := "/" + ShowLocation(location) + rest;
    assert INTERNAL_PREFIX == "/" + INTERNAL_WORD;
    var after := r + ("/" + location.image + rest);
    assert path == "/" + after;
    assert StartsWith(path, INTERNAL_PREFIX) <==> StartsWith(after, INTERNAL_WORD) by {
      assert path[1..] == after && INTERNAL_PREFIX[1..] == INTERNAL_WORD;
    }
    if |r| < n {
      assert after[|r|] == '/' != INTERNAL_WORD[|r|];
    } else {
      assert after[..n] == r[..n];
    }
  }
}
