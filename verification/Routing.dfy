/** What a compiled configuration does with a request, compared with what the
    hosts asked for. */
module Routing {
  import opened Wrappers
  import opened Text
  import opened Json
  import opened Model
  import opened Lists
  import opened Sorting
  import opened Middlewares
  import opened Validation
  import opened Compiler
  import opened Writers
  import opened References
  import opened Determinism

  // ---------------------------------------------------------------- what the hosts ask for

  /** What arrives at an entry point: an HTTP request for a domain, a TCP
      connection with a server name (empty when the client sends none), or a
      UDP packet. */
  datatype Request =
    | ToDomain(entryPoint: string, domain: string)
    | ToSni(entryPoint: string, sni: string)
    | ToPort(entryPoint: string)

  ghost function ProtoOf(q: Request): Protocol {
    match q case ToDomain(_, _) => HTTP case ToSni(_, _) => TCP case ToPort(_) => UDP
  }

  predicate Routed(proto: Protocol) { proto == HTTP || proto == TCP || proto == UDP }

  // Names are compared without regard to case.
  function FoldChar(c: char): char {
    if 'A' <= c <= 'Z' then (c as int + 32) as char else c
  }

  function Fold(s: string): string { seq(|s|, i requires 0 <= i < |s| => FoldChar(s[i])) }

  /** The entry points a host listens on. */
  ghost function PortsOf(h: ProxyHost): seq<string> {
    if h.entryPoints != [] then h.entryPoints
    else match Proto(h) case HTTP => ["web"] case TCP => ["websecure"] case _ => []
  }

  /** The host asks for this request by name. */
  ghost predicate Declares(q: Request, h: ProxyHost) {
    && Proto(h) == ProtoOf(q) && q.entryPoint in PortsOf(h)
    && match q
       case ToDomain(_, d) => Fold(h.domain) == Fold(d)
       case ToSni(_, d) => h.domain != "*" && Fold(h.domain) == Fold(d)
       case ToPort(_) => true
  }

  /** A TCP host for the domain * asks for every connection that no other host
      asks for by name. */
  ghost predicate CatchesAll(q: Request, h: ProxyHost) {
    Proto(h) == ProtoOf(q) && q.entryPoint in PortsOf(h) && q.ToSni? && h.domain == "*"
  }

  /** A later-named enabled host of the same protocol sanitizes to the same name. */
  ghost predicate Shadowed(hosts: seq<ProxyHost>, h: ProxyHost) {
    exists g :: g in hosts && g.enabled && Proto(g) == Proto(h) && Key(g) == Key(h) && Less(h.name, g.name)
  }

  ghost predicate Present(hosts: seq<ProxyHost>, h: ProxyHost) {
    h in hosts && h.enabled && !Shadowed(hosts, h)
  }

  /** The host that gets a request: one that declares it, or the catch-all when
      none does. Shadowed hosts do not take part. */
  ghost predicate Serves(hosts: seq<ProxyHost>, q: Request, h: ProxyHost) {
    Present(hosts, h) && (Declares(q, h) || (CatchesAll(q, h) && forall g :: Present(hosts, g) ==> !Declares(q, g)))
  }

  // Two hosts of one protocol whose domains differ in case only.
  ghost predicate CaseTwins(g: ProxyHost, h: ProxyHost) {
    Proto(g) == Proto(h) && g.domain != h.domain && Fold(g.domain) == Fold(h.domain)
  }

  datatype Probe = Probe(path: string, interval: string, timeout: string, scheme: string, hostname: string,
                         port: int, follow: Option<bool>)

  /** tls and sticky are the emitted blocks; unknown are the fields of the router
      and its service that mean nothing here. */
  datatype Route = Route(entryPoints: seq<string>, servers: seq<string>, tls: Option<Value>, sticky: Option<Value>,
                         probe: Option<Probe>, middlewares: seq<string>, unknown: set<string>)

  // A positive port, or 0.
  ghost predicate IsPort(o: Object, n: int) {
    if "port" in o && o["port"].Num? && o["port"].n == o["port"].n.Floor as real && 0 < o["port"].n.Floor <= 9223372036854775807
    then n == o["port"].n.Floor
    else n == 0
  }

  /** The health check a host asks for: none without a path that is more than
      space, and otherwise its own settings. */
  ghost predicate WantsProbe(hc: Object, probe: Option<Probe>) {
    if "path" in hc && hc["path"].Str? && !AllSpace(hc["path"].s) then
      && probe.Some?
      && var b := probe.value;
      && hc["path"] == Str(b.path)
      && SaysText(hc, "interval", b.interval) && SaysText(hc, "timeout", b.timeout)
      && SaysText(hc, "scheme", b.scheme) && SaysText(hc, "hostname", b.hostname)
      && IsPort(hc, b.port)
      && b.follow == (if "followRedirects" in hc && hc["followRedirects"].Bool? then Some(hc["followRedirects"].b) else None)
    else probe == None
  }

  ghost predicate SaysText(o: Object, k: string, t: string) {
    if k in o && o[k].Str? then o[k] == Str(t) else t == ""
  }

  ghost predicate WantsServers(h: ProxyHost, servers: seq<string>) {
    exists urls :: AsksForUpstreams(h, urls) && ServersOf(Proto(h), urls, servers)
  }

  ghost predicate ServersOf(proto: Protocol, urls: seq<string>, servers: seq<string>) {
    && |servers| == |urls|
    && forall i :: 0 <= i < |urls| ==> if proto == HTTP then servers[i] == urls[i] else IsAddressOf(urls[i], servers[i])
  }

  /** The mangled names of a host's middlewares. */
  ghost predicate WantsMiddlewares(h: ProxyHost, names: seq<string>) {
    && |names| == |h.middlewares|
    && forall i :: 0 <= i < |names| ==>
         names[i] == Sanitize(h.name) + "-" + Decimal(i) + "-" + Sanitize(h.middlewares[i].name)
  }

  /** The route is what the host's own fields ask for. */
  ghost predicate Wants(h: ProxyHost, r: Route) {
    && r.entryPoints == PortsOf(h) && WantsServers(h, r.servers) && r.unknown == {}
    && r.tls == (if h.tls && Proto(h) in {HTTP, TCP} then Some(Obj(map[])) else None)
    && r.sticky == (if h.stickySession && Proto(h) == HTTP then Some(Obj(map["cookie" := Obj(map[])])) else None)
    && (if Proto(h) == HTTP then WantsProbe(h.healthCheck, r.probe) else r.probe == None)
    && (if Proto(h) == HTTP then WantsMiddlewares(h, r.middlewares) else r.middlewares == [])
  }

  // ---------------------------------------------------------------- what the document says

  ghost function SectionOf(proto: Protocol): string {
    match proto case HTTP => "http" case TCP => "tcp" case _ => "udp"
  }

  ghost function FieldsOf(v: Value): Object { if v.Obj? then v.fields else map[] }

  ghost function ListAt(o: Object, k: string): seq<string> {
    if k in o && StringList(o[k]).Some? then StringList(o[k]).value else []
  }

  // The router's rule names this domain.
  ghost predicate RuleNames(matcher: string, rule: string, domain: string) {
    exists d :: rule == matcher + "(`" + d + "`)" && Fold(d) == Fold(domain)
  }

  ghost predicate TakesAll(q: Request, router: Value) {
    var r := FieldsOf(router);
    q.ToSni? && q.entryPoint in ListAt(r, "entryPoints") && StrAt(r, "rule") == "HostSNI(`*`)"
  }

  ghost predicate Takes(q: Request, router: Value) {
    var r := FieldsOf(router);
    && q.entryPoint in ListAt(r, "entryPoints")
    && match q
       case ToDomain(_, d) => RuleNames("Host", StrAt(r, "rule"), d)
       case ToSni(_, d) => !TakesAll(q, router) && RuleNames("HostSNI", StrAt(r, "rule"), d)
       case ToPort(_) => true
  }

  ghost function TakersIn(q: Request, routers: Object): set<string> {
    set k | k in routers && Takes(q, routers[k])
  }

  ghost function CatchersIn(q: Request, routers: Object): set<string> {
    set k | k in routers && TakesAll(q, routers[k])
  }

  /** The routers that answer the request: a rule that names it goes before the
      catch-all. */
  ghost function AnsweringIn(q: Request, routers: Object): set<string> {
    if TakersIn(q, routers) != {} then TakersIn(q, routers) else CatchersIn(q, routers)
  }

  ghost function Answering(doc: Value, q: Request): set<string> {
    AnsweringIn(q, SectionMap(doc, SectionOf(ProtoOf(q)), "routers"))
  }

  ghost function ServerAt(v: Value, field: string): string {
    if FieldsOf(v).Keys == {field} then StrAt(FieldsOf(v), field) else ""
  }

  ghost function ServersAt(lb: Object, field: string): seq<string> {
    if "servers" in lb && lb["servers"].Arr? then
      var items := lb["servers"].items;
      seq(|items|, i requires 0 <= i < |items| => ServerAt(items[i], field))
    else []
  }

  ghost function ProbeIn(o: Object): Probe {
    Probe(StrAt(o, "path"), StrAt(o, "interval"), StrAt(o, "timeout"), StrAt(o, "scheme"), StrAt(o, "hostname"),
      if "port" in o && IntOf(o["port"]).Some? then IntOf(o["port"]).value else 0,
      if "followRedirects" in o && o["followRedirects"].Bool? then Some(o["followRedirects"].b) else None)
  }

  const ROUTER_FIELDS: set<string> := {"rule", "entryPoints", "service", "middlewares", "tls"}
  const BALANCER_FIELDS: set<string> := {"servers", "sticky", "healthCheck"}
  const PROBE_FIELDS: set<string> := {"path", "interval", "timeout", "scheme", "hostname", "port", "followRedirects"}

  ghost function UnknownIn(r: Object, service: Object, lb: Object): set<string> {
    (r.Keys - ROUTER_FIELDS) + (service.Keys - {"loadBalancer"}) + (lb.Keys - BALANCER_FIELDS) +
    (if "healthCheck" in lb then FieldsOf(lb["healthCheck"]).Keys - PROBE_FIELDS else {})
  }

  ghost function ReadRoute(router: Value, service: Value, field: string): Route {
    var r, lb := FieldsOf(router), Sub(service, "loadBalancer");
    Route(ListAt(r, "entryPoints"), ServersAt(lb, field),
      if "tls" in r then Some(r["tls"]) else None,
      if "sticky" in lb then Some(lb["sticky"]) else None,
      if "healthCheck" in lb then Some(ProbeIn(FieldsOf(lb["healthCheck"]))) else None,
      ListAt(r, "middlewares"), UnknownIn(r, FieldsOf(service), lb))
  }

  /** The route behind one router of the document: its own settings and those
      of the service it names. */
  ghost function RouteAt(doc: Value, q: Request, k: string): Option<Route> {
    var section := SectionOf(ProtoOf(q));
    var routers, services := SectionMap(doc, section, "routers"), SectionMap(doc, section, "services");
    if k !in routers then None
    else
      var service := StrAt(FieldsOf(routers[k]), "service");
      if service !in services then None
      else Some(ReadRoute(routers[k], services[service], if q.ToDomain? then "url" else "address"))
  }

  // ---------------------------------------------------------------- emitting and reading one host

  ghost function RouterFor(proto: Protocol): ProxyHost -> Value {
    match proto case HTTP => HttpRouter case TCP => TcpRouter case _ => UdpRouter
  }

  ghost function ServiceFor(proto: Protocol): ProxyHost -> Value {
    match proto case HTTP => HttpService case _ => L4Service
  }

  lemma RouterFieldsDistinct()
    ensures "rule" != "entryPoints" && "rule" != "service" && "rule" != "middlewares" && "rule" != "tls"
    ensures "entryPoints" != "service" && "entryPoints" != "middlewares" && "entryPoints" != "tls"
    ensures "service" != "middlewares" && "service" != "tls" && "middlewares" != "tls"
  {
    assert |"rule"| == 4 && |"entryPoints"| == 11 && |"service"| == 7 && |"middlewares"| == 11 && |"tls"| == 3;
    assert "entryPoints"[0] == 'e' && "middlewares"[0] == 'm';
  }

  ghost predicate TlsFits(r: Object, h: ProxyHost) {
    ("tls" in r <==> h.tls) && ("tls" in r ==> r["tls"] == Obj(map[])) && r.Keys <= ROUTER_FIELDS
  }

  lemma EntryPointsArePorts(h: ProxyHost)
    ensures Proto(h) == HTTP ==> EntryPointsOr(h, "web") == PortsOf(h)
    ensures Proto(h) == TCP ==> EntryPointsOr(h, "websecure") == PortsOf(h)
  {
  }

  lemma RuledFields(h: ProxyHost, matcher: string, default: string)
    ensures var r := WithTls(RuledRouter(h, matcher, default), h);
      && StrAt(r, "rule") == matcher + "(`" + h.domain + "`)"
      && ListAt(r, "entryPoints") == EntryPointsOr(h, default)
      && StrAt(r, "service") == Key(h) && ListAt(r, "middlewares") == [] && TlsFits(r, h)
  {
    hide Key;
    RouterFieldsDistinct();
    StringsRoundTrip(EntryPointsOr(h, default));
  }

  lemma HttpRouterFields(h: ProxyHost)
    ensures var r := FieldsOf(HttpRouter(h));
      && StrAt(r, "rule") == "Host" + "(`" + h.domain + "`)"
      && ListAt(r, "entryPoints") == EntryPointsOr(h, "web")
      && StrAt(r, "service") == Key(h) && ListAt(r, "middlewares") == MwKeys(h) && TlsFits(r, h)
  {
    hide RuleFor, Key, MwKey;
    RouterFieldsDistinct();
    RuledFields(h, "Host", "web");
    StringsRoundTrip(EntryPointsOr(h, "web"));
    StringsRoundTrip(MwKeys(h));
  }

  lemma UdpRouterFields(h: ProxyHost)
    ensures var r := FieldsOf(UdpRouter(h));
      && ListAt(r, "entryPoints") == h.entryPoints
      && StrAt(r, "service") == Key(h) && "tls" !in r && ListAt(r, "middlewares") == [] && r.Keys <= ROUTER_FIELDS
  {
    hide Key;
    RouterFieldsDistinct();
    StringsRoundTrip(h.entryPoints);
  }

  lemma RuleInjective(matcher: string, a: string, b: string)
    ensures matcher + "(`" + a + "`)" == matcher + "(`" + b + "`)" ==> a == b
  {
    var r, t, m := matcher + "(`" + a + "`)", matcher + "(`" + b + "`)", matcher + "(`";
    assert r[|m|..|r| - 2] == a;
    assert t[|m|..|t| - 2] == b;
  }

  lemma RuleNamesIff(matcher: string, domain: string, d: string)
    ensures RuleNames(matcher, matcher + "(`" + domain + "`)", d) <==> Fold(domain) == Fold(d)
  {
    hide Fold;
    var rule := matcher + "(`" + domain + "`)";
    if x :| rule == matcher + "(`" + x + "`)" && Fold(x) == Fold(d) { RuleInjective(matcher, domain, x); }
  }

  lemma CatchAllRule(domain: string)
    ensures "HostSNI" + "(`" + domain + "`)" == "HostSNI(`*`)" <==> domain == "*"
  {
    var r, m := "HostSNI(`*`)", "HostSNI" + "(`";
    assert |m| == 9 && |r| == 12 && r[9..10] == "*";
    if m + domain + "`)" == r { assert r[|m|..|r| - 2] == domain; }
    assert m + "*" + "`)" == r;
  }

  // The router of a host takes exactly the requests that the host declares.
  lemma TakesIffDeclares(q: Request, h: ProxyHost)
    requires Proto(h) == ProtoOf(q)
    ensures var r := RouterFor(ProtoOf(q))(h);
      && (Takes(q, r) <==> Declares(q, h)) && (TakesAll(q, r) <==> CatchesAll(q, h))
      && StrAt(FieldsOf(r), "service") == Key(h)
  {
    hide Key, MwKey, HttpRouter, UdpRouter, RuledRouter, WithTls, RuleNames, Fold, EntryPointsOr, TlsFits;
    EntryPointsArePorts(h);
    match q {
      case ToDomain(_, d) =>
        HttpRouterFields(h);
        RuleNamesIff("Host", h.domain, d);
      case ToSni(_, d) =>
        RuledFields(h, "HostSNI", "websecure");
        RuleNamesIff("HostSNI", h.domain, d);
        CatchAllRule(h.domain);
      case ToPort(_) => UdpRouterFields(h);
    }
  }

  lemma ServersRead(field: string, urls: seq<string>, lb: Object)
    requires "servers" in lb && lb["servers"] == Servers(field, urls)
    ensures ServersAt(lb, field) == urls
  {
    assert forall i :: 0 <= i < |urls| ==> ServerAt(Servers(field, urls).items[i], field) == urls[i];
  }

  lemma ProbeFieldsDistinct()
    ensures "path" !in HEALTH_STRINGS && "port" !in HEALTH_STRINGS && "followRedirects" !in HEALTH_STRINGS
    ensures "path" != "port" && "path" != "followRedirects" && "port" != "followRedirects"
  {
    assert |"path"| == 4 && |"port"| == 4 && |"followRedirects"| == 15;
    assert "path"[1] == 'a' && "port"[1] == 'o';
    assert |"interval"| == 8 && |"timeout"| == 7 && |"scheme"| == 6 && |"hostname"| == 8;
  }

  lemma HealthStringsRead(hc: Object)
    requires "path" in hc
    ensures var o := HealthStrings(hc);
      && (forall k :: k in HEALTH_STRINGS || k == "path" ==> StrAt(o, k) == StrAt(hc, k))
      && "port" !in o && "followRedirects" !in o && o.Keys <= PROBE_FIELDS
  {
    ProbeFieldsDistinct();
  }

  lemma HealthNumbersRead(o: Object, hc: Object)
    requires "port" !in o && "followRedirects" !in o && o.Keys <= PROBE_FIELDS
    ensures var r := WithRedirects(WithPort(o, hc), hc);
      && (forall k :: k in HEALTH_STRINGS || k == "path" ==> StrAt(r, k) == StrAt(o, k))
      && IsPort(hc, ProbeIn(r).port) && r.Keys <= PROBE_FIELDS
      && ProbeIn(r).follow == if "followRedirects" in hc && hc["followRedirects"].Bool? then Some(hc["followRedirects"].b) else None
  {
    ProbeFieldsDistinct();
  }

  lemma ProbeRead(h: ProxyHost)
    ensures WantsProbe(h.healthCheck, if HealthCheck(h).Some? then Some(ProbeIn(FieldsOf(HealthCheck(h).value))) else None)
    ensures HealthCheck(h).Some? ==> FieldsOf(HealthCheck(h).value).Keys <= PROBE_FIELDS
  {
    assert AllSpace("");
    hide HealthStrings, WithPort, WithRedirects, IsPort, TrimSpace, AllSpace;
    var hc := h.healthCheck;
    BlankExact(StrAt(hc, "path"));
    if HealthCheck(h).Some? {
      HealthStringsRead(hc);
      HealthNumbersRead(HealthStrings(hc), hc);
    }
  }

  lemma HttpServiceRead(h: ProxyHost)
    ensures var s, lb := HttpService(h), Sub(HttpService(h), "loadBalancer");
      && ServersAt(lb, "url") == EffectiveUpstreams(h)
      && ("sticky" in lb <==> h.stickySession) && ("sticky" in lb ==> lb["sticky"] == Obj(map["cookie" := Obj(map[])]))
      && WantsProbe(h.healthCheck, if "healthCheck" in lb then Some(ProbeIn(FieldsOf(lb["healthCheck"]))) else None)
      && ("healthCheck" in lb ==> FieldsOf(lb["healthCheck"]).Keys <= PROBE_FIELDS)
      && FieldsOf(s).Keys == {"loadBalancer"} && lb.Keys <= BALANCER_FIELDS
  {
    hide EffectiveUpstreams, HealthCheck, WantsProbe, ProbeIn, Servers, ServersAt;
    assert |"servers"| == 7 && |"sticky"| == 6 && |"healthCheck"| == 11;
    ProbeRead(h);
    ServersRead("url", EffectiveUpstreams(h), Sub(HttpService(h), "loadBalancer"));
  }

  lemma L4ServiceRead(h: ProxyHost)
    ensures var s, lb := L4Service(h), Sub(L4Service(h), "loadBalancer");
      && ServersAt(lb, "address") == Addresses(EffectiveUpstreams(h))
      && "sticky" !in lb && "healthCheck" !in lb && FieldsOf(s).Keys == {"loadBalancer"} && lb.Keys <= BALANCER_FIELDS
  {
    hide EffectiveUpstreams, Addresses, Servers, ServersAt;
    assert |"servers"| == 7 && |"sticky"| == 6 && |"healthCheck"| == 11;
    ServersRead("address", Addresses(EffectiveUpstreams(h)), Sub(L4Service(h), "loadBalancer"));
  }

  lemma ServersWanted(h: ProxyHost)
    requires Routed(Proto(h))
    ensures WantsServers(h, if IsHttp(h) then EffectiveUpstreams(h) else Addresses(EffectiveUpstreams(h)))
  {
    hide AsksForUpstreams, EffectiveUpstreams, IsAddressOf, StripScheme;
    var urls := EffectiveUpstreams(h);
    UpstreamsExact(h, urls);
    forall i | 0 <= i < |urls| ensures IsAddressOf(urls[i], TcpAddress(urls[i])) { StripSchemeExact(urls[i], TcpAddress(urls[i])); }
    assert ServersOf(Proto(h), urls, if IsHttp(h) then urls else Addresses(urls));
  }

  lemma MiddlewaresWanted(h: ProxyHost)
    ensures WantsMiddlewares(h, MwKeys(h))
  {
    hide Sanitize, Decimal;
    forall i | 0 <= i < |h.middlewares|
      ensures MwKeys(h)[i] == Sanitize(h.name) + "-" + Decimal(i) + "-" + Sanitize(h.middlewares[i].name)
    {
      NamesAreMangled(h, i);
    }
  }

  // One host's router and service read back as the route it wants.
  lemma RouteRead(h: ProxyHost)
    requires Routed(Proto(h))
    ensures Wants(h, ReadRoute(RouterFor(Proto(h))(h), ServiceFor(Proto(h))(h), if IsHttp(h) then "url" else "address"))
  {
    hide HttpRouter, HttpService, UdpRouter, L4Service, RuledRouter, WithTls, EffectiveUpstreams, WantsProbe, Addresses, MwKeys, Key;
    hide ServersAt, ListAt, ProbeIn, EntryPointsOr, WantsServers, WantsMiddlewares;
    EntryPointsArePorts(h);
    ServersWanted(h);
    MiddlewaresWanted(h);
    if IsHttp(h) {
      HttpRouterFields(h);
      HttpServiceRead(h);
    } else if IsTcp(h) {
      RuledFields(h, "HostSNI", "websecure");
      L4ServiceRead(h);
    } else {
      UdpRouterFields(h);
      L4ServiceRead(h);
    }
  }

  // ---------------------------------------------------------------- the hosts of one protocol, in order

  ghost function KeepFor(proto: Protocol): ProxyHost -> bool {
    match proto case HTTP => IsHttp case TCP => IsTcp case _ => IsUdp
  }

  lemma SublistSorted(sub: seq<ProxyHost>, xs: seq<ProxyHost>)
    requires IsSublist(sub, xs) && SortedBy(xs, HostName)
    ensures SortedBy(sub, HostName)
  {
    forall i, j | 0 <= i < j < |sub| ensures Leq(HostName(sub[i]), HostName(sub[j])) {
      var m, n := SublistPair(sub, xs, i, j);
    }
  }

  /** The list that one section is compiled from: the enabled hosts of the
      protocol, each once, in name order. */
  ghost predicate Listing(hs: seq<ProxyHost>, hosts: seq<ProxyHost>, keep: ProxyHost -> bool) {
    && (forall h :: h in hs <==> h in hosts && h.enabled && keep(h))
    && SortedBy(hs, HostName) && DistinctKeys(hs, HostName)
  }

  lemma ListingOf(p: Platform, hosts: seq<ProxyHost>, order: seq<ProxyHost>, keep: ProxyHost -> bool)
    requires Publishable(p, hosts) && IsSortOf(order, Filter(hosts, IsEnabled), HostName)
    ensures Listing(Filter(order, keep), hosts, keep)
  {
    hide Publishable;
    PublishableNames(p, hosts);
    FilterIsSublist(hosts, IsEnabled);
    SublistDistinct(Filter(hosts, IsEnabled), hosts);
    DistinctKeysPermute(Filter(hosts, IsEnabled), order, HostName);
    FilterIsSublist(order, keep);
    SublistDistinct(Filter(order, keep), order);
    SublistSorted(Filter(order, keep), order);
    forall h ensures h in order <==> h in hosts && h.enabled {
      assert h in order <==> h in multiset(order);
      assert h in Filter(hosts, IsEnabled) <==> h in multiset(Filter(hosts, IsEnabled));
    }
  }

  lemma PairCoexists(p: Platform, hosts: seq<ProxyHost>, a: ProxyHost, b: ProxyHost)
    requires Publishable(p, hosts) && a in hosts && b in hosts && a != b
    ensures Coexist(a, b)
  {
    hide HostOk, Coexist;
    var m :| 0 <= m < |hosts| && hosts[m] == a;
    var n :| 0 <= n < |hosts| && hosts[n] == b;
    if n < m { CoexistSymmetric(hosts[n], hosts[m]); }
  }

  lemma ShadowedIff(hs: seq<ProxyHost>, hosts: seq<ProxyHost>, proto: Protocol, n: nat)
    requires Routed(proto) && Listing(hs, hosts, KeepFor(proto)) && n < |hs|
    ensures LastKeyed(hs, n, Key(hs[n])) <==> !Shadowed(hosts, hs[n])
  {
    hide Key;
    assert hs[n] in hs;
    if !LastKeyed(hs, n, Key(hs[n])) {
      var m :| n < m < |hs| && Key(hs[m]) == Key(hs[n]);
      assert hs[m] in hs && Leq(HostName(hs[n]), HostName(hs[m])) && HostName(hs[n]) != HostName(hs[m]);
      LessTotal(hs[n].name, hs[m].name);
    }
    if Shadowed(hosts, hs[n]) {
      var g :| g in hosts && g.enabled && Proto(g) == Proto(hs[n]) && Key(g) == Key(hs[n]) && Less(hs[n].name, g.name);
      assert g in hs;
      var m :| 0 <= m < |hs| && hs[m] == g;
      LessTotal(hs[n].name, g.name);
      if m < n { assert Leq(HostName(hs[m]), HostName(hs[n])); }
    }
  }

  /** A compiled map has one entry for each host that is not shadowed. */
  lemma WrittenByPresent(hs: seq<ProxyHost>, hosts: seq<ProxyHost>, proto: Protocol, val: ProxyHost -> Value)
    requires Routed(proto) && Listing(hs, hosts, KeepFor(proto))
    ensures var m := WriteAll(hs, val);
      && (forall k :: k in m <==> exists h :: Present(hosts, h) && Proto(h) == proto && Key(h) == k)
      && (forall h :: Present(hosts, h) && Proto(h) == proto ==> Key(h) in m && m[Key(h)] == val(h))
  {
    hide Key, WriteAll, Shadowed, LastKeyed;
    var m := WriteAll(hs, val);
    forall h | Present(hosts, h) && Proto(h) == proto ensures Key(h) in m && m[Key(h)] == val(h) {
      assert h in hs;
      var n :| 0 <= n < |hs| && hs[n] == h;
      ShadowedIff(hs, hosts, proto, n);
      WriteAllAt(hs, val, Key(h));
    }
    forall k | k in m ensures exists h :: Present(hosts, h) && Proto(h) == proto && Key(h) == k {
      WriteAllAt(hs, val, k);
      var n0 :| 0 <= n0 < |hs| && Key(hs[n0]) == k;
      var n := SomeLastKeyed(hs, n0, k);
      KeyOfLast(hs, n, k);
      ShadowedIff(hs, hosts, proto, n);
      assert hs[n] in hs && Present(hosts, hs[n]);
    }
  }

  // The host that wrote an entry.
  lemma WriterOf(hs: seq<ProxyHost>, hosts: seq<ProxyHost>, proto: Protocol, val: ProxyHost -> Value, k: string) returns (h: ProxyHost)
    requires Routed(proto) && Listing(hs, hosts, KeepFor(proto)) && k in WriteAll(hs, val)
    ensures Present(hosts, h) && Proto(h) == proto && Key(h) == k
  {
    hide WriteAll, Listing, Present, Key, KeepFor;
    WrittenByPresent(hs, hosts, proto, val);
    h :| Present(hosts, h) && Proto(h) == proto && Key(h) == k;
  }

  lemma KeyOfLast(hs: seq<ProxyHost>, n: int, k: string)
    requires LastKeyed(hs, n, k)
    ensures 0 <= n < |hs| && Key(hs[n]) == k
  {
  }

  // ---------------------------------------------------------------- the main results

  lemma SectionsAre(p: Platform, order: seq<ProxyHost>, pool: seq<Certificate>, proto: Protocol)
    requires Routed(proto)
    ensures var doc := DocumentOf(p, order, pool); var hs := Filter(order, KeepFor(proto));
      && SectionMap(doc, SectionOf(proto), "routers") == WriteAll(hs, RouterFor(proto))
      && SectionMap(doc, SectionOf(proto), "services") == WriteAll(hs, ServiceFor(proto))
  {
    hide Document, SectionMap, WriteAll, Filter, AllMws;
    DocumentParts(HttpMapsOf(p, Filter(order, IsHttp)), Filter(order, IsTcp), Filter(order, IsUdp), pool);
  }

  // Reading one section: the routers that answer are those of the hosts that serve.
  lemma SectionAnswers(hs: seq<ProxyHost>, hosts: seq<ProxyHost>, q: Request, k: string)
    requires Listing(hs, hosts, KeepFor(ProtoOf(q)))
    ensures k in AnsweringIn(q, WriteAll(hs, RouterFor(ProtoOf(q)))) <==> exists h :: Serves(hosts, q, h) && Key(h) == k
  {
    hide Key, WriteAll, Listing, Present, Takes, TakesAll, RouterFor, Declares, CatchesAll;
    var routers := WriteAll(hs, RouterFor(ProtoOf(q)));
    WrittenByPresent(hs, hosts, ProtoOf(q), RouterFor(ProtoOf(q)));
    forall h | Present(hosts, h) && Proto(h) == ProtoOf(q)
      ensures Takes(q, routers[Key(h)]) <==> Declares(q, h)
      ensures TakesAll(q, routers[Key(h)]) <==> CatchesAll(q, h)
    {
      TakesIffDeclares(q, h);
    }
    assert forall h :: Declares(q, h) || CatchesAll(q, h) ==> Proto(h) == ProtoOf(q) by { ProtocolAgrees(q); }
    assert (exists g :: Present(hosts, g) && Declares(q, g)) <==> TakersIn(q, routers) != {} by {
      if g :| Present(hosts, g) && Declares(q, g) { assert Key(g) in TakersIn(q, routers); }
      if x :| x in TakersIn(q, routers) {
        assert x in routers && Takes(q, routers[x]);
        var h := WriterOf(hs, hosts, ProtoOf(q), RouterFor(ProtoOf(q)), x);
        assert Declares(q, h);
      }
    }
  }

  lemma ProtocolAgrees(q: Request)
    ensures forall h :: Declares(q, h) || CatchesAll(q, h) ==> Proto(h) == ProtoOf(q)
  {
  }

  lemma ServedRoute(p: Platform, hosts: seq<ProxyHost>, order: seq<ProxyHost>, pool: seq<Certificate>, q: Request, h: ProxyHost)
    requires Listing(Filter(order, KeepFor(ProtoOf(q))), hosts, KeepFor(ProtoOf(q))) && Serves(hosts, q, h)
    ensures LeadsTo(DocumentOf(p, order, pool), q, Key(h), h)
  {
    hide Key, WriteAll, Listing, Shadowed, RouterFor, ServiceFor, DocumentOf, SectionMap, Filter, ReadRoute, Wants;
    ProtocolAgrees(q);
    var proto := ProtoOf(q);
    SectionsAre(p, order, pool, proto);
    WrittenByPresent(Filter(order, KeepFor(proto)), hosts, proto, RouterFor(proto));
    WrittenByPresent(Filter(order, KeepFor(proto)), hosts, proto, ServiceFor(proto));
    TakesIffDeclares(q, h);
    RouteRead(h);
  }

  // The router of this name leads where the host wants.
  ghost predicate LeadsTo(doc: Value, q: Request, k: string, h: ProxyHost) {
    RouteAt(doc, q, k).Some? && Wants(h, RouteAt(doc, q, k).value)
  }

  /** A document does with a request what this list of hosts asks for: the
      routers that answer are exactly those of the hosts that serve it, and each
      leads to its host's entry points, upstreams, TLS flag, stickiness, health
      check and middleware list. */
  ghost predicate RoutesAs(doc: Value, hosts: seq<ProxyHost>, q: Request) {
    && (forall k :: k in Answering(doc, q) <==> exists h :: Serves(hosts, q, h) && Key(h) == k)
    && (forall h :: Serves(hosts, q, h) ==> LeadsTo(doc, q, Key(h), h))
  }

  lemma CompiledParts(p: Platform, hosts: seq<ProxyHost>, certs: seq<Certificate>, c: Compiled)
    returns (order: seq<ProxyHost>, pool: seq<Certificate>)
    requires CompilesTo(p, hosts, certs, Success(c))
    ensures Publishable(p, hosts)
    ensures IsSortOf(order, Filter(hosts, IsEnabled), HostName) && IsSortOf(pool, certs, CertName)
    ensures FirstHostFault(p, Filter(order, IsHttp)).None? && c.config == DocumentOf(p, order, pool)
    ensures c.etag == EtagOf(p, c.config)
  {
    hide AllErrors, Publishable, IsSortOf, Emit, FirstHostFault, DocumentOf;
    ValidateExact(p, hosts);
    order, pool :| IsSortOf(order, Filter(hosts, IsEnabled), HostName) && IsSortOf(pool, certs, CertName) &&
      Emit(p, order, pool) == Success(c);
    EmitSucceeds(p, order, pool);
  }

  /** For every request, of any successful compile and with no hypothesis on
      names: exactly the hosts that serve it answer, each with the route it
      wants. A host whose name a later-named host of the protocol sanitizes to
      is not routed; a catch-all gets what no routed host names; nothing else
      answers. Two hosts answer one request only when their domains differ in
      case alone, which validation lets through. */
  lemma RequestsReachTheirHost(p: Platform, hosts: seq<ProxyHost>, certs: seq<Certificate>, c: Compiled, q: Request)
    requires CompilesTo(p, hosts, certs, Success(c))
    ensures RoutesAs(c.config, hosts, q)
    ensures forall g, h :: Serves(hosts, q, g) && Serves(hosts, q, h) ==> g == h || CaseTwins(g, h)
  {
    hide CompilesTo, Publishable, IsSortOf, FirstHostFault, DocumentOf, LeadsTo, Serves, Key, Filter, SectionMap;
    hide AnsweringIn, WriteAll, CaseTwins;
    var order, pool := CompiledParts(p, hosts, certs, c);
    var proto := ProtoOf(q);
    var hs := Filter(order, KeepFor(proto));
    ListingOf(p, hosts, order, KeepFor(proto));
    SectionsAre(p, order, pool, proto);
    forall k ensures k in Answering(c.config, q) <==> exists h :: Serves(hosts, q, h) && Key(h) == k {
      SectionAnswers(hs, hosts, q, k);
    }
    forall h | Serves(hosts, q, h) ensures LeadsTo(c.config, q, Key(h), h) {
      ServedRoute(p, hosts, order, pool, q, h);
    }
    forall g, h | Serves(hosts, q, g) && Serves(hosts, q, h) ensures g == h || CaseTwins(g, h) {
      ServersAreTwins(p, hosts, q, g, h);
    }
  }

  lemma ServersAreTwins(p: Platform, hosts: seq<ProxyHost>, q: Request, g: ProxyHost, h: ProxyHost)
    requires Publishable(p, hosts) && Serves(hosts, q, g) && Serves(hosts, q, h)
    ensures g == h || CaseTwins(g, h)
  {
    hide Publishable, Shadowed, Fold, Key;
    if g != h {
      PairCoexists(p, hosts, g, h);
      SharedPort(g, h, q.entryPoint);
    }
  }

  lemma SharedPort(g: ProxyHost, h: ProxyHost, ep: string)
    ensures ep in g.entryPoints && ep in h.entryPoints ==> ShareEntryPoint(g, h)
  {
  }

  /** A routed catch-all gets every connection that no routed host names, with
      or without a server name, and is the only one to answer it. */
  lemma CatchAllGetsTheRest(p: Platform, hosts: seq<ProxyHost>, certs: seq<Certificate>, c: Compiled, q: Request, h: ProxyHost)
    requires CompilesTo(p, hosts, certs, Success(c))
    requires Present(hosts, h) && CatchesAll(q, h) && forall g :: Present(hosts, g) ==> !Declares(q, g)
    ensures Answering(c.config, q) == {Key(h)} && LeadsTo(c.config, q, Key(h), h)
  {
    hide CompilesTo, Answering, LeadsTo, Key, Present, Declares;
    RequestsReachTheirHost(p, hosts, certs, c, q);
    assert Serves(hosts, q, h);
    forall k ensures k in Answering(c.config, q) <==> k == Key(h) {
      if k in Answering(c.config, q) {
        var g :| Serves(hosts, q, g) && Key(g) == k;
        assert g == h || CaseTwins(g, h);
      }
    }
  }

  /** A fleet compiles whenever it is publishable and its enabled HTTP hosts'
      middlewares are admissible. */
  lemma CompileSucceeds(p: Platform, hosts: seq<ProxyHost>, certs: seq<Certificate>) returns (c: Compiled)
    requires Publishable(p, hosts) && forall h :: h in hosts && h.enabled && IsHttp(h) ==> Admissible(p, h.middlewares)
    ensures CompilesTo(p, hosts, certs, Success(c))
    ensures forall r :: CompilesTo(p, hosts, certs, r) ==> r.Success?
  {
    hide Publishable, HostFault, FirstHostFault, DocumentOf, Filter, IsSortOf, AllErrors, Emit, Admissible;
    ValidateExact(p, hosts);
    forall order, pool | IsSortOf(order, Filter(hosts, IsEnabled), HostName) ensures Emit(p, order, pool).Success? {
      var hs := Filter(order, IsHttp);
      ListingOf(p, hosts, order, IsHttp);
      forall n | 0 <= n < |hs| ensures HostFault(p, hs[n]).None? {
        assert hs[n] in hs;
        HostFaultExact(p, hs[n]);
      }
      NoHostFault(p, hs);
      EmitSucceeds(p, order, pool);
    }
    var order, pool := SortOf(Filter(hosts, IsEnabled), HostName), SortOf(certs, CertName);
    c := Emit(p, order, pool).value;
    assert Emit(p, order, pool) == Success(c);
  }

  lemma DeclaresChecked(h: ProxyHost, q: Request)
    requires (IsHttp(h) && q == ToDomain(q.entryPoint, TrimSpace(h.domain))) ||
             (IsTcp(h) && h.domain != "*" && q == ToSni(q.entryPoint, TrimSpace(h.domain)))
    ensures Declares(q, h) <==> q.entryPoint in PortsOf(h) && Trimmed(h.domain)
    ensures !CatchesAll(q, h)
  {
    TrimSpaceFixpoint(h.domain);
    assert |Fold(h.domain)| == |h.domain| && |Fold(TrimSpace(h.domain))| == |TrimSpace(h.domain)|;
  }

  // Of the hosts of one protocol that sanitize alike only one is routed.
  lemma SamePresent(p: Platform, hosts: seq<ProxyHost>, g: ProxyHost, h: ProxyHost)
    requires Publishable(p, hosts) && Present(hosts, g) && Present(hosts, h) && Proto(g) == Proto(h) && Key(g) == Key(h)
    ensures g == h
  {
    hide Publishable, Key;
    LessTotal(g.name, h.name);
    if g != h { PairCoexists(p, hosts, g, h); }
  }

  /** The validator checks a domain without its surrounding space but the rule
      carries it as it is: in any successful compile, the router of a routed HTTP
      or TCP host answers on the host's entry points for the domain that was
      checked exactly when the domain has no surrounding space. */
  lemma CheckedDomainIsRouted(p: Platform, hosts: seq<ProxyHost>, certs: seq<Certificate>, c: Compiled, h: ProxyHost, q: Request)
    requires CompilesTo(p, hosts, certs, Success(c)) && Present(hosts, h) && q.entryPoint in PortsOf(h)
    requires (IsHttp(h) && q == ToDomain(q.entryPoint, TrimSpace(h.domain))) ||
             (IsTcp(h) && h.domain != "*" && q == ToSni(q.entryPoint, TrimSpace(h.domain)))
    ensures Key(h) in Answering(c.config, q) <==> Trimmed(h.domain)
  {
    hide CompilesTo, Answering, RouteAt, Key, Trimmed, TrimSpace, Declares, CatchesAll, PortsOf, Publishable, Shadowed;
    DeclaresChecked(h, q);
    RequestsReachTheirHost(p, hosts, certs, c, q);
    var order, pool := CompiledParts(p, hosts, certs, c);
    ProtocolAgrees(q);
    if g :| Serves(hosts, q, g) && Key(g) == Key(h) { SamePresent(p, hosts, g, h); }
    if Trimmed(h.domain) { assert Serves(hosts, q, h); }
  }

  // ---------------------------------------------------------------- names that collide

  const DASHED := ProxyHost("a-b", HTTP, "x", "http://u", [], false, map[], [], [], false, "", true)
  const DOTTED := ProxyHost("a.b", HTTP, "y", "http://u", [], false, map[], [], [], false, "", true)

  lemma ShortDomain(d: string)
    requires |d| == 1 && LabelChar(d[0])
    ensures LooksLikeDomain(d)
  {
    assert TrimSpace(d) == d;
    SplitSingle(d, '.');
  }

  lemma CollidingHostOk(p: Platform, h: ProxyHost)
    requires p.parseURL("http://u") == Some(("http", "u"))
    requires LooksLikeDomain(h.domain) && NotBlank(h.name)
    requires h.protocol == HTTP && h.upstreamURL == "http://u" && h.upstreamURLs == []
    requires forall i :: 0 <= i < |h.middlewares| ==> !h.middlewares[i].kind.Unsupported?
    ensures HostOk(p, h)
  {
    hide LooksLikeDomain;
    assert NotBlank("http://u");
  }

  lemma TwoHosts(p: Platform, a: ProxyHost, b: ProxyHost)
    requires HostOk(p, a) && HostOk(p, b) && Coexist(a, b)
    ensures Publishable(p, [a, b])
  {
    hide HostOk, Coexist;
  }

  lemma DashedAndDotted(p: Platform)
    requires p.parseURL("http://u") == Some(("http", "u"))
    ensures HostOk(p, DASHED) && HostOk(p, DOTTED) && Coexist(DASHED, DOTTED)
  {
    hide LabelChar, HostOk;
    LetterIsLabelChar('x');
    LetterIsLabelChar('y');
    ShortDomain("x");
    ShortDomain("y");
    hide LooksLikeDomain;
    assert NotBlank("a-b") && NotBlank("a.b");
    CollidingHostOk(p, DASHED);
    CollidingHostOk(p, DOTTED);
    assert "a-b"[1] != "a.b"[1] && "x"[0] != "y"[0];
  }

  lemma CollisionCompiles(p: Platform) returns (c: Compiled)
    requires p.parseURL("http://u") == Some(("http", "u"))
    ensures CompilesTo(p, [DASHED, DOTTED], [], Success(c))
  {
    hide CompilesTo, HostOk, Coexist, Publishable;
    DashedAndDotted(p);
    TwoHosts(p, DASHED, DOTTED);
    c := CompileSucceeds(p, [DASHED, DOTTED], []);
  }

  lemma LetterIsLabelChar(c: char)
    ensures 'a' <= c <= 'z' ==> LabelChar(c)
  {
  }

  lemma DashedIsShadowed()
    ensures Shadowed([DASHED, DOTTED], DASHED)
  {
    assert Sanitize("a.b") == "a-b" == Sanitize("a-b");
    assert "a-b"[1..] == "-b" && "a.b"[1..] == ".b";
    assert Less("a-b", "a.b") && DOTTED in [DASHED, DOTTED];
  }

  /** Two hosts with different names can sanitize alike: this fleet compiles, and
      the earlier host, which declares the request, is not routed at all. */
  lemma SanitizedNamesCollide(p: Platform) returns (c: Compiled)
    requires p.parseURL("http://u") == Some(("http", "u"))
    ensures CompilesTo(p, [DASHED, DOTTED], [], Success(c))
    ensures Declares(ToDomain("web", "x"), DASHED) && Answering(c.config, ToDomain("web", "x")) == {}
  {
    hide Answering, CompilesTo, Shadowed, RouteAt;
    c := CollisionCompiles(p);
    DashedIsShadowed();
    RequestsReachTheirHost(p, [DASHED, DOTTED], [], c, ToDomain("web", "x"));
    assert Fold("x")[0] == 'x' && Fold("y")[0] == 'y';
  }

  // A domain with a space on either side.
  const PADDED := ProxyHost("a", HTTP, " x ", "http://u", [], false, map[], [], [], false, "", true)

  lemma PaddedLooksFine()
    ensures TrimSpace(" x ") == "x" && LooksLikeDomain(" x ") && !Trimmed(" x ")
  {
    var s := " x ";
    assert IsSpace(' ') && !IsSpace('x');
    assert s[..2] == " x" && s[..2][1..] == "x";
    assert TrimRight(s) == " x" && TrimLeft(" x") == "x";
    SplitSingle("x", '.');
  }

  lemma OneHost(p: Platform, h: ProxyHost)
    requires HostOk(p, h)
    ensures Publishable(p, [h])
  {
    hide HostOk;
  }

  /** This fleet is accepted and compiles, and nothing answers a request for its
      host's domain as it was checked. */
  lemma PaddedDomainIsLost(p: Platform) returns (c: Compiled)
    requires p.parseURL("http://u") == Some(("http", "u"))
    ensures TrimSpace(PADDED.domain) == "x"
    ensures CompilesTo(p, [PADDED], [], Success(c)) && Answering(c.config, ToDomain("web", "x")) == {}
  {
    hide CompilesTo, HostOk, Publishable, Answering, RouteAt, Key, TrimSpace, LooksLikeDomain, NotBlank, Declares, Shadowed;
    PaddedLooksFine();
    PaddedName();
    CollidingHostOk(p, PADDED);
    OneHost(p, PADDED);
    c := CompileSucceeds(p, [PADDED], []);
    var q := ToDomain("web", "x");
    DeclaresChecked(PADDED, q);
    RequestsReachTheirHost(p, [PADDED], [], c, q);
  }

  lemma PaddedName()
    ensures NotBlank(PADDED.name)
  {
  }

  // An upstream with a space before its scheme.
  const RAW := ProxyHost("a", TCP, "*", " tcp://u:1", [], false, map[], [], [], false, "", true)

  lemma PaddedAddress()
    ensures TrimSpace(" tcp://u:1") == "tcp://u:1"
    ensures StripScheme("tcp://u:1") == "u:1" && TcpAddress(" tcp://u:1") == " tcp://u:1"
  {
    var s, t := " tcp://u:1", "tcp://u:1";
    assert s[1..] == t && TrimSpace(s) == t;
    hide TrimSpace;
    assert t[..6] == "tcp://" && t[6..] == "u:1";
    assert s[0] != 't' && s[0] != 'u';
  }

  lemma PaddedPort()
    ensures PortOk("1") && !ContainsSchemeMark("u:1")
  {
    assert Digits("1") == Some(1);
    assert Atoi("1") == Some(1);
  }

  lemma PaddedUpstreamOk(p: Platform)
    requires p.splitHostPort("u:1") == Some(("u", "1"))
    ensures HostOk(p, RAW) && EffectiveUpstreams(RAW) == [" tcp://u:1"]
    ensures StripScheme(TrimSpace(" tcp://u:1")) == "u:1" && TcpAddress(" tcp://u:1") == " tcp://u:1"
  {
    assert NotBlank("a");
    hide TrimSpace, StripScheme, TcpAddress, PortOk, ContainsSchemeMark, LooksLikeDomain;
    PaddedAddress();
    PaddedPort();
    assert TcpUpstreamOk(p, " tcp://u:1");
    hide TcpUpstreamOk;
    assert NotBlank(" tcp://u:1");
  }

  /** This fleet is accepted because "u:1" is a good address, and the document
      sends every connection to " tcp://u:1". */
  lemma PaddedUpstreamIsEmitted(p: Platform) returns (c: Compiled)
    requires p.splitHostPort("u:1") == Some(("u", "1"))
    ensures CompilesTo(p, [RAW], [], Success(c)) && StripScheme(TrimSpace(RAW.upstreamURL)) == "u:1"
    ensures var q := ToSni("websecure", ""); var route := RouteAt(c.config, q, Key(RAW));
      Answering(c.config, q) == {Key(RAW)} && route.Some? && route.value.servers == [" tcp://u:1"]
  {
    hide CompilesTo, HostOk, Publishable, Answering, RouteAt, Key, Shadowed, EffectiveUpstreams, TcpAddress, StripScheme, TrimSpace;
    PaddedUpstreamOk(p);
    OneHost(p, RAW);
    c := CompileSucceeds(p, [RAW], []);
    RawIsPresent();
    CatchAllGetsTheRest(p, [RAW], [], c, ToSni("websecure", ""), RAW);
    RawServers(RouteAt(c.config, ToSni("websecure", ""), Key(RAW)).value.servers);
  }

  lemma RawServers(servers: seq<string>)
    requires WantsServers(RAW, servers) && EffectiveUpstreams(RAW) == [" tcp://u:1"]
    ensures servers == [" tcp://u:1"]
  {
    hide AsksForUpstreams, EffectiveUpstreams;
    var urls :| AsksForUpstreams(RAW, urls) && ServersOf(Proto(RAW), urls, servers);
    UpstreamsExact(RAW, urls);
    var u := " tcp://u:1";
    assert u[..6][0] == ' ' && "tcp://"[0] == 't' && "udp://"[0] == 'u';
  }

  lemma RawIsPresent()
    ensures Present([RAW], RAW) && forall g :: Present([RAW], g) ==> !Declares(ToSni("websecure", ""), g)
  {
    LessTotal("a", "a");
  }

  const UPPER := ProxyHost("a", HTTP, "X", "http://u", [], false, map[], [], [], false, "", true)
  const LOWER := ProxyHost("b", HTTP, "x", "http://u", [], false, map[], [], [], false, "", true)

  lemma TwinsCompile(p: Platform) returns (c: Compiled)
    requires p.parseURL("http://u") == Some(("http", "u"))
    ensures CompilesTo(p, [UPPER, LOWER], [], Success(c)) && CaseTwins(UPPER, LOWER)
  {
    hide CompilesTo, HostOk, Publishable;
    assert LabelChar('x') && LabelChar('X') && NotBlank("a") && NotBlank("b");
    ShortDomain("X");
    ShortDomain("x");
    hide LabelChar, NotBlank, LooksLikeDomain;
    CollidingHostOk(p, UPPER);
    CollidingHostOk(p, LOWER);
    assert "X"[0] != "x"[0] && "a"[0] != "b"[0];
    TwoHosts(p, UPPER, LOWER);
    assert Fold("X") == "x" == Fold("x");
    c := CompileSucceeds(p, [UPPER, LOWER], []);
  }

  lemma BothServe(q: Request)
    requires q == ToDomain("web", "x")
    ensures Serves([UPPER, LOWER], q, UPPER) && Serves([UPPER, LOWER], q, LOWER)
  {
    assert Fold("X") == "x" == Fold("x");
    assert Key(UPPER) == "a" && Key(LOWER) == "b" && "a"[0] != "b"[0];
    assert !Shadowed([UPPER, LOWER], UPPER) && !Shadowed([UPPER, LOWER], LOWER) by {
      LessTotal("a", "a");
      LessTotal("b", "b");
    }
  }

  /** Validation compares domains as written: this fleet of two hosts whose
      domains differ in case only compiles, and both answer. */
  lemma CaseTwinsBothAnswer(p: Platform) returns (c: Compiled)
    requires p.parseURL("http://u") == Some(("http", "u"))
    ensures CompilesTo(p, [UPPER, LOWER], [], Success(c))
    ensures {Key(UPPER), Key(LOWER)} <= Answering(c.config, ToDomain("web", "x"))
  {
    hide CompilesTo, Answering, Serves, RouteAt, Key;
    c := TwinsCompile(p);
    BothServe(ToDomain("web", "x"));
    RequestsReachTheirHost(p, [UPPER, LOWER], [], c, ToDomain("web", "x"));
  }
}
