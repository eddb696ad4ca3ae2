/** Turning a fleet's hosts and certificates into Traefik's dynamic
    configuration. The methods are the compiler's loops; each is proved against
    a function of its inputs, and other modules prove what those functions mean. */
module Compiler {
  import opened Wrappers
  import opened Text
  import opened Json
  import opened Model
  import opened Lists
  import opened Sorting
  import opened Middlewares
  import opened Validation

  datatype CompileError =
    | Invalid(errors: seq<ValidationError>)
    | BadMiddleware(host: string, mw: string, cause: MwError)
    | UnknownChainTarget(host: string, mw: string, target: string)

  datatype Compiled = Compiled(config: Value, etag: string)

  // ---------------------------------------------------------------- names

  predicate NameChar(c: char) {
    c == '-' || c == '_' || '0' <= c <= '9' || 'a' <= c <= 'z' || 'A' <= c <= 'Z'
  }

  function Sanitize(s: string): (r: string)
    ensures |r| == |s|
  {
    seq(|s|, i requires 0 <= i < |s| => if NameChar(s[i]) then s[i] else '-')
  }

  /** sanitizeName: ASCII letters, digits, '-' and '_' stay, and every other
      character becomes one dash. */
  method SanitizeName(s: string) returns (b: string)
    ensures b == Sanitize(s)
    ensures |b| == |s| && forall i :: 0 <= i < |s| ==>
      var c := s[i];
      b[i] == if c == '-' || c == '_' || '0' <= c <= '9' || 'a' <= c <= 'z' || 'A' <= c <= 'Z' then c else '-'
  {
    b := "";
    for i := 0 to |s|
      invariant b == Sanitize(s)[..i]
    {
      b := b + [if NameChar(s[i]) then s[i] else '-'];
    }
  }

  function Key(h: ProxyHost): string { Sanitize(h.name) }

  function MangledName(router: string, i: nat, raw: string): string {
    router + "-" + (Decimal(i) + "-" + Sanitize(raw))
  }

  function MwKey(h: ProxyHost, i: nat): string
    requires i < |h.middlewares|
  {
    MangledName(Key(h), i, h.middlewares[i].name)
  }

  function MwKeys(h: ProxyHost): seq<string> {
    seq(|h.middlewares|, i requires 0 <= i < |h.middlewares| => MwKey(h, i))
  }

  /** A host's name in the document is its own, sanitized, and its i-th
      middleware's is that name, the position and the sanitized raw name. */
  lemma NamesAreMangled(h: ProxyHost, i: nat)
    requires i < |h.middlewares|
    ensures |Key(h)| == |h.name| && forall n :: 0 <= n < |h.name| ==>
      var c := h.name[n];
      Key(h)[n] == if c == '-' || c == '_' || '0' <= c <= '9' || 'a' <= c <= 'z' || 'A' <= c <= 'Z' then c else '-'
    ensures MwKeys(h)[i] == Key(h) + "-" + Decimal(i) + "-" + Sanitize(h.middlewares[i].name)
  {
    var k, d, r := Key(h), Decimal(i), Sanitize(h.middlewares[i].name);
    assert k + "-" + (d + "-" + r) == k + "-" + d + "-" + r;
  }

  /** Within one host mangled names never collide, whatever the raw names. */
  lemma MwKeysDistinct(h: ProxyHost, i: nat, j: nat)
    requires i < |h.middlewares| && j < |h.middlewares| && MwKey(h, i) == MwKey(h, j)
    ensures i == j
  {
    var r := Key(h) + "-";
    var x, y := Sanitize(h.middlewares[i].name), Sanitize(h.middlewares[j].name);
    assert MwKey(h, i)[|r|..] == Decimal(i) + "-" + x;
    assert MwKey(h, j)[|r|..] == Decimal(j) + "-" + y;
    DecimalDashInjective(i, j, x, y);
  }

  // ---------------------------------------------------------------- the middlewares of one host

  function RenderedOrNull(p: Platform, mw: Middleware): Value {
    match Render(p, mw) case Success(v) => v case Failure(_) => Null
  }

  // The mangled names that a chain's raw entries stand for.
  function Targets(h: ProxyHost, refs: seq<string>): (r: seq<string>)
    ensures |r| == |refs|
  {
    seq(|refs|, k requires 0 <= k < |refs| =>
      match LastNamed(h.middlewares, refs[k]) case Some(j) => MwKey(h, j) case None => "")
  }

  function ChainBody(names: seq<string>): Value { Obj(map["middlewares" := Strings(names)]) }

  // The definition emitted for the i-th middleware of a host.
  function FinalMw(p: Platform, h: ProxyHost, i: nat): Value
    requires i < |h.middlewares|
  {
    var mw := h.middlewares[i];
    if mw.kind == Chain then Wrap(Chain, ChainBody(Targets(h, RefsOf(mw)))) else RenderedOrNull(p, mw)
  }

  function FinalMws(p: Platform, h: ProxyHost): seq<Value> {
    seq(|h.middlewares|, i requires 0 <= i < |h.middlewares| => FinalMw(p, h, i))
  }

  // The map after writing definitions for the host's first |vals| middlewares.
  function PutMws(base: Object, h: ProxyHost, vals: seq<Value>): Object
    requires |vals| <= |h.middlewares|
  {
    if vals == [] then base
    else PutMws(base, h, vals[..|vals| - 1])[MwKey(h, |vals| - 1) := vals[|vals| - 1]]
  }

  lemma {:induction false} PutMwsAt(base: Object, h: ProxyHost, vals: seq<Value>, k: string)
    requires |vals| <= |h.middlewares|
    ensures k in PutMws(base, h, vals) <==> k in base || exists i :: 0 <= i < |vals| && MwKey(h, i) == k
    ensures forall i :: 0 <= i < |vals| && MwKey(h, i) == k ==> PutMws(base, h, vals)[k] == vals[i]
    ensures (forall i :: 0 <= i < |vals| ==> MwKey(h, i) != k) && k in base ==> PutMws(base, h, vals)[k] == base[k]
  {
    hide MwKey;
    if vals != [] {
      var n := |vals| - 1;
      PutMwsAt(base, h, vals[..n], k);
      if MwKey(h, n) == k {
        forall i | 0 <= i <= n && MwKey(h, i) == k ensures i == n { MwKeysDistinct(h, i, n); }
      }
    }
  }

  lemma PutMwsUpdate(base: Object, h: ProxyHost, vals: seq<Value>, i: nat, v: Value)
    requires i < |vals| <= |h.middlewares|
    ensures PutMws(base, h, vals)[MwKey(h, i) := v] == PutMws(base, h, vals[i := v])
  {
    hide MwKey;
    var a, b := PutMws(base, h, vals)[MwKey(h, i) := v], PutMws(base, h, vals[i := v]);
    forall k ensures k in a <==> k in b
    {
      PutMwsAt(base, h, vals, k);
      PutMwsAt(base, h, vals[i := v], k);
    }
    forall k | k in a ensures a[k] == b[k] {
      PutMwsAt(base, h, vals, k);
      PutMwsAt(base, h, vals[i := v], k);
      if j :| 0 <= j < |vals| && MwKey(h, j) == k {
        if MwKey(h, i) == k { MwKeysDistinct(h, i, j); }
      }
    }
  }

  function HostFault(p: Platform, h: ProxyHost): Option<CompileError> {
    match FirstRenderError(p, h.middlewares)
    case Some((name, cause)) => Some(BadMiddleware(h.name, name, cause))
    case None =>
      match FirstChainError(h.middlewares, h.middlewares)
      case Some((name, target)) => Some(UnknownChainTarget(h.name, name, target))
      case None => None
  }

  function RenderedMws(p: Platform, h: ProxyHost): seq<Value> {
    seq(|h.middlewares|, i requires 0 <= i < |h.middlewares| => RenderedOrNull(p, h.middlewares[i]))
  }

  // Which mangled name each raw name of the first n middlewares stands for.
  ghost predicate NameMapFor(names: map<string, string>, h: ProxyHost, n: nat)
    requires n <= |h.middlewares|
  {
    forall x ::
      && (x in names <==> LastNamed(h.middlewares[..n], x).Some?)
      && (x in names ==> names[x] == MwKey(h, LastNamed(h.middlewares[..n], x).value))
  }

  lemma NameMapSnoc(names: map<string, string>, h: ProxyHost, n: nat)
    requires n < |h.middlewares| && NameMapFor(names, h, n)
    ensures NameMapFor(names[h.middlewares[n].name := MwKey(h, n)], h, n + 1)
  {
    hide MwKey;
    Snoc(h.middlewares, n);
  }

  lemma PutMwsSnoc(base: Object, h: ProxyHost, vals: seq<Value>, n: nat)
    requires n < |vals| == |h.middlewares|
    ensures PutMws(base, h, vals[..n])[MwKey(h, n) := vals[n]] == PutMws(base, h, vals[..n + 1])
  {
    hide MwKey;
    Snoc(vals, n);
  }

  method RenderMiddlewares(p: Platform, h: ProxyHost, base: Object)
    returns (r: Result<(Object, seq<string>, map<string, string>), CompileError>)
    ensures match FirstRenderError(p, h.middlewares)
      case Some((name, cause)) => r == Failure(BadMiddleware(h.name, name, cause))
      case None =>
        (r.Success? && r.value.0 == PutMws(base, h, RenderedMws(p, h)) && r.value.1 == MwKeys(h) &&
         NameMapFor(r.value.2, h, |h.middlewares|))
  {
    hide Render, MwKey, PutMws, NameMapFor;
    var mws := h.middlewares;
    var middlewares, mwNames, nameMap := base, [], map[];
    assert PutMws(base, h, RenderedMws(p, h)[..0]) == base by { PutMwsNone(base, h); }
    assert NameMapFor(nameMap, h, 0) by { EmptyNameMap(h); }
    for i := 0 to |mws|
      invariant FirstRenderError(p, mws[..i]) == None
      invariant middlewares == PutMws(base, h, RenderedMws(p, h)[..i])
      invariant mwNames == MwKeys(h)[..i]
      invariant NameMapFor(nameMap, h, i)
    {
      Snoc(mws, i);
      var mwName := MwKey(h, i);
      var rendered := RenderMiddleware(p, mws[i]);
      if rendered.Failure? {
        FirstRenderErrorStays(p, mws, i + 1);
        return Failure(BadMiddleware(h.name, mws[i].name, rendered.error));
      }
      PutMwsSnoc(base, h, RenderedMws(p, h), i);
      middlewares := middlewares[mwName := rendered.value];
      mwNames := mwNames + [mwName];
      NameMapSnoc(nameMap, h, i);
      nameMap := nameMap[mws[i].name := mwName];
    }
    Whole(mws);
    Whole(MwKeys(h));
    Whole(RenderedMws(p, h));
    r := Success((middlewares, mwNames, nameMap));
  }

  lemma PutMwsNone(base: Object, h: ProxyHost)
    ensures PutMws(base, h, []) == base
  {
  }

  lemma EmptyNameMap(h: ProxyHost)
    ensures NameMapFor(map[], h, 0)
  {
  }

  method ResolveRefs(h: ProxyHost, nameMap: map<string, string>, refs: seq<string>) returns (r: Result<seq<string>, string>)
    requires NameMapFor(nameMap, h, |h.middlewares|)
    ensures match FirstUnknown(h.middlewares, refs)
      case Some(name) => r == Failure(name)
      case None => r == Success(Targets(h, refs))
  {
    hide MwKey, LastNamed;
    Whole(h.middlewares);
    var resolved: seq<string> := [];
    for k := 0 to |refs|
      invariant FirstUnknown(h.middlewares, refs[..k]) == None
      invariant resolved == Targets(h, refs)[..k]
    {
      Snoc(refs, k);
      if refs[k] !in nameMap {
        FirstUnknownStays(h.middlewares, refs, k + 1);
        return Failure(refs[k]);
      }
      resolved := resolved + [nameMap[refs[k]]];
    }
    Whole(refs);
    Whole(Targets(h, refs));
    r := Success(resolved);
  }

  // Rewriting the entries of an emitted chain in place.
  function WithNames(outer: Value, resolved: seq<string>): Value
    requires outer.Obj? && "chain" in outer.fields && outer.fields["chain"].Obj?
  {
    Obj(outer.fields["chain" := Obj(outer.fields["chain"].fields["middlewares" := Strings(resolved)])])
  }

  lemma RewriteChain(refs: seq<string>, resolved: seq<string>)
    ensures var outer := Wrap(Chain, ChainBody(refs));
      && outer.Obj? && "chain" in outer.fields && outer.fields["chain"].Obj?
      && outer.fields["chain"] == ChainBody(refs)
      && WithNames(outer, resolved) == Wrap(Chain, ChainBody(resolved))
  {
    var outer := Wrap(Chain, ChainBody(refs));
    assert outer.fields == map["chain" := ChainBody(refs)];
    assert ChainBody(refs).fields["middlewares" := Strings(resolved)] == ChainBody(resolved).fields;
    assert WithNames(outer, resolved).fields == map["chain" := ChainBody(resolved)];
  }

  // The definitions once the first n chains have been looked at.
  ghost function Resolved(p: Platform, h: ProxyHost, n: nat): (vals: seq<Value>)
    requires n <= |h.middlewares|
    ensures |vals| == |h.middlewares|
  {
    FinalMws(p, h)[..n] + RenderedMws(p, h)[n..]
  }

  lemma ResolvedStep(p: Platform, h: ProxyHost, n: nat)
    requires n < |h.middlewares|
    ensures Resolved(p, h, n + 1) == Resolved(p, h, n)[n := FinalMw(p, h, n)]
    ensures h.middlewares[n].kind != Chain ==> Resolved(p, h, n + 1) == Resolved(p, h, n)
    ensures Resolved(p, h, n)[n] == RenderedOrNull(p, h.middlewares[n])
  {
    hide RenderedOrNull, RefsOf, Targets;
  }

  method ResolveChains(p: Platform, h: ProxyHost, ghost base: Object, rendered: Object, mwNames: seq<string>,
                       nameMap: map<string, string>)
    returns (r: Result<Object, CompileError>)
    requires FirstRenderError(p, h.middlewares) == None
    requires mwNames == MwKeys(h) && NameMapFor(nameMap, h, |h.middlewares|)
    requires rendered == PutMws(base, h, RenderedMws(p, h))
    ensures match FirstChainError(h.middlewares, h.middlewares)
      case Some((name, target)) => r == Failure(UnknownChainTarget(h.name, name, target))
      case None => r == Success(PutMws(base, h, FinalMws(p, h)))
  {
    hide Render, MwKey, LastNamed, Wrap, ChainBody, RefsOf, Targets, WithNames, NameMapFor, PutMws, Resolved, RenderedOrNull;
    var mws := h.middlewares;
    NoRenderError(p, mws);
    var middlewares := rendered;
    assert Resolved(p, h, 0) == RenderedMws(p, h) by { ResolvedEnds(p, h); }
    for i := 0 to |mws|
      invariant FirstChainError(mws, mws[..i]) == None
      invariant middlewares == PutMws(base, h, Resolved(p, h, i))
    {
      Snoc(mws, i);
      ResolvedStep(p, h, i);
      var mw := mws[i];
      if mw.kind != Chain {
        continue;
      }
      var mwName := mwNames[i];
      PutMwsAt(base, h, Resolved(p, h, i), mwName);
      var outer := middlewares[mwName];
      var refs := RefsOf(mw);
      RenderedChainValue(p, mw);
      var resolved := ResolveRefs(h, nameMap, refs);
      if resolved.Failure? {
        FirstChainErrorStays(mws, mws, i + 1);
        return Failure(UnknownChainTarget(h.name, mw.name, resolved.error));
      }
      RewriteChain(refs, resolved.value);
      PutMwsUpdate(base, h, Resolved(p, h, i), i, WithNames(outer, resolved.value));
      middlewares := middlewares[mwName := WithNames(outer, resolved.value)];
    }
    Whole(mws);
    ResolvedEnds(p, h);
    r := Success(middlewares);
  }

  lemma ResolvedEnds(p: Platform, h: ProxyHost)
    ensures Resolved(p, h, 0) == RenderedMws(p, h)
    ensures Resolved(p, h, |h.middlewares|) == FinalMws(p, h)
  {
  }

  lemma RenderedChainValue(p: Platform, mw: Middleware)
    requires mw.kind == Chain && Render(p, mw).Success?
    ensures RenderedOrNull(p, mw) == Wrap(Chain, ChainBody(RefsOf(mw)))
  {
    RenderedChain(p, mw);
  }

  // ---------------------------------------------------------------- routers and services

  function EntryPointsOr(h: ProxyHost, default: string): seq<string> {
    if h.entryPoints == [] then [default] else h.entryPoints
  }

  function RuleFor(matcher: string, domain: string): string {
    matcher + "(`" + domain + "`)"
  }

  function RuledRouter(h: ProxyHost, matcher: string, default: string): Object {
    map[
      "rule" := Str(RuleFor(matcher, h.domain)),
      "entryPoints" := Strings(EntryPointsOr(h, default)),
      "service" := Str(Key(h))
    ]
  }

  // An empty object opts a router into TLS.
  function WithTls(router: Object, h: ProxyHost): Object {
    if h.tls then router["tls" := Obj(map[])] else router
  }

  function HttpRouter(h: ProxyHost): Value {
    var router := RuledRouter(h, "Host", "web");
    var router := if h.middlewares != [] then router["middlewares" := Strings(MwKeys(h))] else router;
    Obj(WithTls(router, h))
  }

  function TcpRouter(h: ProxyHost): Value {
    Obj(WithTls(RuledRouter(h, "HostSNI", "websecure"), h))
  }

  function UdpRouter(h: ProxyHost): Value {
    Obj(map["entryPoints" := Strings(h.entryPoints), "service" := Str(Key(h))])
  }

  function Servers(field: string, urls: seq<string>): Value {
    Arr(seq(|urls|, i requires 0 <= i < |urls| => Obj(map[field := Str(urls[i])])))
  }

  function LoadBalancer(body: Object): Value {
    Obj(map["loadBalancer" := Obj(body)])
  }

  const HEALTH_STRINGS: set<string> := {"interval", "timeout", "scheme", "hostname"}

  function HealthStrings(hc: Object): Object
    requires "path" in hc
  {
    map["path" := hc["path"]] + (map k | k in HEALTH_STRINGS && StrAt(hc, k) != "" :: hc[k])
  }

  function WithPort(block: Object, hc: Object): Object {
    var port := if "port" in hc then IntOf(hc["port"]) else None;
    if port.Some? && port.value > 0 then block["port" := Num(port.value as real)] else block
  }

  function WithRedirects(block: Object, hc: Object): Object {
    if "followRedirects" in hc && hc["followRedirects"].Bool?
    then block["followRedirects" := hc["followRedirects"]] else block
  }

  function HealthCheck(h: ProxyHost): Option<Value> {
    var hc := h.healthCheck;
    if TrimSpace(StrAt(hc, "path")) == "" then None
    else Some(Obj(WithRedirects(WithPort(HealthStrings(hc), hc), hc)))
  }

  function HttpService(h: ProxyHost): Value {
    var lb := map["servers" := Servers("url", EffectiveUpstreams(h))];
    var lb := if h.stickySession then lb["sticky" := Obj(map["cookie" := Obj(map[])])] else lb;
    var lb := if HealthCheck(h).Some? then lb["healthCheck" := HealthCheck(h).value] else lb;
    LoadBalancer(lb)
  }

  function Addresses(urls: seq<string>): seq<string> {
    seq(|urls|, i requires 0 <= i < |urls| => TcpAddress(urls[i]))
  }

  function L4Service(h: ProxyHost): Value {
    LoadBalancer(map["servers" := Servers("address", Addresses(EffectiveUpstreams(h)))])
  }

  // ---------------------------------------------------------------- sections

  // One entry per host under its sanitized name; a later host overwrites.
  function WriteAll(hosts: seq<ProxyHost>, val: ProxyHost -> Value): Object {
    if hosts == [] then map[]
    else WriteAll(hosts[..|hosts| - 1], val)[Key(hosts[|hosts| - 1]) := val(hosts[|hosts| - 1])]
  }

  function AllMws(p: Platform, hosts: seq<ProxyHost>): Object {
    if hosts == [] then map[]
    else
      var h := hosts[|hosts| - 1];
      PutMws(AllMws(p, hosts[..|hosts| - 1]), h, FinalMws(p, h))
  }

  function FirstHostFault(p: Platform, hosts: seq<ProxyHost>): Option<CompileError> {
    if hosts == [] then None
    else match FirstHostFault(p, hosts[..|hosts| - 1])
      case Some(e) => Some(e)
      case None => HostFault(p, hosts[|hosts| - 1])
  }

  lemma {:induction false} FirstHostFaultStays(p: Platform, hosts: seq<ProxyHost>, n: nat)
    requires n <= |hosts| && FirstHostFault(p, hosts[..n]).Some?
    ensures FirstHostFault(p, hosts) == FirstHostFault(p, hosts[..n])
  {
    hide HostFault;
    if n < |hosts| {
      assert hosts[..|hosts| - 1][..n] == hosts[..n];
      FirstHostFaultStays(p, hosts[..|hosts| - 1], n);
    } else {
      assert hosts[..n] == hosts;
    }
  }

  datatype HttpMaps = HttpMaps(routers: Object, services: Object, middlewares: Object)

  function HttpMapsOf(p: Platform, hosts: seq<ProxyHost>): HttpMaps {
    HttpMaps(WriteAll(hosts, HttpRouter), WriteAll(hosts, HttpService), AllMws(p, hosts))
  }

  method CompileHTTP(p: Platform, hosts: seq<ProxyHost>) returns (r: Result<HttpMaps, CompileError>)
    ensures match FirstHostFault(p, hosts)
      case Some(e) => r == Failure(e)
      case None => r == Success(HttpMapsOf(p, hosts))
  {
    hide HttpRouter, HttpService, MwKeys, FirstRenderError, FirstChainError, FinalMws, Key, PutMws, NameMapFor;
    var routers, services, middlewares := map[], map[], map[];
    for n := 0 to |hosts|
      invariant FirstHostFault(p, hosts[..n]) == None
      invariant routers == WriteAll(hosts[..n], HttpRouter) && services == WriteAll(hosts[..n], HttpService)
      invariant middlewares == AllMws(p, hosts[..n])
    {
      Snoc(hosts, n);
      var h := hosts[n];
      var rendered := RenderMiddlewares(p, h, middlewares);
      if rendered.Failure? {
        FirstHostFaultStays(p, hosts, n + 1);
        return Failure(rendered.error);
      }
      var resolved := ResolveChains(p, h, middlewares, rendered.value.0, rendered.value.1, rendered.value.2);
      if resolved.Failure? {
        FirstHostFaultStays(p, hosts, n + 1);
        return Failure(resolved.error);
      }
      middlewares := resolved.value;
      routers := routers[Key(h) := HttpRouter(h)];
      services := services[Key(h) := HttpService(h)];
    }
    Whole(hosts);
    r := Success(HttpMaps(routers, services, middlewares));
  }

  function HttpSection(m: HttpMaps): Value {
    var section := map["routers" := Obj(m.routers), "services" := Obj(m.services)];
    Obj(if m.middlewares != map[] then section["middlewares" := Obj(m.middlewares)] else section)
  }

  function L4Section(hosts: seq<ProxyHost>, router: ProxyHost -> Value): Value {
    Obj(map["routers" := Obj(WriteAll(hosts, router)), "services" := Obj(WriteAll(hosts, L4Service))])
  }

  lemma WriteAllSnoc(hosts: seq<ProxyHost>, val: ProxyHost -> Value, n: nat)
    requires n < |hosts|
    ensures WriteAll(hosts[..n + 1], val) == WriteAll(hosts[..n], val)[Key(hosts[n]) := val(hosts[n])]
  {
    hide Key;
    Snoc(hosts, n);
  }

  method CompileL4(hosts: seq<ProxyHost>, router: ProxyHost -> Value) returns (r: Option<Value>)
    ensures r == if hosts == [] then None else Some(L4Section(hosts, router))
  {
    hide L4Service, Key;
    if |hosts| == 0 {
      return None;
    }
    var routers, services := map[], map[];
    assert hosts[..0] == [] && WriteAll([], router) == map[] && WriteAll([], L4Service) == map[];
    hide WriteAll;
    for n := 0 to |hosts|
      invariant routers == WriteAll(hosts[..n], router) && services == WriteAll(hosts[..n], L4Service)
    {
      WriteAllSnoc(hosts, router, n);
      WriteAllSnoc(hosts, L4Service, n);
      routers := routers[Key(hosts[n]) := router(hosts[n])];
      services := services[Key(hosts[n]) := L4Service(hosts[n])];
    }
    Whole(hosts);
    r := Some(Obj(map["routers" := Obj(routers), "services" := Obj(services)]));
  }

  function PoolEntry(c: Certificate): Value {
    Obj(map["certFile" := Str(c.certPEM), "keyFile" := Str(c.keyPEM)])
  }

  function CertPool(sorted: seq<Certificate>): Value {
    Obj(map["certificates" := Arr(seq(|sorted|, i requires 0 <= i < |sorted| => PoolEntry(sorted[i])))])
  }

  // ---------------------------------------------------------------- the whole document

  predicate IsEnabled(h: ProxyHost) { h.enabled }
  predicate IsHttp(h: ProxyHost) { Proto(h) == HTTP }
  predicate IsTcp(h: ProxyHost) { Proto(h) == TCP }
  predicate IsUdp(h: ProxyHost) { Proto(h) == UDP }

  method FilterHosts(hosts: seq<ProxyHost>, keep: ProxyHost -> bool) returns (r: seq<ProxyHost>)
    ensures r == Filter(hosts, keep)
  {
    r := [];
    for i := 0 to |hosts|
      invariant r == Filter(hosts[..i], keep)
    {
      Snoc(hosts, i);
      if keep(hosts[i]) {
        r := r + [hosts[i]];
      }
    }
    Whole(hosts);
  }

  function Document(http: HttpMaps, tcp: seq<ProxyHost>, udp: seq<ProxyHost>, pool: seq<Certificate>): Value {
    var doc := map["http" := HttpSection(http)];
    var doc := if tcp != [] then doc["tcp" := L4Section(tcp, TcpRouter)] else doc;
    var doc := if udp != [] then doc["udp" := L4Section(udp, UdpRouter)] else doc;
    var doc := if pool != [] then doc["tls" := CertPool(pool)] else doc;
    Obj(doc)
  }

  // The document for the hosts of one protocol each, in the given order.
  function DocumentOf(p: Platform, order: seq<ProxyHost>, pool: seq<Certificate>): Value {
    Document(HttpMapsOf(p, Filter(order, IsHttp)), Filter(order, IsTcp), Filter(order, IsUdp), pool)
  }

  function Emit(p: Platform, order: seq<ProxyHost>, pool: seq<Certificate>): Result<Compiled, CompileError> {
    match FirstHostFault(p, Filter(order, IsHttp))
    case Some(e) => Failure(e)
    case None => var doc := DocumentOf(p, order, pool); Success(Compiled(doc, EtagOf(p, doc)))
  }

  /** What Compile may return: the sorts it uses are not stable, so hosts or
      certificates with equal names could come out in any order. */
  ghost predicate CompilesTo(p: Platform, hosts: seq<ProxyHost>, certs: seq<Certificate>, r: Result<Compiled, CompileError>) {
    if AllErrors(p, hosts) != [] then r == Failure(Invalid(AllErrors(p, hosts)))
    else exists order, pool ::
      IsSortOf(order, Filter(hosts, IsEnabled), HostName) && IsSortOf(pool, certs, CertName) && r == Emit(p, order, pool)
  }

  method Compile(p: Platform, hosts: seq<ProxyHost>, certs: seq<Certificate>) returns (r: Result<Compiled, CompileError>)
    ensures CompilesTo(p, hosts, certs, r)
  {
    hide AllErrors, Publishable, IsSortOf, FirstHostFault, HttpMapsOf, L4Section, HttpSection, CertPool;
    var errs := Validate(p, hosts);
    if errs != [] {
      return Failure(Invalid(errs));
    }
    var enabled := FilterHosts(hosts, IsEnabled);
    var order := SortBy(enabled, HostName);
    var httpHosts := FilterHosts(order, IsHttp);
    var http := CompileHTTP(p, httpHosts);
    if http.Failure? {
      ghost var pool := SortBy(certs, CertName);
      r := Failure(http.error);
      assert r == Emit(p, order, pool);
      return;
    }
    var doc := map["http" := HttpSection(http.value)];
    var tcpHosts := FilterHosts(order, IsTcp);
    var tcp := CompileL4(tcpHosts, TcpRouter);
    if tcp.Some? {
      doc := doc["tcp" := tcp.value];
    }
    var udpHosts := FilterHosts(order, IsUdp);
    var udp := CompileL4(udpHosts, UdpRouter);
    if udp.Some? {
      doc := doc["udp" := udp.value];
    }
    var pool := SortBy(certs, CertName);
    if |pool| > 0 {
      doc := doc["tls" := CertPool(pool)];
    }
    var config := Obj(doc);
    r := Success(Compiled(config, EtagOf(p, config)));
    assert r == Emit(p, order, pool);
  }
}
