/** Structural checks over all hosts of a fleet before compilation. */
module Validation {
  import opened Text
  import opened Model
  import opened Lists
  import opened Sorting

  datatype ValidationError =
    | EmptyName
    | DuplicateName(name: string)
    | UnsupportedProtocol(name: string, protocol: Protocol)
    | InvalidDomain(name: string, domain: string)
    | DomainTaken(name: string, domain: string, owner: string)
    | NoUpstream(name: string)
    | BadUpstream(name: string, url: string)
    | MixedSchemes(name: string)
    | UnsupportedMiddleware(name: string, kind: MwType, mw: string)
    | MiddlewaresNotSupported(name: string)
    | NoEntryPoint(name: string)
    | EntryPointTaken(name: string, entryPoint: string, owner: string)
    | TlsNotSupported(name: string)

  // ---------------------------------------------------------------- field checks

  predicate LabelChar(c: char) {
    c == '-' || '0' <= c <= '9' || 'a' <= c <= 'z' || 'A' <= c <= 'Z'
  }

  predicate LooksLikeDomain(domain: string) {
    var s := TrimSpace(domain);
    && s != "" && |s| <= 253
    && ' ' !in s && '/' !in s && '\\' !in s
    && forall part :: part in Split(s, '.') ==> part != "" && forall c :: c in part ==> LabelChar(c)
  }

  predicate NotBlank(s: string) { TrimSpace(s) != "" }

  function EffectiveUpstreams(h: ProxyHost): seq<string> {
    var listed := Filter(h.upstreamURLs, NotBlank);
    if listed != [] then listed
    else if NotBlank(h.upstreamURL) then [h.upstreamURL]
    else []
  }

  /** The upstreams a host asks for: the entries of its list that are not only
      space, each as often and in the order it stands there; without any, its
      single upstream, unless that is only space too. */
  ghost predicate AsksForUpstreams(h: ProxyHost, urls: seq<string>) {
    if exists u :: u in h.upstreamURLs && !AllSpace(u) then
      && IsSublist(urls, h.upstreamURLs)
      && forall u :: multiset(urls)[u] == if AllSpace(u) then 0 else multiset(h.upstreamURLs)[u]
    else urls == if AllSpace(h.upstreamURL) then [] else [h.upstreamURL]
  }

  lemma NotBlankExact(s: string)
    ensures NotBlank(s) <==> !AllSpace(s)
  {
    hide TrimSpace;
    BlankExact(s);
  }

  lemma ListedExact(xs: seq<string>, urls: seq<string>)
    ensures urls == Filter(xs, NotBlank) <==>
      IsSublist(urls, xs) && forall u :: multiset(urls)[u] == if AllSpace(u) then 0 else multiset(xs)[u]
    ensures Filter(xs, NotBlank) != [] <==> exists u :: u in xs && !AllSpace(u)
  {
    hide NotBlank, AllSpace, IsSublist;
    forall u ensures NotBlank(u) <==> !AllSpace(u) { NotBlankExact(u); }
    FilterExact(urls, xs, NotBlank);
    var listed := Filter(xs, NotBlank);
    if listed != [] { assert listed[0] in listed; }
    if u :| u in xs && !AllSpace(u) { assert u in listed; }
  }

  lemma UpstreamsExact(h: ProxyHost, urls: seq<string>)
    ensures urls == EffectiveUpstreams(h) <==> AsksForUpstreams(h, urls)
  {
    hide NotBlank, AllSpace, IsSublist, Filter;
    NotBlankExact(h.upstreamURL);
    ListedExact(h.upstreamURLs, urls);
  }

  method EffectiveUpstreamURLs(h: ProxyHost) returns (urls: seq<string>)
    ensures urls == EffectiveUpstreams(h)
    ensures AsksForUpstreams(h, urls)
  {
    UpstreamsExact(h, EffectiveUpstreams(h));
    hide TrimSpace, AsksForUpstreams;
    if |h.upstreamURLs| > 0 {
      urls := [];
      for i := 0 to |h.upstreamURLs|
        invariant urls == Filter(h.upstreamURLs[..i], NotBlank)
      {
        Snoc(h.upstreamURLs, i);
        if TrimSpace(h.upstreamURLs[i]) != "" {
          urls := urls + [h.upstreamURLs[i]];
        }
      }
      Whole(h.upstreamURLs);
      if |urls| > 0 {
        return;
      }
    }
    urls := if TrimSpace(h.upstreamURL) != "" then [h.upstreamURL] else [];
  }

  function StripScheme(s: string): string {
    if Prefixed(s) then s[6..] else s
  }

  predicate ContainsSchemeMark(s: string) {
    exists i :: 0 <= i < |s| - 2 && s[i] == ':' && s[i + 1] == '/' && s[i + 2] == '/'
  }

  predicate PortOk(port: string) {
    match Atoi(port) case Some(n) => 1 <= n <= 65535 case None => false
  }

  predicate TcpUpstreamOk(p: Platform, s: string) {
    var t := StripScheme(TrimSpace(s));
    && TrimSpace(s) != ""
    && !ContainsSchemeMark(t)
    && p.splitHostPort(t).Some?
    && p.splitHostPort(t).value.0 != ""
    && p.splitHostPort(t).value.1 != ""
    && PortOk(p.splitHostPort(t).value.1)
  }

  predicate HttpUpstreamOk(p: Platform, s: string) {
    && TrimSpace(s) != ""
    && p.parseURL(s).Some?
    && (p.parseURL(s).value.0 == "http" || p.parseURL(s).value.0 == "https")
    && p.parseURL(s).value.1 != ""
  }

  /** The scheme that the mixed-scheme check sees: only a literal prefix counts. */
  predicate WritesHttps(u: string) { HasPrefix(u, "https://") }

  /** The address a TCP or UDP service gets. */
  function TcpAddress(s: string): string { StripScheme(s) }

  predicate Prefixed(s: string) { HasPrefix(s, "tcp://") || HasPrefix(s, "udp://") }

  /** The address in a TCP or UDP upstream: what follows a tcp or udp scheme. */
  ghost predicate IsAddressOf(u: string, a: string) {
    if |u| >= 6 && (u[..6] == "tcp://" || u[..6] == "udp://") then u == u[..6] + a else a == u
  }

  lemma StripSchemeExact(u: string, a: string)
    ensures StripScheme(u) == a <==> IsAddressOf(u, a)
  {
    var t, d := "tcp://", "udp://";
    assert |t| == 6 && |d| == 6;
    if |u| >= 6 {
      assert HasPrefix(u, t) <==> u[..6] == t;
      assert HasPrefix(u, d) <==> u[..6] == d;
      assert u == u[..6] + u[6..];
    }
  }

  /** The address emitted for an upstream is the text that was checked exactly
      when the upstream has no surrounding space: the check trims, the emitter
      does not. */
  lemma EmittedAddressWasChecked(s: string)
    ensures TcpAddress(s) == StripScheme(TrimSpace(s)) <==> Trimmed(s)
  {
    TrimSpaceFixpoint(s);
    if TrimSpace(s) != s && Prefixed(s) {
      PrefixSurvivesTrim(s);
    }
  }

  lemma PrefixSurvivesTrim(s: string)
    requires Prefixed(s)
    ensures Prefixed(TrimSpace(s))
  {
    hide IsSpace;
    var r := TrimRight(s);
    assert !IsSpace(s[0]) && !IsSpace(s[5]) by { LettersAreNotSpace(s[0]); LettersAreNotSpace(s[5]); }
    TrimRightKeeps(s, 5);
    assert r[..6] == s[..6];
    assert TrimLeft(r) == r;
  }

  lemma LettersAreNotSpace(c: char)
    ensures 'a' <= c <= 'z' || c == '/' ==> !IsSpace(c)
  {
  }

  lemma {:induction false} TrimRightKeeps(s: string, i: nat)
    requires i < |s| && !IsSpace(s[i])
    ensures |TrimRight(s)| > i
  {
    if IsSpace(s[|s| - 1]) { TrimRightKeeps(s[..|s| - 1], i); }
  }

  // ---------------------------------------------------------------- what the loops accumulate

  // First come, first served: a claim is only recorded when it is new.
  function Claim(owners: map<string, string>, key: string, name: string): map<string, string> {
    if key in owners then owners else owners[key := name]
  }

  function ClaimAll(owners: map<string, string>, keys: seq<string>, name: string): map<string, string> {
    if keys == [] then owners
    else Claim(ClaimAll(owners, keys[..|keys| - 1], name), keys[|keys| - 1], name)
  }

  function ClaimErrors(owners: map<string, string>, keys: seq<string>, name: string): seq<ValidationError> {
    if keys == [] then []
    else
      var before, k := ClaimAll(owners, keys[..|keys| - 1], name), keys[|keys| - 1];
      ClaimErrors(owners, keys[..|keys| - 1], name) +
      if k in before then [EntryPointTaken(name, k, before[k])] else []
  }

  datatype Scheme = Unknown | PlainHttp | Https

  // Upstream errors of an HTTP host from position i on, given the scheme seen
  // so far. A scheme clash ends the scan.
  function UpstreamErrors(p: Platform, name: string, urls: seq<string>, i: nat, scheme: Scheme): seq<ValidationError>
    requires i <= |urls|
    decreases |urls| - i
  {
    if i == |urls| then []
    else if !HttpUpstreamOk(p, urls[i]) then
      [BadUpstream(name, urls[i])] + UpstreamErrors(p, name, urls, i + 1, scheme)
    else
      var s := if WritesHttps(urls[i]) then Https else PlainHttp;
      if scheme == Unknown then UpstreamErrors(p, name, urls, i + 1, s)
      else if scheme != s then [MixedSchemes(name)]
      else UpstreamErrors(p, name, urls, i + 1, scheme)
  }

  function MwTypeErrors(name: string, mws: seq<Middleware>): seq<ValidationError> {
    if mws == [] then []
    else
      var mw := mws[|mws| - 1];
      MwTypeErrors(name, mws[..|mws| - 1]) +
      if mw.kind.Unsupported? then [UnsupportedMiddleware(name, mw.kind, mw.name)] else []
  }

  function L4UpstreamErrors(p: Platform, name: string, urls: seq<string>): seq<ValidationError> {
    if urls == [] then []
    else
      L4UpstreamErrors(p, name, urls[..|urls| - 1]) +
      if TcpUpstreamOk(p, urls[|urls| - 1]) then [] else [BadUpstream(name, urls[|urls| - 1])]
  }

  function DomainErrors(h: ProxyHost, domainOk: bool, owners: map<string, string>): seq<ValidationError> {
    (if domainOk then [] else [InvalidDomain(h.name, h.domain)]) +
    (if h.domain in owners then [DomainTaken(h.name, h.domain, owners[h.domain])] else [])
  }

  function NoUpstreamErrors(h: ProxyHost): seq<ValidationError> {
    if EffectiveUpstreams(h) == [] then [NoUpstream(h.name)] else []
  }

  function HttpErrors(p: Platform, h: ProxyHost, owners: map<string, string>): seq<ValidationError> {
    DomainErrors(h, LooksLikeDomain(h.domain), owners) + NoUpstreamErrors(h) +
    UpstreamErrors(p, h.name, EffectiveUpstreams(h), 0, Unknown) + MwTypeErrors(h.name, h.middlewares)
  }

  function NoMiddlewareErrors(h: ProxyHost): seq<ValidationError> {
    if h.middlewares != [] then [MiddlewaresNotSupported(h.name)] else []
  }

  function L4Errors(p: Platform, h: ProxyHost): seq<ValidationError> {
    NoUpstreamErrors(h) + L4UpstreamErrors(p, h.name, EffectiveUpstreams(h))
  }

  function TcpErrors(p: Platform, h: ProxyHost, owners: map<string, string>): seq<ValidationError> {
    DomainErrors(h, h.domain == "*" || LooksLikeDomain(h.domain), owners) + L4Errors(p, h) + NoMiddlewareErrors(h)
  }

  function EntryPointErrors(h: ProxyHost, owners: map<string, string>): seq<ValidationError> {
    (if h.entryPoints == [] then [NoEntryPoint(h.name)] else []) + ClaimErrors(owners, h.entryPoints, h.name)
  }

  function UdpErrors(p: Platform, h: ProxyHost, owners: map<string, string>): seq<ValidationError> {
    EntryPointErrors(h, owners) + L4Errors(p, h) +
    (if h.tls then [TlsNotSupported(h.name)] else []) + NoMiddlewareErrors(h)
  }

  datatype Seen = Seen(names: set<string>, http: map<string, string>, tcp: map<string, string>, udp: map<string, string>)

  const NOTHING_SEEN := Seen({}, map[], map[], map[])

  function SeeHost(seen: Seen, h: ProxyHost): Seen {
    if !NotBlank(h.name) then seen
    else
      var s := seen.(names := seen.names + {h.name});
      if !h.enabled then s
      else match Proto(h)
        case HTTP => s.(http := Claim(s.http, h.domain, h.name))
        case TCP => s.(tcp := Claim(s.tcp, h.domain, h.name))
        case UDP => s.(udp := ClaimAll(s.udp, h.entryPoints, h.name))
        case _ => s
  }

  function ProtocolErrors(p: Platform, seen: Seen, h: ProxyHost): seq<ValidationError> {
    if !h.enabled then []
    else match Proto(h)
      case HTTP => HttpErrors(p, h, seen.http)
      case TCP => TcpErrors(p, h, seen.tcp)
      case UDP => UdpErrors(p, h, seen.udp)
      case _ => [UnsupportedProtocol(h.name, Proto(h))]
  }

  function HostErrors(p: Platform, seen: Seen, h: ProxyHost): seq<ValidationError> {
    if !NotBlank(h.name) then [EmptyName]
    else (if h.name in seen.names then [DuplicateName(h.name)] else []) + ProtocolErrors(p, seen, h)
  }

  function SeenIn(hosts: seq<ProxyHost>): Seen {
    if hosts == [] then NOTHING_SEEN else SeeHost(SeenIn(hosts[..|hosts| - 1]), hosts[|hosts| - 1])
  }

  function AllErrors(p: Platform, hosts: seq<ProxyHost>): seq<ValidationError> {
    if hosts == [] then []
    else
      var init := hosts[..|hosts| - 1];
      AllErrors(p, init) + HostErrors(p, SeenIn(init), hosts[|hosts| - 1])
  }

  // ---------------------------------------------------------------- the loops themselves

  method ValidateHTTP(p: Platform, h: ProxyHost, seen: map<string, string>)
    returns (seen': map<string, string>, found: seq<ValidationError>)
    ensures seen' == Claim(seen, h.domain, h.name)
    ensures found == HttpErrors(p, h, seen)
  {
    hide LooksLikeDomain, HttpUpstreamOk, EffectiveUpstreams;
    seen', found := ClaimDomain(h, LooksLikeDomain(h.domain), seen);
    var urls := EffectiveUpstreamURLs(h);
    if |urls| == 0 {
      found := found + [NoUpstream(h.name)];
    }
    assert found == DomainErrors(h, LooksLikeDomain(h.domain), seen) + NoUpstreamErrors(h);
    var upstream := ScanUpstreams(p, h.name, urls);
    found := found + upstream;
    var types := ScanTypes(h);
    found := found + types;
  }

  method ScanUpstreams(p: Platform, name: string, urls: seq<string>) returns (found: seq<ValidationError>)
    ensures found == UpstreamErrors(p, name, urls, 0, Unknown)
  {
    hide HttpUpstreamOk;
    found := [];
    var scheme, i := Unknown, 0;
    ghost var total := UpstreamErrors(p, name, urls, 0, Unknown);
    while i < |urls|
      invariant 0 <= i <= |urls|
      invariant found + UpstreamErrors(p, name, urls, i, scheme) == total
    {
      if !HttpUpstreamOk(p, urls[i]) {
        assert found + ([BadUpstream(name, urls[i])] + UpstreamErrors(p, name, urls, i + 1, scheme)) ==
               (found + [BadUpstream(name, urls[i])]) + UpstreamErrors(p, name, urls, i + 1, scheme);
        found := found + [BadUpstream(name, urls[i])];
        i := i + 1;
        continue;
      }
      var s := if WritesHttps(urls[i]) then Https else PlainHttp;
      if scheme == Unknown {
        scheme := s;
      } else if scheme != s {
        found := found + [MixedSchemes(name)];
        return;
      }
      i := i + 1;
    }
  }

  method ScanTypes(h: ProxyHost) returns (found: seq<ValidationError>)
    ensures found == MwTypeErrors(h.name, h.middlewares)
  {
    found := [];
    for k := 0 to |h.middlewares|
      invariant found == MwTypeErrors(h.name, h.middlewares[..k])
    {
      Snoc(h.middlewares, k);
      if h.middlewares[k].kind.Unsupported? {
        found := found + [UnsupportedMiddleware(h.name, h.middlewares[k].kind, h.middlewares[k].name)];
      }
    }
    Whole(h.middlewares);
  }

  // The domain checks that the HTTP and TCP validators share.
  method ClaimDomain(h: ProxyHost, domainOk: bool, seen: map<string, string>)
    returns (seen': map<string, string>, found: seq<ValidationError>)
    ensures seen' == Claim(seen, h.domain, h.name)
    ensures found == DomainErrors(h, domainOk, seen)
  {
    seen', found := seen, [];
    if !domainOk {
      found := [InvalidDomain(h.name, h.domain)];
    }
    if h.domain in seen {
      found := found + [DomainTaken(h.name, h.domain, seen[h.domain])];
    } else {
      seen' := seen[h.domain := h.name];
    }
  }

  // The upstream checks that the TCP and UDP validators share.
  method CheckL4Upstreams(p: Platform, h: ProxyHost) returns (found: seq<ValidationError>)
    ensures found == L4Errors(p, h)
  {
    hide TcpUpstreamOk, EffectiveUpstreams;
    var urls := EffectiveUpstreamURLs(h);
    found := if |urls| == 0 then [NoUpstream(h.name)] else [];
    for i := 0 to |urls|
      invariant found == NoUpstreamErrors(h) + L4UpstreamErrors(p, h.name, urls[..i])
    {
      Snoc(urls, i);
      if !TcpUpstreamOk(p, urls[i]) {
        found := found + [BadUpstream(h.name, urls[i])];
      }
    }
    Whole(urls);
  }

  method ValidateTCP(p: Platform, h: ProxyHost, seen: map<string, string>)
    returns (seen': map<string, string>, found: seq<ValidationError>)
    ensures seen' == Claim(seen, h.domain, h.name)
    ensures found == TcpErrors(p, h, seen)
  {
    hide L4Errors, DomainErrors, LooksLikeDomain;
    seen', found := ClaimDomain(h, h.domain == "*" || LooksLikeDomain(h.domain), seen);
    var upstream := CheckL4Upstreams(p, h);
    found := found + upstream;
    if |h.middlewares| > 0 {
      found := found + [MiddlewaresNotSupported(h.name)];
    }
  }

  method ClaimEntryPoints(h: ProxyHost, seen: map<string, string>)
    returns (seen': map<string, string>, found: seq<ValidationError>)
    ensures seen' == ClaimAll(seen, h.entryPoints, h.name)
    ensures found == EntryPointErrors(h, seen)
  {
    seen', found := seen, [];
    if |h.entryPoints| == 0 {
      found := [NoEntryPoint(h.name)];
    }
    ghost var first := found;
    for i := 0 to |h.entryPoints|
      invariant seen' == ClaimAll(seen, h.entryPoints[..i], h.name)
      invariant found == first + ClaimErrors(seen, h.entryPoints[..i], h.name)
    {
      Snoc(h.entryPoints, i);
      var ep := h.entryPoints[i];
      if ep in seen' {
        found := found + [EntryPointTaken(h.name, ep, seen'[ep])];
      } else {
        seen' := seen'[ep := h.name];
      }
    }
    Whole(h.entryPoints);
  }

  method ValidateUDP(p: Platform, h: ProxyHost, seen: map<string, string>)
    returns (seen': map<string, string>, found: seq<ValidationError>)
    ensures seen' == ClaimAll(seen, h.entryPoints, h.name)
    ensures found == UdpErrors(p, h, seen)
  {
    hide L4Errors, EntryPointErrors;
    seen', found := ClaimEntryPoints(h, seen);
    var upstream := CheckL4Upstreams(p, h);
    found := found + upstream;
    if h.tls {
      found := found + [TlsNotSupported(h.name)];
    }
    if |h.middlewares| > 0 {
      found := found + [MiddlewaresNotSupported(h.name)];
    }
  }

  // The body of the validation loop.
  method ValidateHost(p: Platform, h: ProxyHost, seen: Seen) returns (seen': Seen, found: seq<ValidationError>)
    ensures seen' == SeeHost(seen, h)
    ensures found == HostErrors(p, seen, h)
  {
    hide HttpErrors, TcpErrors, UdpErrors, ClaimAll, Claim;
    seen', found := seen, [];
    if !NotBlank(h.name) {
      found := [EmptyName];
      return;
    }
    if h.name in seen.names {
      found := [DuplicateName(h.name)];
    }
    seen' := seen.(names := seen.names + {h.name});
    if !h.enabled {
      return;
    }
    var errs: seq<ValidationError>;
    match Proto(h) {
      case HTTP =>
        var http, e := ValidateHTTP(p, h, seen'.http);
        seen', errs := seen'.(http := http), e;
      case TCP =>
        var tcp, e := ValidateTCP(p, h, seen'.tcp);
        seen', errs := seen'.(tcp := tcp), e;
      case UDP =>
        var udp, e := ValidateUDP(p, h, seen'.udp);
        seen', errs := seen'.(udp := udp), e;
      case _ =>
        errs := [UnsupportedProtocol(h.name, Proto(h))];
    }
    found := found + errs;
  }

  /** Validate: every error over all hosts, and none exactly on publishable fleets. */
  method Validate(p: Platform, hosts: seq<ProxyHost>) returns (errs: seq<ValidationError>)
    ensures errs == AllErrors(p, hosts)
    ensures errs == [] <==> Publishable(p, hosts)
  {
    hide HostErrors, SeeHost, Publishable;
    errs := [];
    var seen := NOTHING_SEEN;
    for i := 0 to |hosts|
      invariant seen == SeenIn(hosts[..i])
      invariant errs == AllErrors(p, hosts[..i])
    {
      Snoc(hosts, i);
      var found;
      seen, found := ValidateHost(p, hosts[i], seen);
      errs := errs + found;
    }
    Whole(hosts);
    ValidateExact(p, hosts);
  }

  // ---------------------------------------------------------------- what is accepted, declaratively

  ghost predicate OneScheme(urls: seq<string>) {
    forall i, j :: 0 <= i < j < |urls| ==> (WritesHttps(urls[i]) <==> WritesHttps(urls[j]))
  }

  ghost predicate NoDuplicates(xs: seq<string>) {
    forall i, j :: 0 <= i < j < |xs| ==> xs[i] != xs[j]
  }

  ghost predicate HttpHostOk(p: Platform, h: ProxyHost) {
    var urls := EffectiveUpstreams(h);
    && LooksLikeDomain(h.domain)
    && urls != [] && OneScheme(urls) && (forall i :: 0 <= i < |urls| ==> HttpUpstreamOk(p, urls[i]))
    && (forall i :: 0 <= i < |h.middlewares| ==> !h.middlewares[i].kind.Unsupported?)
  }

  ghost predicate L4HostOk(p: Platform, h: ProxyHost) {
    var urls := EffectiveUpstreams(h);
    urls != [] && (forall i :: 0 <= i < |urls| ==> TcpUpstreamOk(p, urls[i])) && h.middlewares == []
  }

  /** What is required of one host alone. */
  ghost predicate HostOk(p: Platform, h: ProxyHost) {
    && NotBlank(h.name)
    && (h.enabled ==> match Proto(h)
         case HTTP => HttpHostOk(p, h)
         case TCP => L4HostOk(p, h) && (h.domain == "*" || LooksLikeDomain(h.domain))
         case UDP => L4HostOk(p, h) && h.entryPoints != [] && NoDuplicates(h.entryPoints) && !h.tls
         case _ => false)
  }

  ghost predicate ShareEntryPoint(a: ProxyHost, b: ProxyHost) {
    exists ep :: ep in a.entryPoints && ep in b.entryPoints
  }

  /** What is required of two hosts of one fleet. */
  ghost predicate Coexist(a: ProxyHost, b: ProxyHost) {
    && a.name != b.name
    && (a.enabled && b.enabled && Proto(a) == Proto(b) ==>
         if Proto(a) == UDP then !ShareEntryPoint(a, b) else a.domain != b.domain)
  }

  ghost predicate Publishable(p: Platform, hosts: seq<ProxyHost>) {
    && (forall i :: 0 <= i < |hosts| ==> HostOk(p, hosts[i]))
    && (forall i, j :: 0 <= i < j < |hosts| ==> Coexist(hosts[i], hosts[j]))
  }

  // ---------------------------------------------------------------- the loops decide the declaration

  lemma {:induction false} UpstreamErrorsExact(p: Platform, name: string, urls: seq<string>, i: nat, scheme: Scheme)
    requires i <= |urls|
    ensures UpstreamErrors(p, name, urls, i, scheme) == [] <==>
      && (forall k :: i <= k < |urls| ==> HttpUpstreamOk(p, urls[k]))
      && (forall k :: i <= k < |urls| && scheme == PlainHttp ==> !WritesHttps(urls[k]))
      && (forall k :: i <= k < |urls| && scheme == Https ==> WritesHttps(urls[k]))
      && (forall j, k :: i <= j < k < |urls| ==> (WritesHttps(urls[j]) <==> WritesHttps(urls[k])))
    decreases |urls| - i
  {
    hide HttpUpstreamOk, WritesHttps;
    if i < |urls| {
      var s := if WritesHttps(urls[i]) then Https else PlainHttp;
      UpstreamErrorsExact(p, name, urls, i + 1, if scheme == Unknown then s else scheme);
    }
  }

  lemma {:induction false} MwTypeErrorsExact(name: string, mws: seq<Middleware>)
    ensures MwTypeErrors(name, mws) == [] <==> forall i :: 0 <= i < |mws| ==> !mws[i].kind.Unsupported?
  {
    if mws != [] {
      var n := |mws| - 1;
      MwTypeErrorsExact(name, mws[..n]);
      assert MwTypeErrors(name, mws) == [] <==> MwTypeErrors(name, mws[..n]) == [] && !mws[n].kind.Unsupported?;
    }
  }

  lemma {:induction false} L4UpstreamErrorsExact(p: Platform, name: string, urls: seq<string>)
    ensures L4UpstreamErrors(p, name, urls) == [] <==> forall i :: 0 <= i < |urls| ==> TcpUpstreamOk(p, urls[i])
  {
    hide TcpUpstreamOk;
    if urls != [] {
      var n := |urls| - 1;
      L4UpstreamErrorsExact(p, name, urls[..n]);
      assert L4UpstreamErrors(p, name, urls) == [] <==> L4UpstreamErrors(p, name, urls[..n]) == [] && TcpUpstreamOk(p, urls[n]);
    }
  }

  lemma {:induction false} ClaimAllKeys(owners: map<string, string>, keys: seq<string>, name: string)
    ensures forall k :: k in ClaimAll(owners, keys, name) <==> k in owners || k in keys
  {
    if keys != [] {
      var init := keys[..|keys| - 1];
      ClaimAllKeys(owners, init, name);
      assert keys == init + [keys[|keys| - 1]];
    }
  }

  lemma NoDuplicatesSnoc(keys: seq<string>, n: nat)
    requires n + 1 == |keys|
    ensures NoDuplicates(keys) <==> NoDuplicates(keys[..n]) && keys[n] !in keys[..n]
  {
    if NoDuplicates(keys[..n]) && keys[n] !in keys[..n] {
      forall i, j | 0 <= i < j < |keys| ensures keys[i] != keys[j] {
        assert keys[i] == keys[..n][i];
      }
    }
  }

  ghost predicate Avoids(keys: seq<string>, owners: map<string, string>) {
    forall i :: 0 <= i < |keys| ==> keys[i] !in owners
  }

  lemma AvoidsSnoc(keys: seq<string>, owners: map<string, string>)
    requires keys != []
    ensures var n := |keys| - 1; Avoids(keys, owners) <==> Avoids(keys[..n], owners) && keys[n] !in owners
  {
    var n := |keys| - 1;
    assert forall i :: 0 <= i < n ==> keys[..n][i] == keys[i];
  }

  lemma {:induction false} ClaimErrorsExact(owners: map<string, string>, keys: seq<string>, name: string)
    ensures ClaimErrors(owners, keys, name) == [] <==> NoDuplicates(keys) && Avoids(keys, owners)
    ensures forall k :: k in ClaimAll(owners, keys, name) <==> k in owners || k in keys
  {
    ClaimAllKeys(owners, keys, name);
    if keys != [] {
      hide NoDuplicates, ClaimAll, Avoids, ClaimErrors;
      var n := |keys| - 1;
      ClaimErrorsExact(owners, keys[..n], name);
      NoDuplicatesSnoc(keys, n);
      AvoidsSnoc(keys, owners);
      ClaimErrorsSnoc(owners, keys, name);
    } else {
      assert NoDuplicates(keys);
    }
  }

  lemma ClaimErrorsSnoc(owners: map<string, string>, keys: seq<string>, name: string)
    requires keys != []
    ensures var n := |keys| - 1;
      ClaimErrors(owners, keys, name) == [] <==>
        ClaimErrors(owners, keys[..n], name) == [] && keys[n] !in ClaimAll(owners, keys[..n], name)
  {
    hide ClaimAll;
  }

  lemma HttpErrorsExact(p: Platform, h: ProxyHost, owners: map<string, string>)
    ensures HttpErrors(p, h, owners) == [] <==> HttpHostOk(p, h) && h.domain !in owners
  {
    hide LooksLikeDomain, HttpUpstreamOk, EffectiveUpstreams, UpstreamErrors, MwTypeErrors, WritesHttps;
    UpstreamErrorsExact(p, h.name, EffectiveUpstreams(h), 0, Unknown);
    MwTypeErrorsExact(h.name, h.middlewares);
  }

  lemma TcpErrorsExact(p: Platform, h: ProxyHost, owners: map<string, string>)
    ensures TcpErrors(p, h, owners) == [] <==>
      L4HostOk(p, h) && (h.domain == "*" || LooksLikeDomain(h.domain)) && h.domain !in owners
  {
    hide LooksLikeDomain, TcpUpstreamOk, EffectiveUpstreams, L4UpstreamErrors;
    L4UpstreamErrorsExact(p, h.name, EffectiveUpstreams(h));
  }

  lemma UdpErrorsExact(p: Platform, h: ProxyHost, owners: map<string, string>)
    ensures UdpErrors(p, h, owners) == [] <==>
      L4HostOk(p, h) && h.entryPoints != [] && NoDuplicates(h.entryPoints) && !h.tls && Avoids(h.entryPoints, owners)
  {
    hide TcpUpstreamOk, EffectiveUpstreams, L4UpstreamErrors, ClaimErrors, ClaimAll, NoDuplicates, Avoids;
    L4UpstreamErrorsExact(p, h.name, EffectiveUpstreams(h));
    ClaimErrorsExact(owners, h.entryPoints, h.name);
  }

  /** Errors of one host against what came before it, declaratively. */
  lemma HostErrorsExact(p: Platform, seen: Seen, h: ProxyHost)
    ensures HostErrors(p, seen, h) == [] <==>
      && HostOk(p, h) && h.name !in seen.names
      && (h.enabled && Proto(h) == HTTP ==> h.domain !in seen.http)
      && (h.enabled && Proto(h) == TCP ==> h.domain !in seen.tcp)
      && (h.enabled && Proto(h) == UDP ==> forall ep :: ep in h.entryPoints ==> ep !in seen.udp)
  {
    hide HttpErrors, TcpErrors, UdpErrors, HttpHostOk, L4HostOk, LooksLikeDomain, NoDuplicates, NotBlank;
    HttpErrorsExact(p, h, seen.http);
    TcpErrorsExact(p, h, seen.tcp);
    UdpErrorsExact(p, h, seen.udp);
    AvoidsAll(h.entryPoints, seen.udp);
  }

  lemma AvoidsAll(keys: seq<string>, owners: map<string, string>)
    ensures Avoids(keys, owners) <==> forall k :: k in keys ==> k !in owners
  {
  }

  // Host i of the list claims a key of one of the maps.
  ghost predicate Names(h: ProxyHost, name: string) { NotBlank(h.name) && h.name == name }
  ghost predicate ClaimsDomain(h: ProxyHost, proto: Protocol, domain: string) {
    NotBlank(h.name) && h.enabled && Proto(h) == proto && h.domain == domain
  }
  ghost predicate ClaimsEntryPoint(h: ProxyHost, ep: string) {
    NotBlank(h.name) && h.enabled && Proto(h) == UDP && ep in h.entryPoints
  }

  ghost predicate SomeNames(hosts: seq<ProxyHost>, name: string) {
    exists i :: 0 <= i < |hosts| && Names(hosts[i], name)
  }
  ghost predicate SomeDomain(hosts: seq<ProxyHost>, proto: Protocol, domain: string) {
    exists i :: 0 <= i < |hosts| && ClaimsDomain(hosts[i], proto, domain)
  }
  ghost predicate SomeEntryPoint(hosts: seq<ProxyHost>, ep: string) {
    exists i :: 0 <= i < |hosts| && ClaimsEntryPoint(hosts[i], ep)
  }

  lemma SomeSnoc(hosts: seq<ProxyHost>)
    requires hosts != []
    ensures var n := |hosts| - 1; var init, h := hosts[..n], hosts[n];
      && (forall x :: SomeNames(hosts, x) <==> SomeNames(init, x) || Names(h, x))
      && (forall k, x :: SomeDomain(hosts, k, x) <==> SomeDomain(init, k, x) || ClaimsDomain(h, k, x))
      && (forall x :: SomeEntryPoint(hosts, x) <==> SomeEntryPoint(init, x) || ClaimsEntryPoint(h, x))
  {
    hide Names, ClaimsDomain, ClaimsEntryPoint;
    var n := |hosts| - 1;
    assert forall i :: 0 <= i < n ==> hosts[..n][i] == hosts[i];
  }

  lemma SeenStep(seen: Seen, h: ProxyHost)
    ensures var after := SeeHost(seen, h);
      && (forall x :: x in after.names <==> x in seen.names || Names(h, x))
      && (forall x :: x in after.http <==> x in seen.http || ClaimsDomain(h, HTTP, x))
      && (forall x :: x in after.tcp <==> x in seen.tcp || ClaimsDomain(h, TCP, x))
      && (forall x :: x in after.udp <==> x in seen.udp || ClaimsEntryPoint(h, x))
  {
    hide NotBlank, ClaimAll, ClaimErrors;
    ClaimErrorsExact(seen.udp, h.entryPoints, h.name);
  }

  lemma {:induction false} SeenExact(hosts: seq<ProxyHost>)
    ensures forall x :: x in SeenIn(hosts).names <==> SomeNames(hosts, x)
    ensures forall x :: x in SeenIn(hosts).http <==> SomeDomain(hosts, HTTP, x)
    ensures forall x :: x in SeenIn(hosts).tcp <==> SomeDomain(hosts, TCP, x)
    ensures forall x :: x in SeenIn(hosts).udp <==> SomeEntryPoint(hosts, x)
  {
    if hosts != [] {
      hide Names, ClaimsDomain, ClaimsEntryPoint, SeeHost, SomeNames, SomeDomain, SomeEntryPoint;
      var n := |hosts| - 1;
      SeenExact(hosts[..n]);
      SeenStep(SeenIn(hosts[..n]), hosts[n]);
      SomeSnoc(hosts);
    }
  }

  /** The looping validation accepts exactly the fleets that satisfy the
      pairwise declaration. */
  lemma {:induction false} ValidateExact(p: Platform, hosts: seq<ProxyHost>)
    ensures AllErrors(p, hosts) == [] <==> Publishable(p, hosts)
  {
    hide HostErrors, HostOk, Coexist, SeenIn;
    if hosts != [] {
      var n := |hosts| - 1;
      var init, h := hosts[..n], hosts[n];
      ValidateExact(p, init);
      HostErrorsExact(p, SeenIn(init), h);
      SeenExact(init);
      assert forall i :: 0 <= i < n ==> init[i] == hosts[i];
      if Publishable(p, init) && HostOk(p, h) {
        NothingSeenIffCoexist(p, init, h);
      }
      assert Publishable(p, hosts) <==>
        Publishable(p, init) && HostOk(p, h) && forall i :: 0 <= i < n ==> Coexist(init[i], h);
    }
  }

  lemma NothingSeenIffCoexist(p: Platform, init: seq<ProxyHost>, h: ProxyHost)
    requires Publishable(p, init) && HostOk(p, h)
    ensures (forall i :: 0 <= i < |init| ==> Coexist(init[i], h)) <==>
      var seen := SeenIn(init);
      && h.name !in seen.names
      && (h.enabled && Proto(h) == HTTP ==> h.domain !in seen.http)
      && (h.enabled && Proto(h) == TCP ==> h.domain !in seen.tcp)
      && (h.enabled && Proto(h) == UDP ==> forall ep :: ep in h.entryPoints ==> ep !in seen.udp)
  {
    SeenExact(init);
    assert forall i :: 0 <= i < |init| ==> HostOk(p, init[i]);
    if forall i :: 0 <= i < |init| ==> Coexist(init[i], h) {
    } else {
      var i :| 0 <= i < |init| && !Coexist(init[i], h);
      assert Names(init[i], init[i].name);
    }
  }

  // ---------------------------------------------------------------- closure

  /** Leaving hosts out of a publishable fleet keeps it publishable. */
  lemma SublistPublishable(p: Platform, sub: seq<ProxyHost>, hosts: seq<ProxyHost>)
    requires Publishable(p, hosts) && IsSublist(sub, hosts)
    ensures Publishable(p, sub)
  {
    forall i | 0 <= i < |sub| ensures HostOk(p, sub[i]) { SublistIndex(sub, hosts, i); }
    forall i, j | 0 <= i < j < |sub| ensures Coexist(sub[i], sub[j]) {
      var m, n := SublistPair(sub, hosts, i, j);
    }
  }

  lemma CoexistSymmetric(a: ProxyHost, b: ProxyHost)
    ensures Coexist(a, b) <==> Coexist(b, a)
  {
  }

  /** Acceptance does not depend on the order of the hosts. */
  lemma PublishablePermute(p: Platform, xs: seq<ProxyHost>, ys: seq<ProxyHost>)
    requires multiset(xs) == multiset(ys) && Publishable(p, xs)
    ensures Publishable(p, ys)
  {
    forall i | 0 <= i < |ys| ensures HostOk(p, ys[i]) {
      assert ys[i] in multiset(xs);
      assert ys[i] in xs;
    }
    PublishableNames(p, xs);
    DistinctKeysPermute(xs, ys, HostName);
    forall i, j | 0 <= i < j < |ys| ensures Coexist(ys[i], ys[j]) {
      assert HostName(ys[i]) != HostName(ys[j]);
      assert ys[i] in multiset(xs) && ys[j] in multiset(xs);
      assert ys[i] in xs && ys[j] in xs;
      CoexistSymmetric(ys[i], ys[j]);
    }
  }

  lemma PublishableNames(p: Platform, hosts: seq<ProxyHost>)
    requires Publishable(p, hosts)
    ensures DistinctKeys(hosts, HostName)
  {
    forall i, j | 0 <= i < j < |hosts| ensures HostName(hosts[i]) != HostName(hosts[j]) {
      assert Coexist(hosts[i], hosts[j]);
    }
  }

  /** Snapshotting changes no validation verdict. */
  lemma SnapshotPublishable(p: Platform, hosts: seq<ProxyHost>)
    requires Publishable(p, hosts)
    ensures Publishable(p, SnapshotHosts(hosts))
  {
    var s := SnapshotHosts(hosts);
    forall i | 0 <= i < |s| ensures HostOk(p, s[i]) {
      assert HostOk(p, hosts[i]);
      assert EffectiveUpstreams(s[i]) == EffectiveUpstreams(hosts[i]);
    }
    forall i, j | 0 <= i < j < |s| ensures Coexist(s[i], s[j]) {
      assert Coexist(hosts[i], hosts[j]);
    }
  }
}
