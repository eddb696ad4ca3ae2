/** Which errors validation reports, said without the loops that find them. */
module ValidationErrors {
  import opened Text
  import opened Model
  import opened Validation
  import opened Acceptance

  // ---------------------------------------------------------------- upstreams of an HTTP host

  ghost predicate Good(p: Platform, urls: seq<string>, k: int) {
    0 <= k < |urls| && IsHttpUpstream(p, urls[k])
  }

  ghost predicate Bad(p: Platform, urls: seq<string>, k: int) {
    0 <= k < |urls| && !IsHttpUpstream(p, urls[k])
  }

  ghost predicate SomeGood(p: Platform, urls: seq<string>, k: int, https: bool) {
    exists j :: 0 <= j < k && Good(p, urls, j) && (IsHttps(urls[j]) <==> https)
  }

  // Upstream k is good and has another scheme than an earlier good one.
  ghost predicate Clashes(p: Platform, urls: seq<string>, k: int) {
    Good(p, urls, k) && SomeGood(p, urls, k, !IsHttps(urls[k]))
  }

  ghost predicate NoClash(p: Platform, urls: seq<string>, n: int) {
    forall m :: 0 <= m < n ==> !Clashes(p, urls, m)
  }

  // A bad upstream is reported unless a clash comes before it.
  ghost predicate BadAt(p: Platform, name: string, urls: seq<string>, k: int, e: ValidationError) {
    Bad(p, urls, k) && NoClash(p, urls, k) && e == BadUpstream(name, urls[k])
  }

  ghost predicate Reports(p: Platform, name: string, urls: seq<string>, i: int, e: ValidationError) {
    || (e == MixedSchemes(name) && exists k :: i <= k && Clashes(p, urls, k))
    || exists k :: i <= k && BadAt(p, name, urls, k, e)
  }

  ghost function SchemeOf(u: string): Scheme { if IsHttps(u) then Https else PlainHttp }

  // The scheme of the good upstreams before i, which all have the same.
  ghost predicate SeenSo(p: Platform, urls: seq<string>, i: int, scheme: Scheme) {
    && NoClash(p, urls, i)
    && (SomeGood(p, urls, i, true) <==> scheme == Https) && (SomeGood(p, urls, i, false) <==> scheme == PlainHttp)
  }

  lemma SomeGoodStep(p: Platform, urls: seq<string>, i: nat, https: bool)
    requires i < |urls|
    ensures SomeGood(p, urls, i + 1, https) <==>
      SomeGood(p, urls, i, https) || (IsHttpUpstream(p, urls[i]) && (IsHttps(urls[i]) <==> https))
  {
    hide IsHttpUpstream, IsHttps;
    if IsHttpUpstream(p, urls[i]) { assert Good(p, urls, i); }
  }

  lemma SeenStep(p: Platform, urls: seq<string>, i: nat, scheme: Scheme)
    requires i < |urls| && SeenSo(p, urls, i, scheme) && !Clashes(p, urls, i)
    ensures SeenSo(p, urls, i + 1, if IsHttpUpstream(p, urls[i]) then SchemeOf(urls[i]) else scheme)
  {
    hide IsHttpUpstream, IsHttps, SomeGood;
    SomeGoodStep(p, urls, i, true);
    SomeGoodStep(p, urls, i, false);
  }

  lemma NoClashUpTo(p: Platform, name: string, urls: seq<string>, i: nat, k: int, e: ValidationError)
    requires i <= k && BadAt(p, name, urls, k, e)
    ensures !Clashes(p, urls, i)
  {
    hide IsHttpUpstream, SomeGood;
  }

  lemma ReportStep(p: Platform, name: string, urls: seq<string>, i: nat, e: ValidationError)
    requires i < |urls| && NoClash(p, urls, i)
    ensures Reports(p, name, urls, i, e) <==>
      if Clashes(p, urls, i) then e == MixedSchemes(name)
      else Reports(p, name, urls, i + 1, e) || (!IsHttpUpstream(p, urls[i]) && e == BadUpstream(name, urls[i]))
  {
    hide IsHttpUpstream, SomeGood;
    if Clashes(p, urls, i) {
      if k :| i <= k && BadAt(p, name, urls, k, e) { NoClashUpTo(p, name, urls, i, k, e); }
    } else if !IsHttpUpstream(p, urls[i]) {
      assert BadAt(p, name, urls, i, BadUpstream(name, urls[i]));
    }
  }

  lemma ReportsEnd(p: Platform, name: string, urls: seq<string>, e: ValidationError)
    ensures !Reports(p, name, urls, |urls|, e)
  {
  }

  lemma {:induction false} UpstreamErrorsReport(p: Platform, name: string, urls: seq<string>, i: nat, scheme: Scheme, e: ValidationError)
    requires i <= |urls| && SeenSo(p, urls, i, scheme)
    ensures e in UpstreamErrors(p, name, urls, i, scheme) <==> Reports(p, name, urls, i, e)
    decreases |urls| - i
  {
    hide IsHttpUpstream, HttpUpstreamOk, WritesHttps, IsHttps, Reports;
    if i == |urls| {
      ReportsEnd(p, name, urls, e);
    } else {
      HttpUpstreamExact(p, urls[i]);
      HttpsExact(urls[i]);
      ReportStep(p, name, urls, i, e);
      if !Clashes(p, urls, i) {
        SeenStep(p, urls, i, scheme);
        UpstreamErrorsReport(p, name, urls, i + 1, if IsHttpUpstream(p, urls[i]) then SchemeOf(urls[i]) else scheme, e);
      }
      hide SomeGood;
      UpstreamErrorsStep(p, name, urls, i, scheme, e);
    }
  }

  lemma UpstreamErrorsStep(p: Platform, name: string, urls: seq<string>, i: nat, scheme: Scheme, e: ValidationError)
    requires i < |urls| && SeenSo(p, urls, i, scheme)
    ensures e in UpstreamErrors(p, name, urls, i, scheme) <==>
      if Clashes(p, urls, i) then e == MixedSchemes(name)
      else
        e in UpstreamErrors(p, name, urls, i + 1, if IsHttpUpstream(p, urls[i]) then SchemeOf(urls[i]) else scheme) ||
        (!IsHttpUpstream(p, urls[i]) && e == BadUpstream(name, urls[i]))
  {
    hide IsHttpUpstream, HttpUpstreamOk, WritesHttps, IsHttps, SomeGood;
    HttpUpstreamExact(p, urls[i]);
    HttpsExact(urls[i]);
  }

  // ---------------------------------------------------------------- who came first

  ghost predicate IsClaimed(owners: map<string, string>, key: string, owner: string) { key in owners && owners[key] == owner }

  ghost predicate ClaimsKey(h: ProxyHost, proto: Protocol, key: string) {
    if proto == UDP then ClaimsEntryPoint(h, key) else ClaimsDomain(h, proto, key)
  }

  ghost predicate NoClaim(hosts: seq<ProxyHost>, proto: Protocol, key: string, n: int) {
    forall m :: 0 <= m < n <= |hosts| ==> !ClaimsKey(hosts[m], proto, key)
  }

  // Host j is the first that claims the key for the protocol.
  ghost predicate FirstClaim(hosts: seq<ProxyHost>, proto: Protocol, key: string, j: int) {
    0 <= j < |hosts| && ClaimsKey(hosts[j], proto, key) && NoClaim(hosts, proto, key, j)
  }

  // The owners that the loop has recorded for a protocol.
  ghost function OwnersFor(seen: Seen, proto: Protocol): map<string, string> {
    match proto case HTTP => seen.http case TCP => seen.tcp case _ => seen.udp
  }

  ghost predicate Checked(proto: Protocol) { proto == HTTP || proto == TCP || proto == UDP }

  lemma {:induction false} ClaimAllKeeps(owners: map<string, string>, keys: seq<string>, name: string, k: string, o: string)
    ensures IsClaimed(ClaimAll(owners, keys, name), k, o) <==>
      if k in owners then owners[k] == o else k in keys && o == name
  {
    if keys != [] {
      var init := keys[..|keys| - 1];
      ClaimAllKeeps(owners, init, name, k, o);
      ClaimAllKeys(owners, init, name);
      assert keys == init + [keys[|keys| - 1]];
    }
  }

  lemma SeeHostOwners(seen: Seen, h: ProxyHost, proto: Protocol, k: string, o: string)
    requires Checked(proto)
    ensures var owners := OwnersFor(seen, proto);
      IsClaimed(OwnersFor(SeeHost(seen, h), proto), k, o) <==>
        if k in owners then owners[k] == o else ClaimsKey(h, proto, k) && o == h.name
  {
    hide NotBlank, ClaimAll;
    ClaimAllKeeps(seen.udp, h.entryPoints, h.name, k, o);
  }

  lemma ClaimedIff(hosts: seq<ProxyHost>, proto: Protocol, k: string)
    requires Checked(proto)
    ensures k in OwnersFor(SeenIn(hosts), proto) <==> !NoClaim(hosts, proto, k, |hosts|)
  {
    hide ClaimsDomain, ClaimsEntryPoint, SeenIn;
    SeenExact(hosts);
    assert SomeDomain(hosts, proto, k) <==> exists i :: 0 <= i < |hosts| && ClaimsDomain(hosts[i], proto, k);
  }

  lemma FirstClaimSnoc(hosts: seq<ProxyHost>, proto: Protocol, k: string, j: int)
    requires hosts != []
    ensures var n := |hosts| - 1;
      FirstClaim(hosts, proto, k, j) <==>
        FirstClaim(hosts[..n], proto, k, j) || (j == n && ClaimsKey(hosts[n], proto, k) && NoClaim(hosts[..n], proto, k, n))
  {
    hide ClaimsKey;
    var n := |hosts| - 1;
    assert forall m :: 0 <= m < n ==> hosts[..n][m] == hosts[m];
  }

  lemma FirstIsAClaim(hosts: seq<ProxyHost>, proto: Protocol, k: string, j: int)
    requires FirstClaim(hosts, proto, k, j)
    ensures 0 <= j < |hosts| && !NoClaim(hosts, proto, k, |hosts|)
  {
    hide ClaimsKey;
  }

  /** What the accumulating maps hold: each domain and entry point with the name
      of the first host that claimed it. */
  lemma {:induction false} OwnersExact(hosts: seq<ProxyHost>, proto: Protocol, k: string, o: string)
    requires Checked(proto)
    ensures IsClaimed(OwnersFor(SeenIn(hosts), proto), k, o) <==>
      exists j :: FirstClaim(hosts, proto, k, j) && hosts[j].name == o
  {
    if hosts != [] {
      var n := |hosts| - 1;
      var init, h := hosts[..n], hosts[n];
      SeeHostOwners(SeenIn(init), h, proto, k, o);
      ClaimedIff(init, proto, k);
      OwnersExact(init, proto, k, o);
      hide SeeHost, FirstClaim, NoClaim, ClaimsKey, OwnersFor;
      forall j ensures FirstClaim(hosts, proto, k, j) <==>
        FirstClaim(init, proto, k, j) || (j == n && ClaimsKey(h, proto, k) && NoClaim(init, proto, k, n))
      {
        FirstClaimSnoc(hosts, proto, k, j);
      }
      forall j | FirstClaim(init, proto, k, j) ensures 0 <= j < n && !NoClaim(init, proto, k, n) { FirstIsAClaim(init, proto, k, j); }
      if k !in OwnersFor(SeenIn(init), proto) && ClaimsKey(h, proto, k) { assert FirstClaim(hosts, proto, k, n); }
      if j :| FirstClaim(init, proto, k, j) && init[j].name == o { assert FirstClaim(hosts, proto, k, j) && hosts[j].name == o; }
    }
  }

  // ---------------------------------------------------------------- the errors of one host

  lemma InConcat<T>(a: seq<T>, b: seq<T>, x: T)
    ensures x in a + b <==> x in a || x in b
  {
  }

  ghost predicate HasUnsupported(mws: seq<Middleware>, kind: MwType, mw: string) {
    kind.Unsupported? && exists k :: 0 <= k < |mws| && mws[k].kind == kind && mws[k].name == mw
  }

  lemma {:induction false} MwTypeErrorsIn(name: string, mws: seq<Middleware>, e: ValidationError)
    ensures e in MwTypeErrors(name, mws) <==>
      e.UnsupportedMiddleware? && e.name == name && HasUnsupported(mws, e.kind, e.mw)
  {
    if mws != [] {
      var n := |mws| - 1;
      MwTypeErrorsIn(name, mws[..n], e);
      if e.UnsupportedMiddleware? {
        assert HasUnsupported(mws, e.kind, e.mw) <==>
          HasUnsupported(mws[..n], e.kind, e.mw) || (e.kind.Unsupported? && mws[n].kind == e.kind && mws[n].name == e.mw) by {
          assert forall k :: 0 <= k < n ==> mws[..n][k] == mws[k];
        }
      }
    }
  }

  lemma {:induction false} L4UpstreamErrorsIn(p: Platform, name: string, urls: seq<string>, e: ValidationError)
    ensures e in L4UpstreamErrors(p, name, urls) <==>
      e.BadUpstream? && e.name == name && e.url in urls && !IsAddress(p, e.url)
  {
    hide TcpUpstreamOk, IsAddress;
    if urls != [] {
      var n := |urls| - 1;
      L4UpstreamErrorsIn(p, name, urls[..n], e);
      AddressExact(p, urls[n]);
      assert urls == urls[..n] + [urls[n]];
    }
  }

  // The k-th entry point is taken, by an earlier host or by the host itself.
  ghost predicate TakenAt(owners: map<string, string>, keys: seq<string>, name: string, k: int, ep: string, o: string) {
    0 <= k < |keys| && keys[k] == ep && if ep in owners then owners[ep] == o else ep in keys[..k] && o == name
  }

  ghost predicate TakenIn(owners: map<string, string>, keys: seq<string>, name: string, ep: string, o: string) {
    exists k :: TakenAt(owners, keys, name, k, ep, o)
  }

  lemma TakenSnoc(owners: map<string, string>, keys: seq<string>, name: string, ep: string, o: string)
    requires keys != []
    ensures var n := |keys| - 1;
      TakenIn(owners, keys, name, ep, o) <==>
        TakenIn(owners, keys[..n], name, ep, o) ||
        (keys[n] == ep && if ep in owners then owners[ep] == o else ep in keys[..n] && o == name)
  {
    var n := |keys| - 1;
    forall k ensures TakenAt(owners, keys, name, k, ep, o) <==>
      TakenAt(owners, keys[..n], name, k, ep, o) || (k == n && TakenAt(owners, keys, name, n, ep, o))
    {
      if 0 <= k < n { assert keys[..n][..k] == keys[..k]; }
    }
    assert TakenAt(owners, keys, name, n, ep, o) <==>
      keys[n] == ep && if ep in owners then owners[ep] == o else ep in keys[..n] && o == name;
  }

  lemma {:induction false} ClaimErrorsIn(owners: map<string, string>, keys: seq<string>, name: string, e: ValidationError)
    ensures e in ClaimErrors(owners, keys, name) <==>
      e.EntryPointTaken? && e.name == name && TakenIn(owners, keys, name, e.entryPoint, e.owner)
  {
    if keys != [] {
      hide ClaimAll;
      var n := |keys| - 1;
      ClaimErrorsIn(owners, keys[..n], name, e);
      if e.EntryPointTaken? {
        ClaimAllKeeps(owners, keys[..n], name, keys[n], e.owner);
        TakenSnoc(owners, keys, name, e.entryPoint, e.owner);
        hide TakenIn;
      }
    }
  }

  ghost predicate Named(h: ProxyHost, name: string) { h.name == name && !AllSpace(name) && h.enabled }

  ghost predicate OwnedBy(init: seq<ProxyHost>, proto: Protocol, key: string, owner: string) {
    exists j :: FirstClaim(init, proto, key, j) && init[j].name == owner
  }

  ghost predicate AsksForBad(p: Platform, h: ProxyHost, e: ValidationError) {
    exists urls, k :: AsksForUpstreams(h, urls) && BadAt(p, h.name, urls, k, e)
  }

  ghost predicate AsksForMixed(p: Platform, h: ProxyHost) {
    exists urls, k :: AsksForUpstreams(h, urls) && Clashes(p, urls, k)
  }

  ghost predicate AsksForBadAddress(p: Platform, h: ProxyHost, url: string) {
    !IsAddress(p, url) && exists urls :: AsksForUpstreams(h, urls) && url in urls
  }

  /** The error is true of a host that comes after these. A domain or entry point
      is taken by the first host that claimed it, or the entry point by the host
      itself when it lists it twice; a bad upstream counts unless a clash of
      schemes comes before it. */
  ghost predicate IsTrueOf(p: Platform, init: seq<ProxyHost>, h: ProxyHost, e: ValidationError) {
    match e
    case EmptyName => AllSpace(h.name)
    case DuplicateName(n) => h.name == n && !AllSpace(n) && exists j :: 0 <= j < |init| && init[j].name == n
    case UnsupportedProtocol(n, proto) => Named(h, n) && h.protocol == proto && proto.OtherProtocol?
    case InvalidDomain(n, d) =>
      Named(h, n) && h.domain == d && !IsDomain(d) && (IsHttpProtocol(h) || (h.protocol == TCP && d != "*"))
    case DomainTaken(n, d, o) =>
      Named(h, n) && h.domain == d &&
      ((IsHttpProtocol(h) && OwnedBy(init, HTTP, d, o)) || (h.protocol == TCP && OwnedBy(init, TCP, d, o)))
    case NoUpstream(n) => Named(h, n) && (IsHttpProtocol(h) || h.protocol == TCP || h.protocol == UDP) && AsksForUpstreams(h, [])
    case BadUpstream(n, u) =>
      Named(h, n) &&
      ((IsHttpProtocol(h) && AsksForBad(p, h, e)) || ((h.protocol == TCP || h.protocol == UDP) && AsksForBadAddress(p, h, u)))
    case MixedSchemes(n) => Named(h, n) && IsHttpProtocol(h) && AsksForMixed(p, h)
    case UnsupportedMiddleware(n, kind, mw) => Named(h, n) && IsHttpProtocol(h) && HasUnsupported(h.middlewares, kind, mw)
    case MiddlewaresNotSupported(n) => Named(h, n) && (h.protocol == TCP || h.protocol == UDP) && h.middlewares != []
    case NoEntryPoint(n) => Named(h, n) && h.protocol == UDP && h.entryPoints == []
    case EntryPointTaken(n, ep, o) => Named(h, n) && h.protocol == UDP && TakesEntryPoint(init, h, ep, o)
    case TlsNotSupported(n) => Named(h, n) && h.protocol == UDP && h.tls
  }

  ghost predicate TakesEntryPoint(init: seq<ProxyHost>, h: ProxyHost, ep: string, o: string) {
    exists k :: TakesAt(init, h, k, ep, o)
  }

  ghost predicate TakesAt(init: seq<ProxyHost>, h: ProxyHost, k: int, ep: string, o: string) {
    0 <= k < |h.entryPoints| && h.entryPoints[k] == ep &&
    if NoClaim(init, UDP, ep, |init|) then ep in h.entryPoints[..k] && o == h.name else OwnedBy(init, UDP, ep, o)
  }

  lemma OwnedIff(init: seq<ProxyHost>, proto: Protocol, k: string, o: string)
    requires Checked(proto)
    ensures OwnedBy(init, proto, k, o) <==> IsClaimed(OwnersFor(SeenIn(init), proto), k, o)
  {
    hide FirstClaim, SeenIn;
    OwnersExact(init, proto, k, o);
  }

  lemma DomainErrorsIn(h: ProxyHost, ok: bool, init: seq<ProxyHost>, proto: Protocol, e: ValidationError)
    requires Checked(proto)
    ensures e in DomainErrors(h, ok, OwnersFor(SeenIn(init), proto)) <==>
      (!ok && e == InvalidDomain(h.name, h.domain)) ||
      (e.DomainTaken? && e.name == h.name && e.domain == h.domain && OwnedBy(init, proto, h.domain, e.owner))
  {
    hide SeenIn, OwnedBy;
    if e.DomainTaken? { OwnedIff(init, proto, h.domain, e.owner); }
  }

  lemma UpstreamsOf(p: Platform, h: ProxyHost, e: ValidationError)
    ensures e in NoUpstreamErrors(h) <==> e == NoUpstream(h.name) && AsksForUpstreams(h, [])
    ensures e in UpstreamErrors(p, h.name, EffectiveUpstreams(h), 0, Unknown) <==>
      (e == MixedSchemes(h.name) && AsksForMixed(p, h)) || AsksForBad(p, h, e)
    ensures e in L4UpstreamErrors(p, h.name, EffectiveUpstreams(h)) <==>
      e.BadUpstream? && e.name == h.name && AsksForBadAddress(p, h, e.url)
  {
    hide AsksForUpstreams, EffectiveUpstreams, UpstreamErrors, L4UpstreamErrors, IsAddress, Clashes, BadAt;
    var urls := EffectiveUpstreams(h);
    forall xs ensures AsksForUpstreams(h, xs) <==> xs == urls { UpstreamsExact(h, xs); }
    NothingSeen(p, urls);
    UpstreamErrorsReport(p, h.name, urls, 0, Unknown, e);
    forall k | Clashes(p, urls, k) ensures k >= 0 { ClashInRange(p, urls, k); }
    forall k | BadAt(p, h.name, urls, k, e) ensures k >= 0 { BadInRange(p, h.name, urls, k, e); }
    L4UpstreamErrorsIn(p, h.name, urls, e);
  }

  lemma NothingSeen(p: Platform, urls: seq<string>)
    ensures SeenSo(p, urls, 0, Unknown)
  {
  }

  lemma ClashInRange(p: Platform, urls: seq<string>, k: int)
    requires Clashes(p, urls, k)
    ensures k >= 0
  {
  }

  lemma BadInRange(p: Platform, name: string, urls: seq<string>, k: int, e: ValidationError)
    requires BadAt(p, name, urls, k, e)
    ensures k >= 0 && e.BadUpstream? && e.name == name
  {
  }

  lemma HttpErrorsIn(p: Platform, init: seq<ProxyHost>, h: ProxyHost, e: ValidationError)
    requires Proto(h) == HTTP && Named(h, h.name)
    ensures e in HttpErrors(p, h, SeenIn(init).http) <==>
      IsTrueOf(p, init, h, e) && !e.EmptyName? && !e.DuplicateName?
  {
    hide LooksLikeDomain, IsDomain, DomainErrors, UpstreamErrors, NoUpstreamErrors, MwTypeErrors, SeenIn;
    hide EffectiveUpstreams, AsksForUpstreams;
    hide OwnedBy, AsksForMixed, AsksForBadAddress, HasUnsupported, AllSpace;
    DomainExact(h.domain);
    DomainErrorsIn(h, LooksLikeDomain(h.domain), init, HTTP, e);
    UpstreamsOf(p, h, e);
    MwTypeErrorsIn(h.name, h.middlewares, e);
    if AsksForBad(p, h, e) { AskedForBad(p, h, e); }
    hide AsksForBad;
  }

  lemma AskedForBad(p: Platform, h: ProxyHost, e: ValidationError)
    requires AsksForBad(p, h, e)
    ensures e.BadUpstream? && e.name == h.name
  {
    hide AsksForUpstreams, BadAt;
    var urls, k :| AsksForUpstreams(h, urls) && BadAt(p, h.name, urls, k, e);
    BadInRange(p, h.name, urls, k, e);
  }

  lemma TcpErrorsIn(p: Platform, init: seq<ProxyHost>, h: ProxyHost, e: ValidationError)
    requires Proto(h) == TCP && Named(h, h.name)
    ensures e in TcpErrors(p, h, SeenIn(init).tcp) <==>
      IsTrueOf(p, init, h, e) && !e.EmptyName? && !e.DuplicateName?
  {
    hide LooksLikeDomain, IsDomain, DomainErrors, L4UpstreamErrors, NoUpstreamErrors, SeenIn, EffectiveUpstreams, AsksForUpstreams;
    hide OwnedBy, AsksForBad, AsksForMixed, AsksForBadAddress, AllSpace;
    DomainExact(h.domain);
    DomainErrorsIn(h, h.domain == "*" || LooksLikeDomain(h.domain), init, TCP, e);
    UpstreamsOf(p, h, e);
  }

  lemma EntryPointErrorsIn(init: seq<ProxyHost>, h: ProxyHost, e: ValidationError)
    ensures e in EntryPointErrors(h, SeenIn(init).udp) <==>
      (e == NoEntryPoint(h.name) && h.entryPoints == []) ||
      (e.EntryPointTaken? && e.name == h.name && TakesEntryPoint(init, h, e.entryPoint, e.owner))
  {
    hide SeenIn, ClaimErrors, OwnedBy, NoClaim;
    var owners := SeenIn(init).udp;
    ClaimErrorsIn(owners, h.entryPoints, h.name, e);
    if e.EntryPointTaken? {
      OwnedIff(init, UDP, e.entryPoint, e.owner);
      ClaimedIff(init, UDP, e.entryPoint);
      assert forall k :: TakenAt(owners, h.entryPoints, h.name, k, e.entryPoint, e.owner) <==>
        TakesAt(init, h, k, e.entryPoint, e.owner);
    }
  }

  lemma UdpErrorsIn(p: Platform, init: seq<ProxyHost>, h: ProxyHost, e: ValidationError)
    requires Proto(h) == UDP && Named(h, h.name)
    ensures e in UdpErrors(p, h, SeenIn(init).udp) <==>
      IsTrueOf(p, init, h, e) && !e.EmptyName? && !e.DuplicateName?
  {
    hide EntryPointErrors, L4UpstreamErrors, NoUpstreamErrors, SeenIn, EffectiveUpstreams, AsksForUpstreams;
    hide OwnedBy, TakesEntryPoint, AsksForBad, AsksForMixed, AsksForBadAddress, AllSpace;
    EntryPointErrorsIn(init, h, e);
    UpstreamsOf(p, h, e);
  }

  lemma NamesSeen(init: seq<ProxyHost>, name: string)
    requires !AllSpace(name)
    ensures name in SeenIn(init).names <==> exists j :: 0 <= j < |init| && init[j].name == name
  {
    hide AllSpace, NotBlank, SeenIn;
    SeenExact(init);
    NotBlankExact(name);
    if j :| 0 <= j < |init| && init[j].name == name { assert Names(init[j], name); }
  }

  lemma HostErrorsIn(p: Platform, init: seq<ProxyHost>, h: ProxyHost, e: ValidationError)
    ensures e in HostErrors(p, SeenIn(init), h) <==> IsTrueOf(p, init, h, e)
  {
    hide HttpErrors, TcpErrors, UdpErrors, SeenIn, NotBlank, AllSpace, OwnedBy, TakesEntryPoint;
    hide AsksForBad, AsksForMixed, AsksForBadAddress, AsksForUpstreams, HasUnsupported, IsDomain;
    NotBlankExact(h.name);
    if NotBlank(h.name) {
      NamesSeen(init, h.name);
      if h.enabled {
        match Proto(h) {
          case HTTP => HttpErrorsIn(p, init, h, e);
          case TCP => TcpErrorsIn(p, init, h, e);
          case UDP => UdpErrorsIn(p, init, h, e);
          case _ =>
        }
      }
    }
  }

  lemma {:induction false} AllErrorsIn(p: Platform, hosts: seq<ProxyHost>, e: ValidationError)
    ensures e in AllErrors(p, hosts) <==>
      exists i :: 0 <= i < |hosts| && e in HostErrors(p, SeenIn(hosts[..i]), hosts[i])
  {
    hide HostErrors, SeenIn;
    if hosts != [] {
      var n := |hosts| - 1;
      AllErrorsIn(p, hosts[..n], e);
      assert forall i :: 0 <= i < n ==> hosts[..n][..i] == hosts[..i] && hosts[..n][i] == hosts[i];
    }
  }

  /** An error is reported exactly when it is true of some host, compared with
      the hosts before it. */
  lemma ErrorsAreTheTrueOnes(p: Platform, hosts: seq<ProxyHost>, e: ValidationError)
    ensures e in AllErrors(p, hosts) <==> exists i :: 0 <= i < |hosts| && IsTrueOf(p, hosts[..i], hosts[i], e)
  {
    hide HostErrors, SeenIn, AllErrors, IsTrueOf;
    AllErrorsIn(p, hosts, e);
    forall i | 0 <= i < |hosts|
      ensures e in HostErrors(p, SeenIn(hosts[..i]), hosts[i]) <==> IsTrueOf(p, hosts[..i], hosts[i], e)
    {
      HostErrorsIn(p, hosts[..i], hosts[i], e);
    }
  }

  // ---------------------------------------------------------------- the order of the errors

  /** Where an error stands among those of one host. */
  function Place(e: ValidationError): nat {
    match e
    case EmptyName => 0
    case DuplicateName(_) => 1
    case UnsupportedProtocol(_, _) => 2
    case InvalidDomain(_, _) => 3
    case DomainTaken(_, _, _) => 4
    case NoEntryPoint(_) => 3
    case EntryPointTaken(_, _, _) => 4
    case NoUpstream(_) => 5
    case BadUpstream(_, _) => 6
    case MixedSchemes(_) => 7
    case UnsupportedMiddleware(_, _, _) => 8
    case TlsNotSupported(_) => 8
    case MiddlewaresNotSupported(_) => 9
  }

  ghost predicate InPlace(errs: seq<ValidationError>, low: nat, high: nat) {
    && (forall i :: 0 <= i < |errs| ==> low <= Place(errs[i]) <= high)
    && (forall i, j :: 0 <= i < j < |errs| ==> Place(errs[i]) <= Place(errs[j]))
  }

  lemma InPlaceConcat(a: seq<ValidationError>, b: seq<ValidationError>, low: nat, mid: nat, mid': nat, high: nat)
    requires InPlace(a, low, mid) && InPlace(b, mid', high) && low <= mid' && mid <= mid' && mid <= high
    ensures InPlace(a + b, low, high)
  {
    hide Place;
    var c := a + b;
    forall i, j | 0 <= i < j < |c| ensures Place(c[i]) <= Place(c[j]) {
      if i >= |a| { assert c[i] == b[i - |a|]; }
    }
  }

  lemma {:induction false} UpstreamsInPlace(p: Platform, name: string, urls: seq<string>, i: nat, scheme: Scheme)
    requires i <= |urls|
    ensures InPlace(UpstreamErrors(p, name, urls, i, scheme), 6, 7)
    decreases |urls| - i
  {
    hide HttpUpstreamOk, WritesHttps;
    if i < |urls| {
      var s := if WritesHttps(urls[i]) then Https else PlainHttp;
      UpstreamsInPlace(p, name, urls, i + 1, scheme);
      UpstreamsInPlace(p, name, urls, i + 1, s);
    }
  }

  lemma {:induction false} AddressesInPlace(p: Platform, name: string, urls: seq<string>)
    ensures InPlace(L4UpstreamErrors(p, name, urls), 6, 6)
  {
    hide TcpUpstreamOk;
    if urls != [] { AddressesInPlace(p, name, urls[..|urls| - 1]); }
  }

  lemma {:induction false} TypesInPlace(name: string, mws: seq<Middleware>)
    ensures InPlace(MwTypeErrors(name, mws), 8, 8)
  {
    if mws != [] { TypesInPlace(name, mws[..|mws| - 1]); }
  }

  lemma {:induction false} ClaimsInPlace(owners: map<string, string>, keys: seq<string>, name: string)
    ensures InPlace(ClaimErrors(owners, keys, name), 4, 4)
  {
    hide ClaimAll;
    if keys != [] { ClaimsInPlace(owners, keys[..|keys| - 1], name); }
  }

  lemma DomainsInPlace(h: ProxyHost, ok: bool, owners: map<string, string>)
    ensures InPlace(DomainErrors(h, ok, owners), 3, 4) && InPlace(NoUpstreamErrors(h), 5, 5)
  {
    hide EffectiveUpstreams;
  }

  lemma HttpInPlace(p: Platform, h: ProxyHost, owners: map<string, string>)
    ensures InPlace(HttpErrors(p, h, owners), 3, 8)
  {
    hide UpstreamErrors, MwTypeErrors, EffectiveUpstreams, LooksLikeDomain, InPlace, DomainErrors, NoUpstreamErrors;
    var a, b := DomainErrors(h, LooksLikeDomain(h.domain), owners), NoUpstreamErrors(h);
    var c, d := UpstreamErrors(p, h.name, EffectiveUpstreams(h), 0, Unknown), MwTypeErrors(h.name, h.middlewares);
    DomainsInPlace(h, LooksLikeDomain(h.domain), owners);
    UpstreamsInPlace(p, h.name, EffectiveUpstreams(h), 0, Unknown);
    TypesInPlace(h.name, h.middlewares);
    InPlaceConcat(a, b, 3, 4, 5, 5);
    InPlaceConcat(a + b, c, 3, 5, 6, 7);
    InPlaceConcat(a + b + c, d, 3, 7, 8, 8);
  }

  lemma L4InPlace(p: Platform, h: ProxyHost)
    ensures InPlace(L4Errors(p, h), 5, 6) && InPlace(NoMiddlewareErrors(h), 9, 9)
  {
    hide L4UpstreamErrors, EffectiveUpstreams;
    assert InPlace(NoUpstreamErrors(h), 5, 5) && InPlace(NoMiddlewareErrors(h), 9, 9);
    AddressesInPlace(p, h.name, EffectiveUpstreams(h));
    hide InPlace, NoUpstreamErrors;
    InPlaceConcat(NoUpstreamErrors(h), L4UpstreamErrors(p, h.name, EffectiveUpstreams(h)), 5, 5, 6, 6);
  }

  lemma TcpInPlace(p: Platform, h: ProxyHost, owners: map<string, string>)
    ensures InPlace(TcpErrors(p, h, owners), 3, 9)
  {
    hide L4Errors, NoMiddlewareErrors, LooksLikeDomain, InPlace, DomainErrors;
    var ok := h.domain == "*" || LooksLikeDomain(h.domain);
    var a := DomainErrors(h, ok, owners);
    DomainsInPlace(h, ok, owners);
    L4InPlace(p, h);
    InPlaceConcat(a, L4Errors(p, h), 3, 4, 5, 6);
    InPlaceConcat(a + L4Errors(p, h), NoMiddlewareErrors(h), 3, 6, 9, 9);
  }

  lemma UdpInPlace(p: Platform, h: ProxyHost, owners: map<string, string>)
    ensures InPlace(UdpErrors(p, h, owners), 3, 9)
  {
    hide L4Errors, NoMiddlewareErrors, ClaimErrors;
    var a, b := EntryPointErrors(h, owners), if h.tls then [TlsNotSupported(h.name)] else [];
    ClaimsInPlace(owners, h.entryPoints, h.name);
    InPlaceConcat(if h.entryPoints == [] then [NoEntryPoint(h.name)] else [], ClaimErrors(owners, h.entryPoints, h.name), 3, 3, 4, 4);
    assert InPlace(a, 3, 4) && InPlace(b, 8, 8);
    L4InPlace(p, h);
    hide InPlace, EntryPointErrors;
    InPlaceConcat(a, L4Errors(p, h), 3, 4, 5, 6);
    InPlaceConcat(a + L4Errors(p, h), b, 3, 6, 8, 8);
    InPlaceConcat(a + L4Errors(p, h) + b, NoMiddlewareErrors(h), 3, 8, 9, 9);
  }

  lemma ProtocolInPlace(p: Platform, seen: Seen, h: ProxyHost)
    ensures InPlace(ProtocolErrors(p, seen, h), 2, 9)
  {
    hide HttpErrors, TcpErrors, UdpErrors, InPlace;
    FewInPlace(h);
    HttpInPlace(p, h, seen.http);
    WiderPlace(HttpErrors(p, h, seen.http), 3, 8, 2, 9);
    TcpInPlace(p, h, seen.tcp);
    WiderPlace(TcpErrors(p, h, seen.tcp), 3, 9, 2, 9);
    UdpInPlace(p, h, seen.udp);
    WiderPlace(UdpErrors(p, h, seen.udp), 3, 9, 2, 9);
  }

  lemma FewInPlace(h: ProxyHost)
    ensures InPlace([], 2, 9) && InPlace([UnsupportedProtocol(h.name, Proto(h))], 2, 9)
    ensures InPlace([], 1, 1) && InPlace([DuplicateName(h.name)], 1, 1) && InPlace([EmptyName], 0, 9)
  {
  }

  lemma HostInPlace(p: Platform, seen: Seen, h: ProxyHost)
    ensures InPlace(HostErrors(p, seen, h), 0, 9)
  {
    hide ProtocolErrors, NotBlank, InPlace;
    FewInPlace(h);
    ProtocolInPlace(p, seen, h);
    var first, rest := if h.name in seen.names then [DuplicateName(h.name)] else [], ProtocolErrors(p, seen, h);
    InPlaceConcat(first, rest, 1, 1, 2, 9);
    WiderPlace(first + rest, 1, 9, 0, 9);
  }

  lemma WiderPlace(errs: seq<ValidationError>, low: nat, high: nat, low': nat, high': nat)
    requires InPlace(errs, low, high) && low' <= low && high <= high'
    ensures InPlace(errs, low', high')
  {
    hide Place;
  }

  /** The errors of a host follow those of the hosts before it, and stand in the
      order of the checks. */
  lemma {:induction false} ErrorsAreInOrder(p: Platform, hosts: seq<ProxyHost>, n: nat)
    requires n < |hosts|
    ensures var before, upto := AllErrors(p, hosts[..n]), AllErrors(p, hosts[..n + 1]);
      && before <= upto <= AllErrors(p, hosts)
      && (forall i, j :: |before| <= i < j < |upto| ==> Place(upto[i]) <= Place(upto[j]))
  {
    hide HostErrors, SeenIn, Place;
    var upto := hosts[..n + 1];
    assert upto[..n] == hosts[..n] && upto[n] == hosts[n];
    HostInPlace(p, SeenIn(hosts[..n]), hosts[n]);
    var mine := HostErrors(p, SeenIn(hosts[..n]), hosts[n]);
    var before := AllErrors(p, hosts[..n]);
    assert AllErrors(p, upto) == before + mine;
    forall i, j | |before| <= i < j < |before + mine| ensures Place((before + mine)[i]) <= Place((before + mine)[j]) {
      assert (before + mine)[i] == mine[i - |before|] && (before + mine)[j] == mine[j - |before|];
    }
    LaterErrorsFollow(p, hosts, n + 1);
  }

  lemma {:induction false} LaterErrorsFollow(p: Platform, hosts: seq<ProxyHost>, n: nat)
    requires n <= |hosts|
    ensures AllErrors(p, hosts[..n]) <= AllErrors(p, hosts)
  {
    hide HostErrors, SeenIn;
    if n < |hosts| {
      assert hosts[..|hosts| - 1][..n] == hosts[..n];
      LaterErrorsFollow(p, hosts[..|hosts| - 1], n);
    } else {
      assert hosts[..n] == hosts;
    }
  }
}
