/** What validation accepts, said without the checks it runs. */
module Acceptance {
  import opened Text
  import opened Model
  import opened Validation

  // ---------------------------------------------------------------- domains

  ghost predicate IsLabel(l: string) {
    l != "" && forall i :: 0 <= i < |l| ==>
      l[i] == '-' || '0' <= l[i] <= '9' || 'a' <= l[i] <= 'z' || 'A' <= l[i] <= 'Z'
  }

  ghost predicate IsDomainOf(t: string, labels: seq<string>) {
    |t| <= 253 && labels != [] && t == Join(labels, '.') && forall i :: 0 <= i < |labels| ==> IsLabel(labels[i])
  }

  /** Labels of letters, digits and dashes, joined by dots, at most 253 characters
      in all; space around them does not count. */
  ghost predicate IsDomain(domain: string) {
    exists t, labels :: StripsTo(domain, t) && IsDomainOf(t, labels)
  }

  lemma {:induction false} JoinChars(parts: seq<string>, sep: char, c: char)
    requires c in Join(parts, sep) && c != sep
    ensures exists i :: 0 <= i < |parts| && c in parts[i]
  {
    if |parts| > 1 && c !in parts[0] {
      JoinChars(parts[1..], sep, c);
      var i :| 0 <= i < |parts[1..]| && c in parts[1..][i];
      assert c in parts[i + 1];
    } else {
      assert c in parts[0];
    }
  }

  lemma DomainChars(t: string, labels: seq<string>, c: char)
    requires IsDomainOf(t, labels) && c in t
    ensures c == '.' || IsLabel([c])
  {
    if c != '.' {
      JoinChars(labels, '.', c);
      var i :| 0 <= i < |labels| && c in labels[i];
      assert IsLabel(labels[i]);
      var j :| 0 <= j < |labels[i]| && labels[i][j] == c;
    }
  }

  lemma NoSuchLabels()
    ensures !IsLabel([' ']) && !IsLabel(['/']) && !IsLabel(['\\'])
  {
    assert [' '][0] == ' ' && ['/'][0] == '/' && ['\\'][0] == '\\';
  }

  lemma LabelIff(l: string)
    ensures IsLabel(l) <==> l != "" && forall c :: c in l ==> LabelChar(c)
  {
    assert forall i :: 0 <= i < |l| ==> l[i] in l;
  }

  lemma LabelHasNoDot(l: string)
    requires IsLabel(l)
    ensures '.' !in l
  {
  }

  lemma LabelsIff(parts: seq<string>)
    ensures (forall part :: part in parts ==> part != "" && forall c :: c in part ==> LabelChar(c)) <==>
            (forall i :: 0 <= i < |parts| ==> IsLabel(parts[i]))
  {
    hide LabelChar, IsLabel;
    forall l ensures IsLabel(l) <==> l != "" && forall c :: c in l ==> LabelChar(c) { LabelIff(l); }
    if forall i :: 0 <= i < |parts| ==> IsLabel(parts[i]) {
      forall part | part in parts ensures IsLabel(part) { var i :| 0 <= i < |parts| && parts[i] == part; }
    }
    if forall part :: part in parts ==> part != "" && forall c :: c in part ==> LabelChar(c) {
      forall i | 0 <= i < |parts| ensures IsLabel(parts[i]) { assert parts[i] in parts; }
    }
  }

  /** The domain check accepts exactly these texts. */
  lemma DomainExact(domain: string)
    ensures LooksLikeDomain(domain) <==> IsDomain(domain)
  {
    hide TrimSpace, StripsTo, IsLabel, LabelChar;
    var t := TrimSpace(domain);
    TrimSpaceExact(domain, t);
    var parts := Split(t, '.');
    LabelsIff(parts);
    if LooksLikeDomain(domain) {
      JoinSplit(t, '.');
      assert IsDomainOf(t, parts);
    }
    if u, labels :| StripsTo(domain, u) && IsDomainOf(u, labels) {
      TrimSpaceExact(domain, u);
      forall i | 0 <= i < |labels| ensures '.' !in labels[i] { LabelHasNoDot(labels[i]); }
      SplitJoin(labels, '.');
      NoSuchLabels();
      forall c | c in t ensures c == '.' || IsLabel([c]) { DomainChars(t, labels, c); }
      FirstLabel(labels);
    }
  }

  lemma FirstLabel(labels: seq<string>)
    requires labels != [] && IsLabel(labels[0])
    ensures Join(labels, '.') != ""
  {
  }

  // ---------------------------------------------------------------- upstreams

  /** An HTTP upstream: a URL with the scheme http or https and a host. */
  ghost predicate IsHttpUpstream(p: Platform, u: string) {
    && !AllSpace(u) && p.parseURL(u).Some?
    && (p.parseURL(u).value.0 == "http" || p.parseURL(u).value.0 == "https") && p.parseURL(u).value.1 != ""
  }

  ghost predicate IsPortNumber(s: string) {
    exists n :: 1 <= n <= 65535 && WritesNumber(s, n)
  }

  // A decimal number, with or without a plus sign.
  ghost predicate WritesNumber(s: string, n: int) {
    Spells(s, n) || (s != "" && s[0] == '+' && Spells(s[1..], n))
  }

  /** A TCP or UDP upstream: after an optional tcp or udp scheme, a host and a
      port from 1 to 65535, and no other scheme. */
  ghost predicate IsAddress(p: Platform, s: string) {
    exists t, a :: StripsTo(s, t) && IsAddressOf(t, a) && t != "" && IsHostAndPort(p, a)
  }

  ghost predicate IsHostAndPort(p: Platform, a: string) {
    && !HoldsScheme(a)
    && p.splitHostPort(a).Some? && p.splitHostPort(a).value.0 != "" && IsPortNumber(p.splitHostPort(a).value.1)
  }

  ghost predicate HoldsScheme(a: string) {
    exists x: string, y: string :: a == x + "://" + y
  }

  lemma HttpUpstreamExact(p: Platform, u: string)
    ensures HttpUpstreamOk(p, u) <==> IsHttpUpstream(p, u)
  {
    hide TrimSpace, AllSpace;
    BlankExact(u);
  }

  lemma PortExact(s: string)
    ensures PortOk(s) <==> IsPortNumber(s)
  {
    hide Spells, Digits, Atoi;
    var r := Atoi(s);
    if r.Some? {
      AtoiExact(s, r.value);
      if r.value > 0 { NegativeSpells(s, r.value); }
    }
    assert r.Some? && 1 <= r.value <= 65535 ==> WritesNumber(s, r.value);
    if n :| 1 <= n <= 65535 && WritesNumber(s, n) { AtoiExact(s, n); }
  }

  lemma NegativeSpells(s: string, n: int)
    requires n > 0
    ensures s != "" ==> !Spells(s[1..], -n)
  {
  }

  lemma PortNotEmpty(s: string)
    requires IsPortNumber(s)
    ensures s != ""
  {
  }

  lemma SchemeMarkExact(a: string)
    ensures ContainsSchemeMark(a) <==> HoldsScheme(a)
  {
    if i :| 0 <= i < |a| - 2 && a[i] == ':' && a[i + 1] == '/' && a[i + 2] == '/' {
      assert a == a[..i] + "://" + a[i + 3..];
    }
    if x: string, y: string :| a == x + "://" + y {
      var i := |x|;
      assert a[i] == ':' && a[i + 1] == '/' && a[i + 2] == '/';
    }
  }

  lemma AddressExact(p: Platform, s: string)
    ensures TcpUpstreamOk(p, s) <==> IsAddress(p, s)
  {
    hide TrimSpace, StripsTo, StripScheme, ContainsSchemeMark, HoldsScheme, PortOk, IsPortNumber, IsAddressOf;
    var t := TrimSpace(s);
    var a := StripScheme(t);
    TrimSpaceExact(s, t);
    StripSchemeExact(t, a);
    SchemeMarkExact(a);
    if p.splitHostPort(a).Some? {
      PortExact(p.splitHostPort(a).value.1);
      if IsPortNumber(p.splitHostPort(a).value.1) { PortNotEmpty(p.splitHostPort(a).value.1); }
    }
    if u, b :| StripsTo(s, u) && IsAddressOf(u, b) && u != "" && IsHostAndPort(p, b) {
      TrimSpaceExact(s, u);
      StripSchemeExact(u, b);
    }
  }

  // ---------------------------------------------------------------- hosts

  ghost predicate SameSchemes(urls: seq<string>) {
    forall i, j :: 0 <= i < j < |urls| ==> (IsHttps(urls[i]) <==> IsHttps(urls[j]))
  }

  ghost predicate IsHttps(u: string) { |u| >= 8 && u[..8] == "https://" }

  ghost predicate HttpUpstreamsFit(p: Platform, urls: seq<string>) {
    urls != [] && SameSchemes(urls) && forall i :: 0 <= i < |urls| ==> IsHttpUpstream(p, urls[i])
  }

  ghost predicate AddressesFit(p: Platform, urls: seq<string>) {
    urls != [] && forall i :: 0 <= i < |urls| ==> IsAddress(p, urls[i])
  }

  /** What one host must be like, by its own fields. */
  ghost predicate Acceptable(p: Platform, h: ProxyHost) {
    && !AllSpace(h.name)
    && (h.enabled ==>
         if h.protocol == HTTP || h.protocol == Unset then
           && IsDomain(h.domain) && (exists urls :: AsksForUpstreams(h, urls) && HttpUpstreamsFit(p, urls))
           && forall i :: 0 <= i < |h.middlewares| ==> !h.middlewares[i].kind.Unsupported?
         else if h.protocol == TCP then
           && (h.domain == "*" || IsDomain(h.domain)) && (exists urls :: AsksForUpstreams(h, urls) && AddressesFit(p, urls))
           && h.middlewares == []
         else if h.protocol == UDP then
           && h.entryPoints != [] && (forall i, j :: 0 <= i < j < |h.entryPoints| ==> h.entryPoints[i] != h.entryPoints[j])
           && (exists urls :: AsksForUpstreams(h, urls) && AddressesFit(p, urls))
           && !h.tls && h.middlewares == []
         else false)
  }

  lemma HttpsExact(u: string)
    ensures WritesHttps(u) <==> IsHttps(u)
  {
    assert |"https://"| == 8;
    assert |u| >= 8 ==> (HasPrefix(u, "https://") <==> u[..8] == "https://");
  }

  lemma UpstreamListsExact(p: Platform, h: ProxyHost)
    ensures (exists urls :: AsksForUpstreams(h, urls) && HttpUpstreamsFit(p, urls)) <==>
      var urls := EffectiveUpstreams(h);
      urls != [] && OneScheme(urls) && forall i :: 0 <= i < |urls| ==> HttpUpstreamOk(p, urls[i])
    ensures (exists urls :: AsksForUpstreams(h, urls) && AddressesFit(p, urls)) <==>
      var urls := EffectiveUpstreams(h);
      urls != [] && forall i :: 0 <= i < |urls| ==> TcpUpstreamOk(p, urls[i])
  {
    hide AsksForUpstreams, EffectiveUpstreams, HttpUpstreamOk, TcpUpstreamOk, IsHttpUpstream, IsAddress, WritesHttps, IsHttps;
    var eff := EffectiveUpstreams(h);
    UpstreamsExact(h, eff);
    forall i | 0 <= i < |eff|
      ensures HttpUpstreamOk(p, eff[i]) <==> IsHttpUpstream(p, eff[i])
      ensures TcpUpstreamOk(p, eff[i]) <==> IsAddress(p, eff[i])
      ensures WritesHttps(eff[i]) <==> IsHttps(eff[i])
    {
      HttpUpstreamExact(p, eff[i]);
      AddressExact(p, eff[i]);
      HttpsExact(eff[i]);
    }
    assert HttpUpstreamsFit(p, eff) <==> eff != [] && OneScheme(eff) && forall i :: 0 <= i < |eff| ==> HttpUpstreamOk(p, eff[i]);
    if urls :| AsksForUpstreams(h, urls) && HttpUpstreamsFit(p, urls) { UpstreamsExact(h, urls); }
    if urls :| AsksForUpstreams(h, urls) && AddressesFit(p, urls) { UpstreamsExact(h, urls); }
  }

  /** The checks on one host accept exactly the acceptable ones. */
  lemma HostOkExact(p: Platform, h: ProxyHost)
    ensures HostOk(p, h) <==> Acceptable(p, h)
  {
    hide AsksForUpstreams, EffectiveUpstreams, HttpUpstreamOk, TcpUpstreamOk, HttpUpstreamsFit, AddressesFit, OneScheme;
    hide NotBlank, AllSpace, LooksLikeDomain, IsDomain;
    NotBlankExact(h.name);
    DomainExact(h.domain);
    UpstreamListsExact(p, h);
  }

  /** Two hosts of one fleet: different names, and no domain or entry point for
      both when they are enabled and of one protocol. */
  ghost predicate Compatible(a: ProxyHost, b: ProxyHost) {
    && a.name != b.name
    && (a.enabled && b.enabled ==>
         && (IsHttpProtocol(a) && IsHttpProtocol(b) ==> a.domain != b.domain)
         && (a.protocol == TCP == b.protocol ==> a.domain != b.domain)
         && (a.protocol == UDP == b.protocol ==> forall ep :: !(ep in a.entryPoints && ep in b.entryPoints)))
  }

  ghost predicate IsHttpProtocol(h: ProxyHost) { h.protocol == HTTP || h.protocol == Unset }

  /** Validation finds no error exactly in the fleets whose hosts are each
      acceptable and compatible in pairs. */
  lemma AcceptedFleets(p: Platform, hosts: seq<ProxyHost>)
    ensures AllErrors(p, hosts) == [] <==>
      && (forall i :: 0 <= i < |hosts| ==> Acceptable(p, hosts[i]))
      && (forall i, j :: 0 <= i < j < |hosts| ==> Compatible(hosts[i], hosts[j]))
  {
    hide AllErrors, HostOk, Acceptable, Coexist, Compatible;
    ValidateExact(p, hosts);
    forall i | 0 <= i < |hosts| ensures HostOk(p, hosts[i]) <==> Acceptable(p, hosts[i]) { HostOkExact(p, hosts[i]); }
    if forall i :: 0 <= i < |hosts| ==> HostOk(p, hosts[i]) {
      forall i, j | 0 <= i < j < |hosts| ensures Coexist(hosts[i], hosts[j]) <==> Compatible(hosts[i], hosts[j]) {
        CoexistExact(p, hosts[i], hosts[j]);
      }
    }
  }

  lemma CoexistExact(p: Platform, a: ProxyHost, b: ProxyHost)
    requires HostOk(p, a) && HostOk(p, b)
    ensures Coexist(a, b) <==> Compatible(a, b)
  {
    hide HttpHostOk, L4HostOk, LooksLikeDomain, NotBlank;
  }
}
